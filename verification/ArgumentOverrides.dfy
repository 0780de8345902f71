/** How the numeric options of an accepted registry row replace those of a provider's command. */
module ArgumentOverrides {
  import opened Prelude
  import opened RegistryArguments

  /** The settings that override: every numeric option except the limit. */
  function Overriding(items: seq<Item>): seq<Item> {
    if items == [] then []
    else if items[0].Setting? && items[0].option != LIMIT then [items[0]] + Overriding(items[1..])
    else Overriding(items[1..])
  }

  /** A command as the override sees it: arguments it leaves alone, and controlled options with their values. */
  datatype Piece = Kept(argument: string) | Dropped(option: string, value: string)

  predicate IsPiece(p: Piece, controlled: set<string>) {
    match p
    case Kept(a) => a !in controlled
    case Dropped(o, v) => o in controlled && !IsDashed(v)
  }

  function PieceTokens(p: Piece): seq<string> {
    match p
    case Kept(a) => [a]
    case Dropped(o, v) => [o, v]
  }

  function Joined(pieces: seq<Piece>): seq<string> {
    if pieces == [] then [] else PieceTokens(pieces[0]) + Joined(pieces[1..])
  }

  function KeptArguments(pieces: seq<Piece>): seq<string> {
    if pieces == [] then []
    else if pieces[0].Kept? then [pieces[0].argument] + KeptArguments(pieces[1..])
    else KeptArguments(pieces[1..])
  }

  ghost predicate IsReading(pieces: seq<Piece>, command: seq<string>, controlled: set<string>) {
    Joined(pieces) == command && forall p :: p in pieces ==> IsPiece(p, controlled)
  }

  /** The command without controlled options and their values; None when such an option has no value. */
  function Stripped(command: seq<string>, controlled: set<string>): Option<seq<string>> {
    if command == [] then Some([])
    else if command[0] !in controlled then Prefixed([command[0]], Stripped(command[1..], controlled))
    else if |command| < 2 || IsDashed(command[1]) then None
    else Stripped(command[2..], controlled)
  }

  /** Stripping succeeds exactly on the commands that fall into pieces, and keeps exactly the kept ones, in order. */
  lemma {:induction false} StrippedReads(command: seq<string>, pieces: seq<Piece>, controlled: set<string>)
    requires IsReading(pieces, command, controlled)
    ensures Stripped(command, controlled) == Some(KeptArguments(pieces))
    decreases |pieces|
  {
    if pieces != [] {
      var rest := Joined(pieces[1..]);
      assert IsPiece(pieces[0], controlled);
      StrippedReads(rest, pieces[1..], controlled);
      if pieces[0].Kept? { assert command[1..] == rest; } else { assert command[2..] == rest; }
    }
  }

  lemma {:induction false} StrippedHasReading(command: seq<string>, controlled: set<string>)
    returns (pieces: seq<Piece>)
    requires Stripped(command, controlled).Some?
    ensures IsReading(pieces, command, controlled)
    decreases |command|
  {
    if command == [] {
      pieces := [];
    } else if command[0] !in controlled {
      var rest := StrippedHasReading(command[1..], controlled);
      pieces := [Kept(command[0])] + rest;
      assert pieces[1..] == rest && command == [command[0]] + command[1..];
    } else {
      var rest := StrippedHasReading(command[2..], controlled);
      pieces := [Dropped(command[0], command[1])] + rest;
      assert pieces[1..] == rest && command == [command[0], command[1]] + command[2..];
    }
  }

  /** The registry row's arguments behind the script name. */
  function RowArguments(registry: seq<string>): seq<string> {
    if registry != [] && registry[0] == "--provider" then (if |registry| >= 2 then registry[2..] else []) else registry
  }

  /** A provider's name in front is dropped with its option, and nothing else is. */
  lemma ProviderIsDropped(name: string, rest: seq<string>)
    ensures RowArguments(["--provider", name] + rest) == rest && RowArguments(["--provider"]) == []
    ensures (rest == [] || rest[0] != "--provider") ==> RowArguments(rest) == rest
  {
    assert (["--provider", name] + rest)[2..] == rest;
  }

  ghost function RowItems(registry: seq<string>, parse: IntParser): seq<Item>
    requires Accepted(RowArguments(registry), parse)
  {
    var items :| Flatten(items) == RowArguments(registry) && Acceptable(items, parse);
    items
  }

  /** The command that apply_provider_arg_overrides promises. */
  function Overridden(settings: seq<Item>, command: seq<string>): Option<seq<string>> {
    if settings == [] then Some(command)
    else
      var kept := Stripped(command, Options(settings));
      if kept.Some? then Some(kept.value + Flatten(settings)) else None
  }

  lemma {:induction false} OverridingGrows(items: seq<Item>, k: nat)
    requires k < |items|
    ensures Overriding(items[..k + 1]) ==
      Overriding(items[..k]) + (if items[k].Setting? && items[k].option != LIMIT then [items[k]] else [])
  {
    if k > 0 {
      OverridingGrows(items[1..], k - 1);
      assert items[1..][..k] == items[..k + 1][1..] && items[1..][..k - 1] == items[..k][1..];
    }
  }

  lemma {:induction false} OverridingOnly(items: seq<Item>)
    ensures forall s :: s in Overriding(items) <==> s in items && s.Setting? && s.option != LIMIT
  {
    if items != [] {
      OverridingOnly(items[1..]);
      assert forall s :: s in items <==> s == items[0] || s in items[1..];
    }
  }

  lemma {:induction false} OverridingDistinct(items: seq<Item>)
    requires DistinctOptions(items)
    ensures DistinctOptions(Overriding(items))
  {
    if items != [] {
      OverridingDistinct(items[1..]);
      OverridingOnly(items[1..]);
      var o := Overriding(items[1..]);
      forall j | 0 <= j < |o| ensures o[j].option != items[0].option {
        var k :| 0 <= k < |items[1..]| && items[1..][k] == o[j];
        assert items[k + 1] == o[j];
      }
    }
  }

  lemma NextItem(arguments: seq<string>, index: nat, items: seq<Item>, k: nat, parse: IntParser)
    requires k < |items| && AreItems(items, parse)
    requires index <= |arguments| && arguments[index..] == Flatten(items[k..])
    ensures index < |arguments| && arguments[index] == items[k].option
    ensures items[k].Switch? ==> BoundsOf(items[k].option).None? && arguments[index + 1..] == Flatten(items[k + 1..])
    ensures items[k].Setting? ==>
      && BoundsOf(items[k].option).Some? && index + 1 < |arguments| && arguments[index + 1] == items[k].value
      && arguments[index + 2..] == Flatten(items[k + 1..])
  {
    var s := arguments[index..];
    assert IsItem(items[k], parse) && items[k..][1..] == items[k + 1..];
    HeadTokens(items[k..], s, parse);
    assert s[1..] == arguments[index + 1..];
    if items[k].Setting? { assert s[2..] == arguments[index + 2..]; }
  }

  /** Of the first `index` arguments, `kept` are kept. */
  ghost predicate Strips(command: seq<string>, index: nat, kept: seq<string>, controlled: set<string>) {
    index <= |command| && Stripped(command, controlled) == Prefixed(kept, Stripped(command[index..], controlled))
  }

  lemma StripsNothing(command: seq<string>, controlled: set<string>)
    ensures Strips(command, 0, [], controlled)
  {
    hide Stripped;
    assert command[0..] == command;
    var r := Stripped(command, controlled);
    if r.Some? { assert [] + r.value == r.value; }
  }

  lemma StripsOn(command: seq<string>, index: nat, kept: seq<string>, controlled: set<string>)
    requires Strips(command, index, kept, controlled) && index < |command|
    ensures command[index] !in controlled ==> Strips(command, index + 1, kept + [command[index]], controlled)
    ensures command[index] in controlled ==>
      if index + 1 >= |command| || IsDashed(command[index + 1]) then Stripped(command, controlled).None?
      else Strips(command, index + 2, kept, controlled)
  {
    assert command[index..][1..] == command[index + 1..];
    if index + 1 < |command| { assert command[index..][2..] == command[index + 2..]; }
    var rest := Stripped(command[index + 1..], controlled);
    if rest.Some? { assert kept + ([command[index]] + rest.value) == (kept + [command[index]]) + rest.value; }
  }

  lemma StripsAll(command: seq<string>, kept: seq<string>, controlled: set<string>)
    requires Strips(command, |command|, kept, controlled)
    ensures Stripped(command, controlled) == Some(kept)
  {
    assert command[|command|..] == [];
    assert kept + [] == kept;
  }

  /** apply_provider_arg_overrides; `registry` is what follows the script in the provider's registry command. */
  method ApplyOverrides(registry: Option<seq<string>>, command: seq<string>, parse: IntParser)
    returns (r: Result<seq<string>>)
    requires registry.Some? ==> Accepted(RowArguments(registry.value), parse)
    ensures registry.None? ==> r == Ok(command)
    ensures registry.Some? ==>
      var promised := Overridden(Overriding(RowItems(registry.value, parse)), command);
      if promised.Some? then r == Ok(promised.value) else r == Err
  {
    hide Stripped, Strips, Accepted, Acceptable, Flatten, Options, Overriding;
    if registry.None? { return Ok(command); }
    var arguments := RowArguments(registry.value);
    ghost var items := RowItems(registry.value, parse);
    var replacements := Replacements(arguments, items, parse);
    if replacements == [] { return Ok(command); }
    var normalized: seq<string> := [];
    var index := 0;
    var controlled := Options(replacements);
    StripsNothing(command, controlled);
    while index < |command|
      invariant 0 <= index <= |command|
      invariant Strips(command, index, normalized, controlled)
      decreases |command| - index
    {
      var argument := command[index];
      StripsOn(command, index, normalized, controlled);
      if argument in controlled {
        if index + 1 >= |command| || IsDashed(command[index + 1]) { return Err; }
        index := index + 2;
        continue;
      }
      normalized := normalized + [argument];
      index := index + 1;
    }
    StripsAll(command, normalized, controlled);
    r := Ok(normalized + Flatten(replacements));
  }

  method Replacements(arguments: seq<string>, ghost items: seq<Item>, parse: IntParser)
    returns (replacements: seq<Item>)
    requires Flatten(items) == arguments && Acceptable(items, parse)
    ensures replacements == Overriding(items)
  {
    replacements := [];
    var index := 0;
    ghost var k := 0;
    while index < |arguments|
      invariant 0 <= index <= |arguments| && 0 <= k <= |items|
      invariant arguments[index..] == Flatten(items[k..])
      invariant replacements == Overriding(items[..k])
      decreases |arguments| - index
    {
      var option := arguments[index];
      assert k < |items|;
      NextItem(arguments, index, items, k, parse);
      OverridingGrows(items, k);
      if BoundsOf(option).Some? {
        if option != LIMIT {
          replacements := replacements + [Setting(option, arguments[index + 1])];
        }
        index := index + 2;
      } else {
        index := index + 1;
      }
      k := k + 1;
    }
    assert items[..k] == items;
  }

  lemma {:induction false} SettingsStripAway(kept: seq<string>, settings: seq<Item>, controlled: set<string>)
    requires forall a :: a in kept ==> a !in controlled
    requires forall s :: s in settings ==> s.Setting? && s.option in controlled && !IsDashed(s.value)
    ensures Stripped(kept + Flatten(settings), controlled) == Some(kept)
    decreases |kept| + |settings|
  {
    var command := kept + Flatten(settings);
    if kept != [] {
      assert command[1..] == kept[1..] + Flatten(settings) && kept == [kept[0]] + kept[1..];
      SettingsStripAway(kept[1..], settings, controlled);
    } else if settings != [] {
      assert settings[0] in settings;
      SettingsStripAway([], settings[1..], controlled);
      assert command[2..] == [] + Flatten(settings[1..]);
    }
  }

  lemma {:induction false} NoneControlledIsKept(pieces: seq<Piece>, controlled: set<string>)
    requires forall p :: p in pieces ==> IsPiece(p, controlled)
    ensures forall a :: a in KeptArguments(pieces) ==> a !in controlled
  {
    if pieces != [] {
      assert IsPiece(pieces[0], controlled);
      NoneControlledIsKept(pieces[1..], controlled);
    }
  }

  /** Settings whose options differ, and whose values cannot be taken for options. */
  ghost predicate AreSettings(settings: seq<Item>) {
    DistinctOptions(settings) && forall s :: s in settings ==> s.Setting? && IsDashed(s.option) && !IsDashed(s.value)
  }

  /** Overriding a second time changes nothing. */
  lemma OverriddenTwice(settings: seq<Item>, command: seq<string>)
    requires AreSettings(settings) && Overridden(settings, command).Some?
    ensures Overridden(settings, Overridden(settings, command).value) == Overridden(settings, command)
  {
    if settings != [] {
      var controlled := Options(settings);
      var pieces := StrippedHasReading(command, controlled);
      StrippedReads(command, pieces, controlled);
      NoneControlledIsKept(pieces, controlled);
      SettingsStripAway(KeptArguments(pieces), settings, controlled);
    }
  }

  predicate FollowedBy(tokens: seq<string>, option: string, value: string) {
    exists i | 0 <= i < |tokens| - 1 :: tokens[i] == option && tokens[i + 1] == value
  }

  lemma FollowedLater(before: seq<string>, tokens: seq<string>, option: string, value: string)
    requires FollowedBy(tokens, option, value)
    ensures FollowedBy(before + tokens, option, value)
  {
    var i :| 0 <= i < |tokens| - 1 && tokens[i] == option && tokens[i + 1] == value;
    var j := |before| + i;
    assert (before + tokens)[j] == option && (before + tokens)[j + 1] == value;
  }

  lemma SettingAhead(settings: seq<Item>)
    requires settings != [] && AreSettings(settings)
    ensures AreSettings(settings[1..])
    ensures Flatten(settings) == [settings[0].option, settings[0].value] + Flatten(settings[1..])
    ensures forall s :: s in settings[1..] ==> s.option != settings[0].option
    ensures forall s :: s in settings ==> settings[0].value != s.option
  {
  }

  lemma {:induction false} SettingOnce(settings: seq<Item>, s: Item)
    requires AreSettings(settings) && s in settings
    ensures multiset(Flatten(settings))[s.option] == 1
    decreases |settings|
  {
    SettingAhead(settings);
    CountBehind(settings[0].option, settings[0].value, Flatten(settings[1..]), s.option);
    hide Flatten, IsDashed;
    assert s == settings[0] || s in settings[1..];
    if s in settings[1..] {
      SettingOnce(settings[1..], s);
    } else {
      OptionElsewhere(settings[1..], s.option);
    }
  }

  lemma {:induction false} SettingFollowed(settings: seq<Item>, s: Item)
    requires AreSettings(settings) && s in settings
    ensures FollowedBy(Flatten(settings), s.option, s.value)
    decreases |settings|
  {
    SettingAhead(settings);
    hide Flatten, IsDashed, FollowedBy;
    assert s == settings[0] || s in settings[1..];
    if s in settings[1..] {
      SettingFollowed(settings[1..], s);
      FollowedLater([settings[0].option, settings[0].value], Flatten(settings[1..]), s.option, s.value);
    } else {
      FollowedAtOnce(s.option, s.value, Flatten(settings[1..]));
    }
  }

  lemma CountBehind(option: string, value: string, rest: seq<string>, x: string)
    ensures multiset([option, value] + rest)[x] ==
      (if option == x then 1 else 0) + (if value == x then 1 else 0) + multiset(rest)[x]
  {
  }

  lemma FollowedAtOnce(option: string, value: string, rest: seq<string>)
    ensures FollowedBy([option, value] + rest, option, value)
  {
    var tokens := [option, value] + rest;
    var i := 0;
    assert tokens[i] == option && tokens[i + 1] == value;
  }

  lemma {:induction false} OptionElsewhere(settings: seq<Item>, option: string)
    requires forall s :: s in settings ==> s.Setting? && !IsDashed(s.value) && s.option != option
    requires IsDashed(option)
    ensures option !in Flatten(settings)
  {
    if settings != [] {
      assert settings[0] in settings;
      OptionElsewhere(settings[1..], option);
    }
  }

  /**
    The overridden command is the command's own other arguments, in order, followed by the row's settings; so each
    controlled option occurs exactly once, with the row's value behind it.
  */
  lemma OverriddenOnce(settings: seq<Item>, command: seq<string>, pieces: seq<Piece>, s: Item)
    requires AreSettings(settings) && IsReading(pieces, command, Options(settings)) && s in settings
    ensures Overridden(settings, command) == Some(KeptArguments(pieces) + Flatten(settings))
    ensures var r := KeptArguments(pieces) + Flatten(settings);
            && multiset(r)[s.option] == 1
            && FollowedBy(r, s.option, s.value)
  {
    var kept, flat := KeptArguments(pieces), Flatten(settings);
    StrippedReads(command, pieces, Options(settings));
    NoneControlledIsKept(pieces, Options(settings));
    SettingOnce(settings, s);
    SettingFollowed(settings, s);
    assert s.option in Options(settings) && s.option !in kept;
    assert multiset(kept + flat) == multiset(kept) + multiset(flat);
    FollowedLater(kept, flat, s.option, s.value);
  }

  /** The settings of an accepted row are what those lemmas ask for. */
  lemma RowSettings(registry: seq<string>, parse: IntParser)
    requires Accepted(RowArguments(registry), parse)
    ensures AreSettings(Overriding(RowItems(registry, parse)))
  {
    var items := RowItems(registry, parse);
    OverridingOnly(items);
    OverridingDistinct(items);
    forall s | s in Overriding(items) ensures IsDashed(s.option) && !IsDashed(s.value) {
      assert IsItem(s, parse);
      OptionsAreDashed(s.option, parse, s.value);
    }
  }
}
