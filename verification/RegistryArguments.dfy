/**
  The argument lists of the generated crawler registry: which ones are accepted, and how the options of an accepted
  one replace those of a command.
*/
module RegistryArguments {
  import opened Prelude

  datatype Bounds = Bounds(low: int, high: int)

  const LIMIT := "--per-target-limit"
  const SAVE := "--save-db"
  const PARTIAL := "--allow-partial-save"
  const STALE := "--mark-stale"

  predicate IsSwitch(option: string) {
    option == SAVE || option == PARTIAL || option == STALE
  }

  /** GENERATED_REGISTRY_NUMERIC_ARGUMENTS */
  function BoundsOf(option: string): Option<Bounds> {
    if option == LIMIT then Some(Bounds(0, 5000))
    else if option == "--max-depth" then Some(Bounds(0, 3))
    else if option == "--max-pages" then Some(Bounds(1, 2000))
    else if option == "--detail-limit" then Some(Bounds(0, 3000))
    else if option == "--timeout" then Some(Bounds(1, 60))
    else None
  }

  predicate IsDashed(s: string) {
    |s| >= 2 && s[0] == '-' && s[1] == '-'
  }

  /** int(), or None for a ValueError */
  type IntParser = string -> Option<int>

  predicate IsValue(option: string, value: string, parse: IntParser) {
    && value != "" && |value| <= 100 && !IsDashed(value)
    && (forall c :: c in value ==> c >= ' ')
    && parse(value).Some?
    && BoundsOf(option).Some?
    && BoundsOf(option).value.low <= parse(value).value <= BoundsOf(option).value.high
  }

  // The options that take a number, with the smallest and the largest one.
  const NUMBERS: seq<(string, int, int)> :=
    [("--per-target-limit", 0, 5000), ("--max-depth", 0, 3), ("--max-pages", 1, 2000), ("--detail-limit", 0, 3000),
     ("--timeout", 1, 60)]

  /** Three options stand alone; a value is short text that is no option, and a number within bounds. */
  lemma WhichOptionsCount(option: string, value: string, parse: IntParser)
    ensures IsSwitch(option) <==> option in {"--save-db", "--allow-partial-save", "--mark-stale"}
    ensures IsValue(option, value, parse) <==>
      && 1 <= |value| <= 100 && !("--" <= value) && (forall i :: 0 <= i < |value| ==> value[i] as int >= 32)
      && exists n, number :: n in NUMBERS && n.0 == option && parse(value) == Some(number) && n.1 <= number <= n.2
  {
    BoundsAreListed(option);
    PlainText(value);
    hide BoundsOf, IsDashed;
    if BoundsOf(option).Some? {
      var b := BoundsOf(option).value;
      assert (option, b.low, b.high) in NUMBERS;
    }
    forall n | n in NUMBERS && n.0 == option ensures BoundsOf(option) == Some(Bounds(n.1, n.2)) {
      assert (option, n.1, n.2) in NUMBERS;
    }
  }

  lemma PlainText(value: string)
    ensures IsDashed(value) <==> "--" <= value
    ensures (forall c :: c in value ==> c >= ' ') <==> forall i :: 0 <= i < |value| ==> value[i] as int >= 32
  {
    forall i | 0 <= i < |value| ensures value[i] in value && (value[i] >= ' ' <==> value[i] as int >= 32) {
    }
    if forall i :: 0 <= i < |value| ==> value[i] as int >= 32 {
      forall c | c in value ensures c >= ' ' {
        var i :| 0 <= i < |value| && value[i] == c;
        assert value[i] as int >= 32;
      }
    }
  }

  lemma BoundsAreListed(option: string)
    ensures forall low, high :: (option, low, high) in NUMBERS <==> BoundsOf(option) == Some(Bounds(low, high))
  {
    assert forall n :: n in NUMBERS <==>
      n == NUMBERS[0] || n == NUMBERS[1] || n == NUMBERS[2] || n == NUMBERS[3] || n == NUMBERS[4];
  }

  datatype Item = Switch(option: string) | Setting(option: string, value: string)

  predicate IsItem(item: Item, parse: IntParser) {
    match item
    case Switch(o) => IsSwitch(o)
    case Setting(o, v) => !IsSwitch(o) && IsValue(o, v, parse)
  }

  function Tokens(item: Item): seq<string> {
    match item
    case Switch(o) => [o]
    case Setting(o, v) => [o, v]
  }

  function Flatten(items: seq<Item>): seq<string> {
    if items == [] then [] else Tokens(items[0]) + Flatten(items[1..])
  }

  ghost predicate AreItems(items: seq<Item>, parse: IntParser) {
    forall item :: item in items ==> IsItem(item, parse)
  }

  ghost predicate DistinctOptions(items: seq<Item>) {
    forall i, j :: 0 <= i < j < |items| ==> items[i].option != items[j].option
  }

  /** A registry row's options: distinct, in bounds, saving, with a limit that says whether the crawl is partial. */
  ghost predicate Acceptable(items: seq<Item>, parse: IntParser) {
    && AreItems(items, parse) && DistinctOptions(items)
    && Switch(SAVE) in items
    && exists limit :: Setting(LIMIT, limit) in items && parse(limit).Some? &&
         (if parse(limit).value > 0 then Switch(PARTIAL) in items && Switch(STALE) !in items
          else Switch(PARTIAL) !in items)
  }

  // ---------- reading ----------

  function Prefixed<T>(first: seq<T>, rest: Option<seq<T>>): Option<seq<T>> {
    if rest.Some? then Some(first + rest.value) else None
  }

  function Parse(value: seq<string>, parse: IntParser): Option<seq<Item>> {
    if value == [] then Some([])
    else if IsSwitch(value[0]) then Prefixed([Switch(value[0])], Parse(value[1..], parse))
    else if |value| >= 2 && IsValue(value[0], value[1], parse)
    then Prefixed([Setting(value[0], value[1])], Parse(value[2..], parse))
    else None
  }

  /** There is at most one way to read a list. */
  lemma {:induction false} ParseIsExact(value: seq<string>, items: seq<Item>, parse: IntParser)
    ensures Parse(value, parse) == Some(items) <==> Flatten(items) == value && AreItems(items, parse)
    decreases |value| + |items|
  {
    hide IsValue, IsSwitch;
    if value != [] && IsSwitch(value[0]) {
      HeadTokens(items, value, parse);
      if items != [] { ParseIsExact(value[1..], items[1..], parse); }
      assert items != [] ==> items == [items[0]] + items[1..];
    } else if |value| >= 2 && IsValue(value[0], value[1], parse) {
      HeadTokens(items, value, parse);
      if items != [] { ParseIsExact(value[2..], items[1..], parse); }
      assert items != [] ==> items == [items[0]] + items[1..];
    } else {
      HeadTokens(items, value, parse);
    }
  }

  lemma HeadTokens(items: seq<Item>, value: seq<string>, parse: IntParser)
    ensures items == [] ==> Flatten(items) == []
    ensures items != [] && items[0].Switch? ==>
      (Flatten(items) == value <==> value != [] && value[0] == items[0].option && value[1..] == Flatten(items[1..]))
    ensures items != [] && items[0].Setting? ==>
      (Flatten(items) == value <==>
       |value| >= 2 && value[0] == items[0].option && value[1] == items[0].value && value[2..] == Flatten(items[1..]))
    ensures AreItems(items, parse) <==> items == [] || (IsItem(items[0], parse) && AreItems(items[1..], parse))
  {
  }

  function IndexOf(s: seq<string>, x: string): nat
    requires x in s
  {
    if s[0] == x then 0 else 1 + IndexOf(s[1..], x)
  }

  lemma IndexBehind(head: string, rest: seq<string>, option: string)
    requires option in rest && head != option
    ensures option in [head] + rest && IndexOf([head] + rest, option) == 1 + IndexOf(rest, option)
  {
  }

  lemma HeadAndTarget(items: seq<Item>, target: Item, parse: IntParser)
    requires AreItems(items, parse) && DistinctOptions(items) && target in items && target.Setting?
    ensures AreItems(items[1..], parse) && DistinctOptions(items[1..])
    ensures items[0] != target ==> target in items[1..] && items[0].option != target.option
    ensures items[0].Setting? ==> items[0].value != target.option
  {
    var k :| 0 <= k < |items| && items[k] == target;
    assert IsItem(items[0], parse) && IsItem(target, parse);
    OptionsAreDashed(target.option, parse, target.value);
    if k > 0 { assert items[1..][k - 1] == target; }
  }

  /** arguments.index(option) + 1 is where the value of that option is. */
  lemma {:induction false} ValueAfterOption(items: seq<Item>, option: string, value: string, parse: IntParser)
    requires AreItems(items, parse) && DistinctOptions(items) && Setting(option, value) in items
    ensures option in Flatten(items)
    ensures var i := IndexOf(Flatten(items), option);
            i + 1 < |Flatten(items)| && Flatten(items)[i + 1] == value
    decreases |items|
  {
    HeadAndTarget(items, Setting(option, value), parse);
    hide AreItems, DistinctOptions, IsItem;
    if items[0] != Setting(option, value) {
      hide IndexOf;
      var rest := Flatten(items[1..]);
      ValueAfterOption(items[1..], option, value, parse);
      match items[0] {
        case Switch(o) => IndexBehind(o, rest, option);
        case Setting(o, v) =>
          IndexBehind(v, rest, option);
          IndexBehind(o, [v] + rest, option);
          assert Flatten(items) == [o] + ([v] + rest);
      }
    }
  }

  lemma OptionsAreDashed(option: string, parse: IntParser, value: string)
    requires IsValue(option, value, parse)
    ensures IsDashed(option)
  {
  }

  function Options(items: seq<Item>): set<string> {
    set item | item in items :: item.option
  }

  /** The first `index` arguments have been read as `items`. */
  ghost predicate Read(value: seq<string>, index: nat, items: seq<Item>, parse: IntParser) {
    && index <= |value|
    && Parse(value, parse) == Prefixed(items, Parse(value[index..], parse))
    && DistinctOptions(items)
  }

  lemma ReadSwitch(value: seq<string>, index: nat, items: seq<Item>, parse: IntParser)
    requires Read(value, index, items, parse) && index < |value| && IsSwitch(value[index])
    requires value[index] !in Options(items)
    ensures Read(value, index + 1, items + [Switch(value[index])], parse)
    ensures Options(items + [Switch(value[index])]) == Options(items) + {value[index]}
  {
    assert value[index..][1..] == value[index + 1..];
    NextOption(items, Switch(value[index]));
    Regroup(items, [Switch(value[index])], Parse(value[index + 1..], parse));
  }

  lemma ReadSetting(value: seq<string>, index: nat, items: seq<Item>, parse: IntParser)
    requires Read(value, index, items, parse) && index + 1 < |value| && !IsSwitch(value[index])
    requires IsValue(value[index], value[index + 1], parse) && value[index] !in Options(items)
    ensures Read(value, index + 2, items + [Setting(value[index], value[index + 1])], parse)
    ensures Options(items + [Setting(value[index], value[index + 1])]) == Options(items) + {value[index]}
  {
    hide IsValue, IsSwitch;
    assert value[index..][2..] == value[index + 2..];
    NextOption(items, Setting(value[index], value[index + 1]));
    Regroup(items, [Setting(value[index], value[index + 1])], Parse(value[index + 2..], parse));
  }

  lemma Regroup(a: seq<Item>, b: seq<Item>, rest: Option<seq<Item>>)
    ensures Prefixed(a, Prefixed(b, rest)) == Prefixed(a + b, rest)
  {
    if rest.Some? { assert a + (b + rest.value) == (a + b) + rest.value; }
  }

  lemma NextOption(items: seq<Item>, item: Item)
    requires DistinctOptions(items) && item.option !in Options(items)
    ensures DistinctOptions(items + [item])
    ensures Options(items + [item]) == Options(items) + {item.option}
  {
  }

  /** A list that reads on with an option it already had is not acceptable. */
  lemma Repeated(value: seq<string>, index: nat, items: seq<Item>, parse: IntParser, all: seq<Item>)
    requires Read(value, index, items, parse) && index < |value| && value[index] in Options(items)
    requires Flatten(all) == value && AreItems(all, parse)
    ensures !DistinctOptions(all)
  {
    hide IsValue, IsSwitch;
    ParseIsExact(value, all, parse);
    var rest := Parse(value[index..], parse).value;
    var item :| item in items && item.option == value[index];
    var i :| 0 <= i < |items| && items[i] == item;
    assert all == items + rest && rest[0].option == value[index];
    assert all[i].option == all[|items|].option;
  }

  /** Whether a list that reads as `items` is acceptable can be told from its options and its limit. */
  lemma AcceptableBySight(items: seq<Item>, parse: IntParser)
    requires AreItems(items, parse) && DistinctOptions(items)
    requires SAVE in Options(items) && LIMIT in Options(items)
    ensures forall o :: IsSwitch(o) ==> (o in Options(items) <==> Switch(o) in items)
    ensures LIMIT in Flatten(items)
    ensures var i := IndexOf(Flatten(items), LIMIT);
            && i + 1 < |Flatten(items)| && parse(Flatten(items)[i + 1]).Some?
            && (var limit := parse(Flatten(items)[i + 1]).value;
                && 0 <= limit
                && (Acceptable(items, parse) <==>
                      if limit > 0 then PARTIAL in Options(items) && STALE !in Options(items)
                      else PARTIAL !in Options(items)))
  {
    hide Flatten, IndexOf;
    var l :| l in items && l.option == LIMIT;
    assert IsItem(l, parse);
    var k :| 0 <= k < |items| && items[k] == l;
    ValueAfterOption(items, LIMIT, l.value, parse);
    forall o | IsSwitch(o) ensures o in Options(items) <==> Switch(o) in items {
      assert Switch(o).option == o;
      if o in Options(items) {
        var x :| x in items && x.option == o;
        assert IsItem(x, parse);
      }
    }
    assert IsSwitch(SAVE) && IsSwitch(PARTIAL) && IsSwitch(STALE);
    forall v | Setting(LIMIT, v) in items ensures v == l.value {
      var j :| 0 <= j < |items| && items[j] == Setting(LIMIT, v);
    }
  }

  lemma AcceptableHasBoth(items: seq<Item>, parse: IntParser)
    requires Acceptable(items, parse)
    ensures SAVE in Options(items) && LIMIT in Options(items)
  {
  }

  ghost predicate Accepted(value: seq<string>, parse: IntParser) {
    exists items :: Flatten(items) == value && Acceptable(items, parse)
  }

  lemma ReadIsAccepted(value: seq<string>, items: seq<Item>, parse: IntParser)
    requires Parse(value, parse) == Some(items)
    ensures Flatten(items) == value && AreItems(items, parse)
    ensures Accepted(value, parse) <==> Acceptable(items, parse)
  {
    hide Parse, Flatten;
    ParseIsExact(value, items, parse);
    if Accepted(value, parse) {
      var all :| Flatten(all) == value && Acceptable(all, parse);
      ParseIsExact(value, all, parse);
    }
  }

  lemma RejectedBy(value: seq<string>, index: nat, items: seq<Item>, parse: IntParser)
    requires Read(value, index, items, parse) && index < |value|
    requires value[index] in Options(items) || Parse(value[index..], parse).None?
    ensures !Accepted(value, parse)
  {
    hide Parse, Flatten;
    if Accepted(value, parse) {
      var all :| Flatten(all) == value && Acceptable(all, parse);
      ParseIsExact(value, all, parse);
      if value[index] in Options(items) { Repeated(value, index, items, parse, all); }
    }
  }

  /** _validated_registry_arguments, where Err stands for each of its errors. */
  method ValidatedRegistryArguments(value: seq<string>, parse: IntParser) returns (r: Result<seq<string>>)
    ensures r.Ok? ==> r.value == value
    ensures r.Ok? <==> 1 <= |value| <= 32 && Accepted(value, parse)
  {
    hide Accepted, Read, Acceptable, Flatten, Options, AreItems, DistinctOptions;
    if !(1 <= |value| <= 32) { return Err; }
    var arguments: seq<string> := [];
    var seen: set<string> := {};
    ghost var items: seq<Item> := [];
    var index := 0;
    NothingRead(value, parse);
    while index < |value|
      invariant 0 <= index <= |value| && arguments == value[..index]
      invariant Read(value, index, items, parse) && seen == Options(items)
      decreases |value| - index
    {
      var option := value[index];
      if option in seen {
        RejectedBy(value, index, items, parse);
        return Err;
      }
      seen := seen + {option};
      if IsSwitch(option) {
        ReadSwitch(value, index, items, parse);
        arguments := arguments + [option];
        items := items + [Switch(option)];
        index := index + 1;
        continue;
      }
      if BoundsOf(option).None? || index + 1 >= |value| {
        RejectedBy(value, index, items, parse);
        return Err;
      }
      var raw := value[index + 1];
      if !IsValue(option, raw, parse) {
        RejectedBy(value, index, items, parse);
        return Err;
      }
      ReadSetting(value, index, items, parse);
      arguments := arguments + [option, raw];
      items := items + [Setting(option, raw)];
      index := index + 2;
    }
    AllRead(value, index, items, parse);
    assert arguments == value;
    if SAVE !in seen || LIMIT !in seen {
      return Err;
    }
    AcceptableBySight(items, parse);
    var limit := parse(arguments[IndexOf(arguments, LIMIT) + 1]).value;
    if limit > 0 && PARTIAL !in seen {
      return Err;
    }
    if limit == 0 && PARTIAL in seen {
      return Err;
    }
    if STALE in seen && limit != 0 {
      return Err;
    }
    return Ok(arguments);
  }

  lemma NothingRead(value: seq<string>, parse: IntParser)
    ensures Read(value, 0, [], parse) && Options([]) == {}
  {
    hide Parse;
    assert value[0..] == value;
    var rest := Parse(value, parse);
    if rest.Some? { assert [] + rest.value == rest.value; }
  }

  lemma AllRead(value: seq<string>, index: nat, items: seq<Item>, parse: IntParser)
    requires Read(value, index, items, parse) && index == |value|
    ensures Flatten(items) == value && AreItems(items, parse) && DistinctOptions(items)
    ensures Accepted(value, parse) <==> Acceptable(items, parse)
    ensures Accepted(value, parse) ==> SAVE in Options(items) && LIMIT in Options(items)
  {
    hide Flatten, Acceptable, Accepted;
    assert value[index..] == [];
    assert items + [] == items;
    ReadIsAccepted(value, items, parse);
    if Acceptable(items, parse) { AcceptableHasBoth(items, parse); }
  }
}
