/** The registry that is built from the target list, and how it relates to de-duplicating the working targets. */
module TargetRegistry {
  import opened Prelude
  import opened Ordering
  import opened Targets

  datatype Row = Row(target: Target, status: string, enabled: bool, disabledReason: string)

  function Truncate(s: string, n: nat): string {
    if |s| <= n then s else s[..n]
  }

  // for key in keys: seen.setdefault(key, provider)
  function SetDefaults(keys: seq<Key>, seen: map<Key, string>, provider: string): (r: map<Key, string>)
    ensures r.Keys == seen.Keys + ToSet(keys)
    ensures forall k :: k in r ==> r[k] == if k in seen then seen[k] else provider
  {
    if keys == [] then seen
    else
      assert forall k :: k in keys <==> k == keys[0] || k in keys[1..];
      SetDefaults(keys[1..], if keys[0] in seen then seen else seen[keys[0] := provider], provider)
  }

  datatype Registry = Registry(rows: seq<Row>, seen: map<Key, string>)

  function RowFor(t: Target, seen: map<Key, string>, c: Config): Row {
    var reason := ExplicitDuplicateReason(t, c);
    var owner := Owner(ScopeKeys(t, c), seen);
    var enabled := t.status in WORKING && !c.excludedPath(t.url) && reason == "" && owner == "";
    var disabledReason :=
      if reason != "" then reason
      else if owner != "" then "duplicate_url:" + owner
      else if t.status in DISABLED then t.status
      else if c.excludedPath(t.url) then "excluded_url_shape"
      else "";
    Row(t, t.status, enabled, disabledReason)
  }

  // A row that is no duplicate claims its keys, whether or not it is enabled.
  function Claims(t: Target, seen: map<Key, string>, c: Config): map<Key, string> {
    var keys := ScopeKeys(t, c);
    if ExplicitDuplicateReason(t, c) == "" && Owner(keys, seen) == ""
    then SetDefaults(keys, seen, Truncate(t.provider, 50))
    else seen
  }

  function Register(r: Registry, t: Target, c: Config): Registry {
    Registry(r.rows + [RowFor(t, r.seen, c)], Claims(t, r.seen, c))
  }

  function RegistryPass(items: seq<Target>, c: Config): (r: Registry)
    ensures |r.rows| == |items|
    ensures forall i :: 0 <= i < |items| ==> r.rows[i].target == items[i]
  {
    if items == [] then Registry([], map[])
    else Register(RegistryPass(items[..|items| - 1], c), items[|items| - 1], c)
  }

  function Registered(items: seq<Target>, c: Config): seq<Row> {
    RegistryPass(Sort(items, PreferredTo), c).rows
  }

  /** The loop body of build_registry that fills one row. */
  method FillRow(t: Target, seen: map<Key, string>, c: Config) returns (row: Row)
    ensures row == RowFor(t, seen, c)
  {
    var reason := ExplicitDuplicateReason(t, c);
    var owner := Owner(ScopeKeys(t, c), seen);
    var enabled := t.status in WORKING && !c.excludedPath(t.url) && reason == "" && owner == "";
    var disabledReason := "";
    if reason != "" {
      disabledReason := reason;
    } else if owner != "" {
      disabledReason := "duplicate_url:" + owner;
    } else if t.status in DISABLED {
      disabledReason := t.status;
    } else if c.excludedPath(t.url) {
      disabledReason := "excluded_url_shape";
    }
    row := Row(t, t.status, enabled, disabledReason);
  }

  /** build_registry, up to the columns that are copied from the target. */
  method BuildRegistry(items: seq<Target>, c: Config) returns (rows: seq<Row>)
    ensures rows == Registered(items, c)
  {
    hide RowFor, ScopeKeys, Owner, SetDefaults, ExplicitDuplicateReason, PreferredTo, Sort, Truncate;
    rows := [];
    var seen: map<Key, string> := map[];
    var sorted := Sort(items, PreferredTo);
    var i := 0;
    while i < |sorted|
      invariant 0 <= i <= |sorted|
      invariant Registry(rows, seen) == RegistryPass(sorted[..i], c)
    {
      assert sorted[..i + 1][..i] == sorted[..i];
      var t := sorted[i];
      var row := FillRow(t, seen, c);
      rows := rows + [row];
      if ExplicitDuplicateReason(t, c) == "" && Owner(ScopeKeys(t, c), seen) == "" {
        seen := SetDefaults(ScopeKeys(t, c), seen, Truncate(t.provider, 50));
      }
      i := i + 1;
    }
    assert sorted[..i] == sorted;
  }

  /** The enabled rows hold claims on all their keys, each under a name, and are pairwise disjoint. */
  ghost predicate RegistryInv(r: Registry, c: Config) {
    && (forall k :: k in r.seen ==> r.seen[k] != "")
    && (forall i, k :: 0 <= i < |r.rows| && r.rows[i].enabled && k in ScopeKeys(r.rows[i].target, c) ==> k in r.seen)
    && (forall i, j :: 0 <= i < j < |r.rows| && r.rows[i].enabled && r.rows[j].enabled ==>
         !Overlap(r.rows[i].target, r.rows[j].target, c))
  }

  lemma RegisterKeepsInv(r: Registry, t: Target, c: Config)
    requires RegistryInv(r, c) && t.provider != ""
    ensures RegistryInv(Register(r, t, c), c)
  {
    hide ScopeKeys, ExplicitDuplicateReason;
    OwnerIsSeen(ScopeKeys(t, c), r.seen);
  }

  lemma {:induction false} RegistryIsDisjoint(items: seq<Target>, c: Config)
    requires NoneBlank(items)
    ensures RegistryInv(RegistryPass(items, c), c)
  {
    if items != [] {
      RegistryIsDisjoint(items[..|items| - 1], c);
      RegisterKeepsInv(RegistryPass(items[..|items| - 1], c), items[|items| - 1], c);
    }
  }

  /** Enabled registry rows never share a scope key. */
  lemma EnabledRowsAreDisjoint(items: seq<Target>, c: Config, i: nat, j: nat)
    requires forall t :: t in items ==> IsRegistryTarget(t, c)
    requires i < j < |items|
    ensures |Registered(items, c)| == |items|
    ensures var rows := Registered(items, c);
            rows[i].enabled && rows[j].enabled ==> !Overlap(rows[i].target, rows[j].target, c)
  {
    var sorted := Sort(items, PreferredTo);
    SortPermutes(items, PreferredTo);
    assert forall k :: 0 <= k < |sorted| ==> sorted[k] in items;
    RegistryIsDisjoint(sorted, c);
  }

  lemma RowIffNoReason(t: Target, seen: map<Key, string>, c: Config)
    ensures t.status in REGISTERED ==> (RowFor(t, seen, c).enabled <==> RowFor(t, seen, c).disabledReason == "")
  {
  }

  /** A row of the registry is enabled exactly when no reason is given for disabling it. */
  lemma {:induction false} EnabledIffNoReason(items: seq<Target>, c: Config, i: nat)
    requires i < |items| && items[i].status in REGISTERED
    ensures RegistryPass(items, c).rows[i].enabled <==> RegistryPass(items, c).rows[i].disabledReason == ""
  {
    hide RowFor;
    var n := |items| - 1;
    RowIffNoReason(items[n], RegistryPass(items[..n], c).seen, c);
    if i < n { EnabledIffNoReason(items[..n], c, i); }
  }

  function Working(items: seq<Target>, c: Config): seq<Target> {
    Filter(items, (t: Target) => IsWorkingTarget(t, c))
  }

  function Registrable(items: seq<Target>, c: Config): seq<Target> {
    Filter(items, (t: Target) => IsRegistryTarget(t, c))
  }

  /** A registry target without an explicit duplicate reason: its row claims its keys unless another one holds them. */
  predicate IsClaimer(t: Target, c: Config) {
    IsRegistryTarget(t, c) && ExplicitDuplicateReason(t, c) == ""
  }

  function Claimers(items: seq<Target>, c: Config): seq<Target> {
    Filter(items, (t: Target) => IsClaimer(t, c))
  }

  /** The targets of the enabled rows, in order. */
  function EnabledTargets(rows: seq<Row>): seq<Target> {
    if rows == [] then []
    else
      EnabledTargets(rows[..|rows| - 1])
      + if rows[|rows| - 1].enabled then [rows[|rows| - 1].target] else []
  }

  lemma {:induction false} FilterSnoc(s: seq<Target>, x: Target, p: Target -> bool)
    ensures Filter(s + [x], p) == if p(x) then Filter(s, p) + [x] else Filter(s, p)
  {
    if s == [] {
      assert s + [x] == [x];
    } else {
      assert (s + [x])[1..] == s[1..] + [x];
      FilterSnoc(s[1..], x, p);
    }
  }

  /** One more target at the end of the list. */
  lemma Snoc(s: seq<Target>, t: Target, c: Config)
    ensures Working(s + [t], c) == if IsWorkingTarget(t, c) then Working(s, c) + [t] else Working(s, c)
    ensures Registrable(s + [t], c) == if IsRegistryTarget(t, c) then Registrable(s, c) + [t] else Registrable(s, c)
    ensures Claimers(s + [t], c) == if IsClaimer(t, c) then Claimers(s, c) + [t] else Claimers(s, c)
  {
    hide IsWorkingTarget, IsRegistryTarget, IsClaimer;
    FilterSnoc(s, t, (t: Target) => IsWorkingTarget(t, c));
    FilterSnoc(s, t, (t: Target) => IsRegistryTarget(t, c));
    FilterSnoc(s, t, (t: Target) => IsClaimer(t, c));
  }

  lemma PassSnoc(s: seq<Target>, t: Target, c: Config)
    ensures Pass(s + [t], c) == Step(Pass(s, c), t, c)
    ensures RegistryPass(s + [t], c) == Register(RegistryPass(s, c), t, c)
  {
  }

  // ---------- the registry is a greedy pass, too ----------

  lemma ClaimersNamed(s: seq<Target>, c: Config)
    ensures NoneBlank(Claimers(s, c))
  {
    FilterKeeps(s, (t: Target) => IsClaimer(t, c));
    forall i | 0 <= i < |Claimers(s, c)| ensures Claimers(s, c)[i].provider != "" {
      assert Claimers(s, c)[i] in Claimers(s, c);
    }
  }

  /** The registry after the targets, and the greedy pass over the claimers among them. */
  ghost predicate Agree(r: Registry, d: State, c: Config) {
    && r.seen.Keys == d.seen.Keys
    && (forall k :: k in r.seen ==> r.seen[k] != "")
    && EnabledTargets(r.rows) == Working(d.kept, c)
  }

  lemma ClaimsAgree(r: Registry, d: State, t: Target, c: Config)
    requires Agree(r, d, c) && Covers(d, c) && IsRegistryTarget(t, c)
    ensures var next := if IsClaimer(t, c) then Step(d, t, c) else d;
            && Claims(t, r.seen, c).Keys == next.seen.Keys
            && (forall k :: k in Claims(t, r.seen, c) ==> Claims(t, r.seen, c)[k] != "")
            && next.kept == d.kept + (if IsClaimer(t, c) && Owner(ScopeKeys(t, c), r.seen) == "" then [t] else [])
  {
    hide ScopeKeys, ExplicitDuplicateReason, Working, EnabledTargets;
    OwnerIsSeen(ScopeKeys(t, c), r.seen);
    OwnerIsSeen(ScopeKeys(t, c), d.seen);
  }

  lemma RegisterAgrees(r: Registry, d: State, t: Target, c: Config)
    requires Agree(r, d, c) && Covers(d, c) && IsRegistryTarget(t, c)
    ensures Agree(Register(r, t, c), if IsClaimer(t, c) then Step(d, t, c) else d, c)
  {
    ClaimsAgree(r, d, t, c);
    Snoc(d.kept, t, c);
    hide ScopeKeys, ExplicitDuplicateReason, Working, Claims, Step, Covers;
    var row := RowFor(t, r.seen, c);
    assert (r.rows + [row])[..|r.rows|] == r.rows;
  }

  /** The targets of the enabled rows are the working ones among those the greedy pass over the claimers keeps. */
  lemma {:induction false} RegistryIsGreedy(s: seq<Target>, c: Config)
    ensures Agree(RegistryPass(Registrable(s, c), c), Pass(Claimers(s, c), c), c)
  {
    hide Agree, Working, IsRegistryTarget, IsClaimer;
    if s == [] {
      NothingAgrees(c);
    } else {
      var n := |s| - 1;
      var before, t := s[..n], s[n];
      assert s == before + [t];
      RegistryIsGreedy(before, c);
      Snoc(before, t, c);
      ClaimersAreRegistrable(t, c);
      ClaimersNamed(before, c);
      PassCovers(Claimers(before, c), c);
      hide Claimers, Registrable;
      PassSnoc(Registrable(before, c), t, c);
      PassSnoc(Claimers(before, c), t, c);
      if IsRegistryTarget(t, c) {
        RegisterAgrees(RegistryPass(Registrable(before, c), c), Pass(Claimers(before, c), c), t, c);
      }
    }
  }

  lemma ClaimersAreRegistrable(t: Target, c: Config)
    ensures IsClaimer(t, c) ==> IsRegistryTarget(t, c)
    ensures IsWorkingTarget(t, c) && t.provider != "" ==> IsClaimer(t, c)
  {
  }

  lemma NothingAgrees(c: Config)
    ensures Agree(RegistryPass(Registrable([], c), c), Pass(Claimers([], c), c), c)
  {
  }

  // ---------- when enabled means selected ----------

  /** The n-th target's row holds its keys. */
  predicate HoldsAt(s: seq<Target>, n: nat, c: Config)
    requires n < |s|
  {
    IsClaimer(s[n], c) && !OverlapsAny(Greedy(Claimers(s[..n], c), c), s[n], c)
  }

  /** The n-th target is selected by de-duplicating the working targets, all of which are named. */
  predicate SelectedAt(s: seq<Target>, n: nat, c: Config)
    requires n < |s|
  {
    IsWorkingTarget(s[n], c) && !OverlapsAny(Greedy(Working(s[..n], c), c), s[n], c)
  }

  /** The i-th target does not work, but its row holds a key of the j-th, which is selected. */
  predicate Hides(s: seq<Target>, i: nat, j: nat, c: Config)
    requires i < j < |s|
  {
    !IsWorkingTarget(s[i], c) && HoldsAt(s, i, c) && SelectedAt(s, j, c) && Overlap(s[i], s[j], c)
  }

  ghost predicate NothingHidden(s: seq<Target>, c: Config) {
    forall i: nat, j: nat :: i < j < |s| ==> !Hides(s, i, j, c)
  }

  lemma GreedyNext(s: seq<Target>, t: Target, c: Config)
    requires NoneBlank(s)
    ensures Greedy(s + [t], c) == Greedy(s, c) + if OverlapsAny(Greedy(s, c), t, c) then [] else [t]
  {
    PassCovers(s, c);
    StepKeeps(Pass(s, c), t, c);
    PassSnoc(s, t, c);
  }

  /** What the next target adds to what the rows hold. */
  lemma NextHeld(s: seq<Target>, n: nat, c: Config)
    requires n < |s|
    ensures Greedy(Claimers(s[..n + 1], c), c) ==
      Greedy(Claimers(s[..n], c), c) + if HoldsAt(s, n, c) then [s[n]] else []
  {
    ClaimersNamed(s[..n], c);
    hide IsWorkingTarget, IsClaimer, OverlapsAny;
    assert s[..n + 1] == s[..n] + [s[n]];
    Snoc(s[..n], s[n], c);
    GreedyNext(Claimers(s[..n], c), s[n], c);
  }

  /** What the next target adds to what is selected. */
  lemma NextSelected(s: seq<Target>, n: nat, c: Config)
    requires n < |s| && NoneBlank(Working(s, c))
    ensures Greedy(Working(s[..n + 1], c), c) ==
      Greedy(Working(s[..n], c), c) + if SelectedAt(s, n, c) then [s[n]] else []
    ensures IsWorkingTarget(s[n], c) ==> IsClaimer(s[n], c)
  {
    WorkingPrefix(s, n, c);
    WorkingPrefix(s, n + 1, c);
    hide IsWorkingTarget, IsClaimer, OverlapsAny;
    assert s[..n + 1] == s[..n] + [s[n]];
    Snoc(s[..n], s[n], c);
    GreedyNext(Working(s[..n], c), s[n], c);
    ClaimersAreRegistrable(s[n], c);
    if IsWorkingTarget(s[n], c) {
      var w := Working(s[..n + 1], c);
      assert w[|w| - 1] == s[n];
    }
  }

  lemma {:induction false} WorkingPrefix(s: seq<Target>, n: nat, c: Config)
    requires n <= |s| && NoneBlank(Working(s, c))
    ensures NoneBlank(Working(s[..n], c))
    decreases |s|
  {
    hide IsWorkingTarget;
    if n < |s| {
      var m := |s| - 1;
      assert s == s[..m] + [s[m]] && s[..m][..n] == s[..n];
      Snoc(s[..m], s[m], c);
      var w := Working(s[..m], c);
      assert forall i :: 0 <= i < |w| ==> Working(s, c)[i] == w[i];
      WorkingPrefix(s[..m], n, c);
    } else {
      assert s[..n] == s;
    }
  }

  /** Every kept claimer holds its keys at some place. */
  lemma {:induction false} HeldPlace(s: seq<Target>, n: nat, c: Config)
    requires n <= |s|
    ensures forall x :: x in Greedy(Claimers(s[..n], c), c) <==>
      exists i: nat :: i < n && s[i] == x && HoldsAt(s, i, c)
  {
    hide HoldsAt, Claimers, Greedy;
    if n == 0 {
      assert s[..0] == [];
      NothingKept(c);
    } else {
      HeldPlace(s, n - 1, c);
      NextHeld(s, n - 1, c);
    }
  }

  /** Everything selected is selected at some place. */
  lemma {:induction false} SelectedPlace(s: seq<Target>, n: nat, c: Config)
    requires n <= |s| && NoneBlank(Working(s, c))
    ensures forall x :: x in Greedy(Working(s[..n], c), c) <==>
      exists i: nat :: i < n && s[i] == x && SelectedAt(s, i, c)
  {
    hide SelectedAt, Working, Greedy;
    if n == 0 {
      assert s[..0] == [];
      NothingKept(c);
    } else {
      SelectedPlace(s, n - 1, c);
      NextSelected(s, n - 1, c);
    }
  }

  lemma NothingKept(c: Config)
    ensures Greedy(Claimers([], c), c) == [] && Greedy(Working([], c), c) == [] && Working([], c) == []
  {
  }

  predicate Among(kept: seq<Target>, t: Target, c: Config) {
    exists x :: x in kept && Overlap(x, t, c)
  }

  lemma AmongIsAny(kept: seq<Target>, t: Target, c: Config)
    ensures OverlapsAny(kept, t, c) <==> Among(kept, t, c)
  {
  }

  lemma WorkingKeeps(s: seq<Target>, c: Config)
    ensures forall x :: x in Working(s, c) <==> x in s && IsWorkingTarget(x, c)
  {
    FilterKeeps(s, (t: Target) => IsWorkingTarget(t, c));
  }

  /** Without anything hidden before it, a working target's row holds its keys exactly when it is selected. */
  lemma HeldIsSelected(s: seq<Target>, n: nat, c: Config)
    requires n < |s| && NoneBlank(Working(s, c)) && IsWorkingTarget(s[n], c)
    requires Working(Greedy(Claimers(s[..n], c), c), c) == Greedy(Working(s[..n], c), c)
    requires forall i: nat :: i < n ==> !Hides(s, i, n, c)
    ensures HoldsAt(s, n, c) <==> SelectedAt(s, n, c)
  {
    hide Overlap, Claimers, Working, Greedy, IsWorkingTarget, IsClaimer, OverlapsAny;
    var kept, selected := Greedy(Claimers(s[..n], c), c), Greedy(Working(s[..n], c), c);
    NextSelected(s, n, c);
    WorkingKeeps(kept, c);
    AmongIsAny(kept, s[n], c);
    AmongIsAny(selected, s[n], c);
    HeldPlace(s, n, c);
    hide HoldsAt;
    forall x | SelectedAt(s, n, c) && x in kept ensures !Overlap(x, s[n], c) {
      var i: nat :| i < n && s[i] == x && HoldsAt(s, i, c);
      assert !Hides(s, i, n, c);
      assert IsWorkingTarget(x, c) ==> x in selected;
    }
    NoneAmong(s, n, c);
  }

  lemma NoneAmong(s: seq<Target>, n: nat, c: Config)
    requires n < |s|
    ensures HoldsAt(s, n, c) <==> IsClaimer(s[n], c) && !Among(Greedy(Claimers(s[..n], c), c), s[n], c)
  {
  }

  lemma {:induction false} NothingHiddenSame(s: seq<Target>, n: nat, c: Config)
    requires n <= |s| && NoneBlank(Working(s, c))
    requires forall i: nat, j: nat :: i < j < n ==> !Hides(s, i, j, c)
    ensures Working(Greedy(Claimers(s[..n], c), c), c) == Greedy(Working(s[..n], c), c)
  {
    hide Hides, HoldsAt, SelectedAt, Claimers, Working, Greedy, IsWorkingTarget;
    if n == 0 {
      assert s[..0] == [];
      NothingKept(c);
    } else {
      NothingHiddenSame(s, n - 1, c);
      NextHeld(s, n - 1, c);
      NextSelected(s, n - 1, c);
      var kept := Greedy(Claimers(s[..n - 1], c), c);
      assert kept + [] == kept;
      Snoc(kept, s[n - 1], c);
      if IsWorkingTarget(s[n - 1], c) { HeldIsSelected(s, n - 1, c); }
      SelectedWorks(s, n - 1, c);
    }
  }

  lemma SelectedWorks(s: seq<Target>, n: nat, c: Config)
    requires n < |s|
    ensures SelectedAt(s, n, c) ==> IsWorkingTarget(s[n], c)
    ensures HoldsAt(s, n, c) ==> IsClaimer(s[n], c)
  {
  }

  /** Two different targets whose rows hold their keys share none. */
  lemma HeldDisjoint(s: seq<Target>, i: nat, j: nat, c: Config)
    requires i < j < |s| && HoldsAt(s, i, c) && HoldsAt(s, j, c)
    ensures !Overlap(s[i], s[j], c)
  {
    hide Overlap, Claimers, Working, Greedy;
    var kept := Greedy(Claimers(s[..j], c), c);
    HeldPlace(s, j, c);
    assert s[i] in kept;
    AmongIsAny(kept, s[j], c);
  }

  lemma SelectedDisjoint(s: seq<Target>, i: nat, j: nat, c: Config)
    requires i < j < |s| && SelectedAt(s, i, c) && SelectedAt(s, j, c) && NoneBlank(Working(s, c))
    ensures !Overlap(s[i], s[j], c)
  {
    hide Overlap, Claimers, Working, Greedy;
    var selected := Greedy(Working(s[..j], c), c);
    SelectedPlace(s, j, c);
    assert s[i] in selected;
    AmongIsAny(selected, s[j], c);
  }

  /** A hidden target is selected and its row, wherever the same target stands in the list, is not enabled. */
  lemma HiddenDiffers(s: seq<Target>, i: nat, j: nat, c: Config)
    requires i < j < |s| && NoneBlank(Working(s, c)) && Hides(s, i, j, c)
    ensures s[j] in Greedy(Working(s, c), c) && s[j] !in Greedy(Claimers(s, c), c)
  {
    hide Overlap, Claimers, Working, Greedy, HoldsAt, SelectedAt;
    assert s[..|s|] == s;
    HeldPlace(s, |s|, c);
    SelectedPlace(s, |s|, c);
    SelectedWorks(s, j, c);
    if s[j] in Greedy(Claimers(s, c), c) {
      var k: nat :| k < |s| && s[k] == s[j] && HoldsAt(s, k, c);
      OverlapIsSymmetric(s[i], s[j], c);
      if i < k { HeldDisjoint(s, i, k, c); } else { HeldDisjoint(s, k, i, c); }
    }
  }

  lemma OverlapIsSymmetric(a: Target, b: Target, c: Config)
    ensures Overlap(a, b, c) <==> Overlap(b, a, c)
  {
  }

  lemma InPreference(all: seq<Target>, c: Config)
    ensures var s := Sort(all, PreferredTo);
            && Deduped(Working(all, c), c) == Greedy(Working(s, c), c)
            && EnabledTargets(Registered(Registrable(all, c), c)) == Working(Greedy(Claimers(s, c), c), c)
            && (NoneBlank(Working(all, c)) ==> NoneBlank(Working(s, c)))
  {
    hide PreferredTo, IsWorkingTarget, IsRegistryTarget, IsClaimer, Sort;
    var s := Sort(all, PreferredTo);
    PreferenceOrder();
    SortCommutesWithFilter(all, PreferredTo, (t: Target) => IsWorkingTarget(t, c));
    SortCommutesWithFilter(all, PreferredTo, (t: Target) => IsRegistryTarget(t, c));
    RegistryIsGreedy(s, c);
    SortPermutes(Working(all, c), PreferredTo);
    if NoneBlank(Working(all, c)) {
      forall i | 0 <= i < |Working(s, c)| ensures Working(s, c)[i].provider != "" {
        assert Working(s, c)[i] in Working(all, c);
      }
    }
  }

  /**
    When the working targets are named, the enabled rows name exactly the selected targets, in the same order, unless
    a row that does not work holds a key of a selected target; and then they do not.
  */
  lemma EnabledAreSelected(all: seq<Target>, c: Config)
    requires NoneBlank(Working(all, c))
    ensures EnabledTargets(Registered(Registrable(all, c), c)) == Deduped(Working(all, c), c) <==>
      NothingHidden(Sort(all, PreferredTo), c)
  {
    hide Hides, Claimers, Working, Greedy, Sort, PreferredTo, Registered, Registrable, Deduped, IsWorkingTarget;
    var s := Sort(all, PreferredTo);
    InPreference(all, c);
    assert s[..|s|] == s;
    if NothingHidden(s, c) {
      NothingHiddenSame(s, |s|, c);
    } else {
      var i: nat, j: nat :| i < j < |s| && Hides(s, i, j, c);
      HiddenDiffers(s, i, j, c);
      WorkingKeeps(Greedy(Claimers(s, c), c), c);
    }
  }

  /** So they are the same when no claimer that does not work overlaps a working target, whatever keys they have. */
  lemma NoOverlapNothingHidden(all: seq<Target>, c: Config)
    requires NoneBlank(Working(all, c))
    requires forall t, u :: t in all && u in all && IsClaimer(t, c) && !IsWorkingTarget(t, c) ==>
      IsWorkingTarget(u, c) ==> !Overlap(t, u, c)
    ensures EnabledTargets(Registered(Registrable(all, c), c)) == Deduped(Working(all, c), c)
  {
    hide Overlap, Claimers, Working, Greedy, Sort, PreferredTo, Registered, Registrable, Deduped;
    var s := Sort(all, PreferredTo);
    SortPermutes(all, PreferredTo);
    forall i: nat, j: nat | i < j < |s| ensures !Hides(s, i, j, c) {
      assert s[i] in all && s[j] in all;
      SelectedWorks(s, i, c);
      SelectedWorks(s, j, c);
    }
    EnabledAreSelected(all, c);
  }

  // ---------- why an enabled row is not selected ----------

  /**
    An enabled row that is not selected overlaps a selected target before it, whose own row is disabled because an
    earlier row holds one of its keys; and that row is not selected either.
  */
  lemma Diagnosis(s: seq<Target>, n: nat, c: Config) returns (u: nat, v: nat)
    requires n < |s| && NoneBlank(Working(s, c))
    requires IsWorkingTarget(s[n], c) && HoldsAt(s, n, c) && !SelectedAt(s, n, c)
    ensures v < u < n
    ensures SelectedAt(s, u, c) && Overlap(s[u], s[n], c) && !HoldsAt(s, u, c)
    ensures HoldsAt(s, v, c) && Overlap(s[v], s[u], c) && !SelectedAt(s, v, c)
  {
    hide Overlap, Claimers, Working, Greedy;
    var selected := Greedy(Working(s[..n], c), c);
    AmongIsAny(selected, s[n], c);
    SelectedPlace(s, n, c);
    var x :| x in selected && Overlap(x, s[n], c);
    u :| u < n && s[u] == x && SelectedAt(s, u, c);
    if HoldsAt(s, u, c) { HeldDisjoint(s, u, n, c); }
    var kept := Greedy(Claimers(s[..u], c), c);
    NextSelected(s, u, c);
    AmongIsAny(kept, s[u], c);
    HeldPlace(s, u, c);
    var y :| y in kept && Overlap(y, s[u], c);
    v :| v < u && s[v] == y && HoldsAt(s, v, c);
    if SelectedAt(s, v, c) { SelectedDisjoint(s, v, u, c); }
  }

  /** At the root there is a row that does not work and holds a key of a selected target. */
  lemma {:induction false} RootCause(s: seq<Target>, n: nat, c: Config) returns (i: nat, j: nat)
    requires n < |s| && NoneBlank(Working(s, c))
    requires IsWorkingTarget(s[n], c) && HoldsAt(s, n, c) && !SelectedAt(s, n, c)
    ensures i < j < n && Hides(s, i, j, c)
  {
    hide HoldsAt, SelectedAt, Overlap;
    j, i := Diagnosis(s, n, c);
    if IsWorkingTarget(s[i], c) { i, j := RootCause(s, i, c); }
  }

  // ---------- one scope key each ----------

  ghost predicate OneKey(t: Target, c: Config) {
    |ScopeKeys(t, c)| <= 1
  }

  lemma OneKeyShared(a: Target, b: Target, d: Target, c: Config)
    requires OneKey(b, c) && Overlap(a, b, c) && Overlap(b, d, c)
    ensures Overlap(a, d, c)
  {
  }

  /** With one key each, a claimer that holds its key is the first to have it. */
  lemma OneKeyFirst(s: seq<Target>, i: nat, n: nat, c: Config)
    requires i < n < |s| && HoldsAt(s, n, c) && IsClaimer(s[i], c) && OneKey(s[i], c)
    ensures !Overlap(s[i], s[n], c)
  {
    hide Overlap, Claimers, Greedy, OneKey;
    if Overlap(s[i], s[n], c) {
      if HoldsAt(s, i, c) {
        HeldDisjoint(s, i, n, c);
      } else {
        var kept := Greedy(Claimers(s[..i], c), c);
        AmongIsAny(kept, s[i], c);
        HeldPlace(s, i, c);
        var x :| x in kept && Overlap(x, s[i], c);
        var v: nat :| v < i && s[v] == x && HoldsAt(s, v, c);
        OneKeyShared(s[v], s[i], s[n], c);
        HeldDisjoint(s, v, n, c);
      }
    }
  }

  /** Whoever overlaps no named target before it is selected. */
  lemma FirstIsKept(w: seq<Target>, t: Target, c: Config)
    requires forall x :: x in w && x.provider != "" ==> !Overlap(x, t, c)
    ensures Greedy(w + [t], c) == Greedy(w, c) + [t]
  {
    hide Overlap, ScopeKeys, Owner;
    PassHeld(w, c);
    OwnerDecides(Pass(w, c), t, c);
    PassSnoc(w, t, c);
    GreedyKeeps(w, c);
  }

  lemma {:induction false} GreedyKeeps(w: seq<Target>, c: Config)
    ensures forall x :: x in Greedy(w, c) ==> x in w
  {
    hide ScopeKeys, Owner;
    if w != [] {
      var n := |w| - 1;
      assert w == w[..n] + [w[n]];
      GreedyKeeps(w[..n], c);
    }
  }

  lemma {:induction false} WorkingGrows(s: seq<Target>, n: nat, c: Config)
    requires n <= |s|
    ensures Greedy(Working(s[..n], c), c) <= Greedy(Working(s, c), c)
    decreases |s|
  {
    hide IsWorkingTarget;
    if n < |s| {
      var m := |s| - 1;
      assert s == s[..m] + [s[m]] && s[..m][..n] == s[..n];
      WorkingGrows(s[..m], n, c);
      Snoc(s[..m], s[m], c);
      var w := Working(s, c);
      hide Working;
      if IsWorkingTarget(s[m], c) { PassSnoc(Working(s[..m], c), s[m], c); }
    } else {
      assert s[..n] == s;
    }
  }

  lemma OneKeySelected(s: seq<Target>, n: nat, c: Config)
    requires n < |s| && IsWorkingTarget(s[n], c) && HoldsAt(s, n, c)
    requires forall t :: t in s ==> OneKey(t, c)
    ensures s[n] in Greedy(Working(s, c), c)
  {
    hide Overlap, Claimers, Working, Greedy, OneKey, IsWorkingTarget, HoldsAt;
    var w := Working(s[..n], c);
    WorkingKeeps(s[..n], c);
    forall x | x in w && x.provider != "" ensures !Overlap(x, s[n], c) {
      ClaimersAreRegistrable(x, c);
      var i :| 0 <= i < n && s[..n][i] == x;
      OneKeyFirst(s, i, n, c);
    }
    FirstIsKept(w, s[n], c);
    assert s[..n + 1] == s[..n] + [s[n]];
    Snoc(s[..n], s[n], c);
    WorkingGrows(s, n + 1, c);
    var kept := Greedy(Working(s[..n + 1], c), c);
    assert kept[|kept| - 1] == s[n];
  }

  lemma {:induction false} EnabledAmong(rows: seq<Row>, i: nat)
    requires i < |rows| && rows[i].enabled
    ensures rows[i].target in EnabledTargets(rows)
  {
    if i < |rows| - 1 { EnabledAmong(rows[..|rows| - 1], i); }
  }

  /** When every target has at most one scope key, every enabled row names a selected target, named or not. */
  lemma EnabledIsSelected(all: seq<Target>, c: Config, i: nat)
    requires forall t :: t in all ==> OneKey(t, c)
    requires i < |Registered(Registrable(all, c), c)|
    ensures var row := Registered(Registrable(all, c), c)[i];
            row.enabled ==> row.target in Deduped(Working(all, c), c)
  {
    hide Claimers, Working, Greedy, OneKey, Sort, PreferredTo, Registered, Registrable, Deduped, IsWorkingTarget;
    var s, rows := Sort(all, PreferredTo), Registered(Registrable(all, c), c);
    SortPermutes(all, PreferredTo);
    InPreference(all, c);
    if rows[i].enabled {
      EnabledAmong(rows, i);
      WorkingKeeps(Greedy(Claimers(s, c), c), c);
      assert s[..|s|] == s;
      HeldPlace(s, |s|, c);
      var n: nat :| n < |s| && s[n] == rows[i].target && HoldsAt(s, n, c);
      OneKeySelected(s, n, c);
    }
  }

  // ---------- several scope keys ----------

  /** A blocked row hides a working one, whose other key is then claimed by a later row. */
  lemma BlockedRowHidesAClaim(blocked: Target, hidden: Target, later: Target, c: Config)
    requires IsClaimer(blocked, c) && blocked.status in DISABLED
    requires IsWorkingTarget(hidden, c) && IsWorkingTarget(later, c)
    requires hidden.provider != "" && later.provider != ""
    requires PreferredTo(blocked, hidden) && PreferredTo(hidden, later)
    requires Overlap(blocked, hidden, c) && Overlap(hidden, later, c) && !Overlap(blocked, later, c)
    ensures var all := [blocked, hidden, later];
            && EnabledTargets(Registered(Registrable(all, c), c)) == [later]
            && Deduped(Working(all, c), c) == [hidden]
  {
    hide ScopeKeys, Overlap, ExplicitDuplicateReason, PreferredTo, StatusRank, Sort, Deduped, Registered, Greedy;
    assert blocked.provider != "";
    hide EnabledTargets, Registrable, IsRegistryTarget;
    var all := [blocked, hidden, later];
    PreferenceOrder();
    SortedStays(all, PreferredTo);
    InPreference(all, c);
    ClaimersAreRegistrable(hidden, c);
    ClaimersAreRegistrable(later, c);
    assert !IsWorkingTarget(blocked, c);
    hide IsWorkingTarget, IsClaimer;
    ThreeTargets(blocked, hidden, later, c);
    assert [] + [blocked] == [blocked] && [] + [hidden] == [hidden] && [] + [later] == [later];
    assert [blocked] + [hidden] == [blocked, hidden] && [blocked, hidden] + [later] == all;
    assert [hidden] + [later] == [hidden, later] && [blocked] + [later] == [blocked, later];
    OnlyFirst(blocked, hidden, later, c);
    OnlyHidden(hidden, later, c);
    Snoc([], blocked, c);
    Snoc([blocked], later, c);
  }

  lemma ThreeTargets(blocked: Target, hidden: Target, later: Target, c: Config)
    requires IsClaimer(blocked, c) && IsClaimer(hidden, c) && IsClaimer(later, c)
    requires !IsWorkingTarget(blocked, c) && IsWorkingTarget(hidden, c) && IsWorkingTarget(later, c)
    ensures Claimers([blocked, hidden, later], c) == [blocked, hidden, later]
    ensures Working([blocked, hidden, later], c) == [hidden, later]
  {
    hide IsClaimer, IsWorkingTarget;
    assert [blocked, hidden, later] == (([] + [blocked]) + [hidden]) + [later];
    Snoc([], blocked, c);
    Snoc([] + [blocked], hidden, c);
    Snoc(([] + [blocked]) + [hidden], later, c);
  }

  lemma OnlyFirst(blocked: Target, hidden: Target, later: Target, c: Config)
    requires blocked.provider != "" && hidden.provider != "" && later.provider != ""
    requires Overlap(blocked, hidden, c) && !Overlap(blocked, later, c)
    ensures Greedy([blocked, hidden, later], c) == [blocked, later]
  {
    hide Overlap, Greedy;
    assert [] + [blocked] == [blocked] && [blocked] + [hidden] == [blocked, hidden];
    assert [blocked, hidden] + [later] == [blocked, hidden, later];
    GreedyNext([], blocked, c);
    GreedyNext([blocked], hidden, c);
    GreedyNext([blocked, hidden], later, c);
    NothingGreedy(c);
    assert OverlapsAny([blocked], hidden, c) by { assert Overlap([blocked][0], hidden, c); }
  }

  lemma OnlyHidden(hidden: Target, later: Target, c: Config)
    requires hidden.provider != "" && later.provider != "" && Overlap(hidden, later, c)
    ensures Greedy([hidden, later], c) == [hidden]
  {
    hide Overlap, Greedy;
    assert [] + [hidden] == [hidden] && [hidden] + [later] == [hidden, later];
    GreedyNext([], hidden, c);
    GreedyNext([hidden], later, c);
    NothingGreedy(c);
    assert OverlapsAny([hidden], later, c) by { assert Overlap([hidden][0], later, c); }
  }

  lemma NothingGreedy(c: Config)
    ensures Greedy([], c) == []
  {
  }

  /** Three such targets. */
  lemma EnabledButNotSelected() returns (blocked: Target, hidden: Target, later: Target, c: Config)
    ensures var all := [blocked, hidden, later];
            && EnabledTargets(Registered(Registrable(all, c), c)) == [later]
            && Deduped(Working(all, c), c) == [hidden]
  {
    hide Registered, Registrable, Working, Deduped, EnabledTargets;
    var same := (s: string) => s;
    c := Config(same, same, same, {}, s => false, s => false);
    blocked := Target("B", 1, "blocked", "", "", ["y"], "y", "", "", "", "");
    hidden := Target("H", 2, "ready", "", "", ["y", "x"], "y", "", "", "", "");
    later := Target("L", 3, "ready", "", "", ["x"], "x", "", "", "", "");
    var x, y := Key("x"), Key("y");
    assert ["y", "x"][1..] == ["x"] && ["x"][1..] == [] && ["y"][1..] == [];
    assert UrlKeys(["y"], c) == [y] && UrlKeys(["x"], c) == [x] && UrlKeys(["y", "x"], c) == [y, x];
    assert y in ScopeKeys(blocked, c) && y in ScopeKeys(hidden, c);
    assert x in ScopeKeys(hidden, c) && x in ScopeKeys(later, c);
    assert forall k :: k in ScopeKeys(blocked, c) ==> k == y;
    assert forall k :: k in ScopeKeys(later, c) ==> k == x;
    BlockedRowHidesAClaim(blocked, hidden, later, c);
  }

  /** Of five targets, each overlaps the next one only. */
  predicate IsChain(t: seq<Target>, c: Config) {
    |t| == 5 && forall i, j :: 0 <= i < j < 5 ==> (Overlap(t[i], t[j], c) <==> j == i + 1)
  }

  lemma EveryOther(t: seq<Target>, c: Config)
    requires IsChain(t, c) && NoneBlank(t)
    ensures Greedy([t[0], t[1], t[2], t[3], t[4]], c) == [t[0], t[2], t[4]]
    ensures Greedy([t[1], t[2], t[3], t[4]], c) == [t[1], t[3]]
  {
    hide Overlap, Greedy;
    OnlyFirst(t[0], t[1], t[2], c);
    OnlyFirst(t[1], t[2], t[3], c);
    var a, b := [t[0], t[1], t[2]], [t[0], t[1], t[2], t[3]];
    GreedyNext(a, t[3], c);
    GreedyNext(b, t[4], c);
    assert OverlapsAny([t[0], t[2]], t[3], c) by { assert Overlap([t[0], t[2]][1], t[3], c); }
    assert a + [t[3]] == b && b + [t[4]] == [t[0], t[1], t[2], t[3], t[4]];
    assert [t[0], t[2]] + [t[4]] == [t[0], t[2], t[4]];
    GreedyNext([t[1], t[2], t[3]], t[4], c);
    assert OverlapsAny([t[1], t[3]], t[4], c) by { assert Overlap([t[1], t[3]][1], t[4], c); }
    assert [t[1], t[2], t[3]] + [t[4]] == [t[1], t[2], t[3], t[4]];
  }

  lemma FirstDoesNotWork(t: seq<Target>, c: Config)
    requires |t| == 5 && (forall i :: 0 <= i < 5 ==> IsClaimer(t[i], c))
    requires forall i :: 0 <= i < 5 ==> (IsWorkingTarget(t[i], c) <==> 0 < i)
    ensures Claimers(t, c) == t && Working(t, c) == t[1..]
  {
    hide IsClaimer, IsWorkingTarget;
    ThreeTargets(t[0], t[1], t[2], c);
    Snoc([t[0], t[1], t[2]], t[3], c);
    Snoc([t[0], t[1], t[2]] + [t[3]], t[4], c);
    assert t == [t[0], t[1], t[2]] + [t[3]] + [t[4]];
  }

  lemma LastAndThird(t: seq<Target>, c: Config)
    requires |t| == 5 && forall i :: 0 <= i < 5 ==> (IsWorkingTarget(t[i], c) <==> 0 < i)
    ensures Working([t[0], t[2], t[4]], c) == [t[2], t[4]]
  {
    hide IsWorkingTarget;
    assert [t[0], t[2], t[4]] == (([] + [t[0]]) + [t[2]]) + [t[4]];
    Snoc([], t[0], c);
    Snoc([] + [t[0]], t[2], c);
    Snoc(([] + [t[0]]) + [t[2]], t[4], c);
  }

  /**
    In a chain of five, of which only the first does not work, the third and the last row are enabled, and the second
    and the fourth target are selected. The last row is enabled and not selected because the third row holds a key of
    the fourth; so the row that stands in the way may itself be enabled.
  */
  lemma ChainOfFive(t: seq<Target>, c: Config)
    requires IsChain(t, c) && NoneBlank(t) && IsSorted(t, PreferredTo)
    requires IsClaimer(t[0], c) && forall i :: 0 <= i < 5 ==> (IsWorkingTarget(t[i], c) <==> 0 < i)
    ensures EnabledTargets(Registered(Registrable(t, c), c)) == [t[2], t[4]]
    ensures Deduped(Working(t, c), c) == [t[1], t[3]]
  {
    hide Overlap, PreferredTo, Sort, Deduped, Registered, Registrable, EnabledTargets, Greedy;
    forall i | 0 <= i < 5 ensures IsClaimer(t[i], c) { ClaimersAreRegistrable(t[i], c); }
    hide IsClaimer, IsWorkingTarget;
    PreferenceOrder();
    SortedStays(t, PreferredTo);
    InPreference(t, c);
    FirstDoesNotWork(t, c);
    EveryOther(t, c);
    assert t == [t[0], t[1], t[2], t[3], t[4]] && t[1..] == [t[1], t[2], t[3], t[4]];
    LastAndThird(t, c);
  }

  function Chained(priority: int, status: string, x: string, y: string): Target {
    Target("P", priority, status, "", "", [x, y], x, "", "", "", "")
  }

  lemma KeysOf(t: Target, c: Config, x: string, y: string)
    requires t.crawlScope == "" && t.urls == [x, y] && x != y && x != "" && y != ""
    requires c.normalizeUrl(x) == x && c.normalizeUrl(y) == y
    ensures forall k :: k in ScopeKeys(t, c) <==> k == Key(x) || k == Key(y)
  {
    assert [x, y][1..] == [y] && [y][1..] == [];
    assert UrlKeys([y], c) == [Key(y)];
    assert UrlKeys([x, y], c) == [Key(x)] + UrlKeys([y], c);
  }

  lemma ChainOverlaps(t: seq<Target>, c: Config)
    requires |t| == 5
    requires forall k :: k in ScopeKeys(t[0], c) <==> k == Key("o") || k == Key("a")
    requires forall k :: k in ScopeKeys(t[1], c) <==> k == Key("a") || k == Key("b")
    requires forall k :: k in ScopeKeys(t[2], c) <==> k == Key("b") || k == Key("d")
    requires forall k :: k in ScopeKeys(t[3], c) <==> k == Key("d") || k == Key("e")
    requires forall k :: k in ScopeKeys(t[4], c) <==> k == Key("e") || k == Key("f")
    ensures IsChain(t, c)
  {
    hide ScopeKeys;
    assert Key("a") in ScopeKeys(t[0], c) && Key("b") in ScopeKeys(t[1], c);
    assert Key("d") in ScopeKeys(t[2], c) && Key("e") in ScopeKeys(t[3], c);
  }

  /** Five such targets. */
  lemma ChainExists() returns (t: seq<Target>, c: Config)
    ensures |t| == 5
    ensures EnabledTargets(Registered(Registrable(t, c), c)) == [t[2], t[4]]
    ensures Deduped(Working(t, c), c) == [t[1], t[3]]
  {
    hide Registered, Registrable, Working, Deduped, EnabledTargets, IsChain, ScopeKeys;
    var same := (s: string) => s;
    c := Config(same, same, same, {}, s => false, s => false);
    t := [Chained(0, "blocked", "o", "a"), Chained(1, "ready", "a", "b"), Chained(2, "ready", "b", "d"),
          Chained(3, "ready", "d", "e"), Chained(4, "ready", "e", "f")];
    KeysOf(t[0], c, "o", "a");
    KeysOf(t[1], c, "a", "b");
    KeysOf(t[2], c, "b", "d");
    KeysOf(t[3], c, "d", "e");
    KeysOf(t[4], c, "e", "f");
    ChainOverlaps(t, c);
    ChainOfFive(t, c);
  }
}
