/**
  Crawl targets of the generated YAML crawlers: greedy de-duplication by scope keys, and the registry that
  is built from the same target list.
*/
module Targets {
  import opened Prelude
  import opened Ordering

  /** A target row, after clean_text has been applied to its text fields. */
  datatype Target = Target(
    provider: string,
    priority: int,            // int(priority or 9)
    status: string,           // crawler_status or status, in lower case
    source: string,
    crawlScope: string,       // crawl_scope or collection_scope
    urls: seq<string>,        // url, list_url, base_url, then list_urls
    url: string,              // target_url: the first of url, list_url, base_url
    duplicateOf: string,
    blockedReason: string,
    errorKind: string,        // last_quality.error_kind
    collectionType: string)

  /** The text functions and constant tables the code leans on; nothing below depends on what they are. */
  datatype Config = Config(
    lower: string -> string,
    upper: string -> string,
    normalizeUrl: string -> string,       // normalized_duplicate_url
    dedicated: set<string>,               // DEDICATED_PROVIDER_NAMES
    excludedDomain: string -> bool,       // url_has_excluded_domain
    excludedPath: string -> bool)         // url_has_excluded_path

  const WORKING: set<string> := {"ready", "partial", "candidate", "generated"}
  const DISABLED: set<string> := {"blocked", "needs_discovery", "needs_parser"}
  const REGISTERED: set<string> := WORKING + DISABLED

  // What a target collects, in a form that can be compared.
  datatype Key = Key(text: string)

  /** The non-empty keys of s in order of first appearance, as dict.fromkeys keeps them. */
  function Distinct(s: seq<Key>, seen: set<Key> := {}): (r: seq<Key>)
    ensures NoDuplicates(r)
    ensures forall k :: k in r <==> k in s && k.text != "" && k !in seen
  {
    if s == [] then []
    else if s[0].text == "" || s[0] in seen then Distinct(s[1..], seen)
    else [s[0]] + Distinct(s[1..], seen + {s[0]})
  }

  function ScopeKeys(t: Target, c: Config): (keys: seq<Key>)
    ensures NoDuplicates(keys)
  {
    if t.crawlScope != "" then [Key("scope:" + c.lower(t.crawlScope))]
    else Distinct(UrlKeys(t.urls, c))
  }

  function UrlKeys(urls: seq<string>, c: Config): seq<Key> {
    if urls == [] then []
    else [Key(if urls[0] == "" then "" else c.normalizeUrl(urls[0]))] + UrlKeys(urls[1..], c)
  }

  function ExplicitDuplicateReason(t: Target, c: Config): string {
    if t.duplicateOf != "" then "duplicate_of:" + t.duplicateOf
    else if "duplicate_of:" <= c.lower(t.blockedReason) && t.blockedReason != "" then t.blockedReason
    else if "duplicate_of:" <= c.lower(t.errorKind) && t.errorKind != "" then t.errorKind
    else if c.lower(t.collectionType) == "duplicate" then "duplicate_collection_type"
    else ""
  }

  predicate IsWorkingTarget(t: Target, c: Config) {
    && c.upper(t.provider) !in c.dedicated
    && ExplicitDuplicateReason(t, c) == ""
    && t.url != ""
    && !c.excludedDomain(t.url)
    && !c.excludedPath(t.url)
    && t.status in WORKING
  }

  predicate IsRegistryTarget(t: Target, c: Config) {
    && c.upper(t.provider) !in c.dedicated
    && t.provider != "" && t.url != ""
    && !c.excludedDomain(t.url)
    && t.status in REGISTERED
  }

  function StatusRank(status: string): int {
    if status == "ready" then 0
    else if status == "partial" then 1
    else if status == "generated" then 2
    else if status == "candidate" then 3
    else if status == "needs_parser" then 4
    else if status == "needs_discovery" then 5
    else if status == "blocked" then 6
    else 9
  }

  /** target_preference_key(a) <= target_preference_key(b), as Python compares tuples. */
  predicate PreferredTo(a: Target, b: Target) {
    if a.priority != b.priority then a.priority < b.priority
    else if StatusRank(a.status) != StatusRank(b.status) then StatusRank(a.status) < StatusRank(b.status)
    else if a.source != b.source then StringLe(a.source, b.source)
    else StringLe(a.provider, b.provider)
  }

  lemma PreferenceOrder()
    ensures TotalPreorder(PreferredTo)
  {
    forall a: Target, b: Target ensures PreferredTo(a, b) || PreferredTo(b, a) {
      StringLeTotal(a.source, b.source);
      StringLeTotal(a.provider, b.provider);
    }
    forall a: Target, b: Target, d: Target | PreferredTo(a, b) && PreferredTo(b, d) ensures PreferredTo(a, d) {
      PreferenceTransitive(a, b, d);
    }
  }

  lemma PreferenceTransitive(a: Target, b: Target, d: Target)
    requires PreferredTo(a, b) && PreferredTo(b, d)
    ensures PreferredTo(a, d)
  {
    StringLeTotal(a.source, b.source);
    StringLeTotal(b.source, d.source);
    if StringLe(a.source, b.source) && StringLe(b.source, d.source) {
      StringLeTransitive(a.source, b.source, d.source);
      StringLeTotal(a.source, d.source);
    }
    if StringLe(a.provider, b.provider) && StringLe(b.provider, d.provider) {
      StringLeTransitive(a.provider, b.provider, d.provider);
    }
  }

  /** next((seen[key] for key in keys if key in seen), "") */
  function Owner(keys: seq<Key>, seen: map<Key, string>): string {
    if keys == [] then ""
    else if keys[0] in seen then seen[keys[0]]
    else Owner(keys[1..], seen)
  }

  function Claim(keys: seq<Key>, seen: map<Key, string>, provider: string): (r: map<Key, string>)
    ensures r.Keys == seen.Keys + ToSet(keys)
    ensures forall k :: k in r ==> r[k] == if k in keys then provider else seen[k]
  {
    if keys == [] then seen
    else
      assert forall k :: k in keys <==> k == keys[0] || k in keys[1..];
      Claim(keys[1..], seen[keys[0] := provider], provider)
  }

  /** What a pass over a list has kept, and which keys are claimed by whom. */
  datatype State = State(kept: seq<Target>, seen: map<Key, string>)

  function Step(s: State, t: Target, c: Config): State {
    var keys := ScopeKeys(t, c);
    if Owner(keys, s.seen) != "" then s else State(s.kept + [t], Claim(keys, s.seen, t.provider))
  }

  function Pass(items: seq<Target>, c: Config): State {
    if items == [] then State([], map[]) else Step(Pass(items[..|items| - 1], c), items[|items| - 1], c)
  }

  function Greedy(items: seq<Target>, c: Config): seq<Target> {
    Pass(items, c).kept
  }

  function Deduped(items: seq<Target>, c: Config): seq<Target> {
    Greedy(Sort(items, PreferredTo), c)
  }

  /** dedupe_targets */
  method DedupeTargets(items: seq<Target>, c: Config) returns (selected: seq<Target>)
    ensures selected == Deduped(items, c)
  {
    hide ScopeKeys, Owner, Claim, PreferredTo, Sort;
    selected := [];
    var seen: map<Key, string> := map[];
    var sorted := Sort(items, PreferredTo);
    var i := 0;
    while i < |sorted|
      invariant 0 <= i <= |sorted|
      invariant State(selected, seen) == Pass(sorted[..i], c)
    {
      assert sorted[..i + 1][..i] == sorted[..i];
      var keys := ScopeKeys(sorted[i], c);
      if Owner(keys, seen) == "" {
        seen := Claim(keys, seen, sorted[i].provider);
        selected := selected + [sorted[i]];
      }
      i := i + 1;
    }
    assert sorted[..i] == sorted;
  }

  predicate Overlap(a: Target, b: Target, c: Config) {
    exists k :: k in ScopeKeys(a, c) && k in ScopeKeys(b, c)
  }

  predicate OverlapsAny(kept: seq<Target>, t: Target, c: Config) {
    exists i :: 0 <= i < |kept| && Overlap(kept[i], t, c)
  }

  ghost predicate PairwiseDisjoint(kept: seq<Target>, c: Config) {
    forall i, j :: 0 <= i < j < |kept| ==> !Overlap(kept[i], kept[j], c)
  }

  predicate NoneBlank(items: seq<Target>) {
    forall i :: 0 <= i < |items| ==> items[i].provider != ""
  }

  /** The claims are the keys of what was kept, each held by a named owner. */
  ghost predicate Covers(s: State, c: Config) {
    && (forall k :: k in s.seen ==> s.seen[k] != "")
    && (forall k :: k in s.seen <==> exists i :: 0 <= i < |s.kept| && k in ScopeKeys(s.kept[i], c))
  }

  lemma {:induction false} OwnerIsSeen(keys: seq<Key>, seen: map<Key, string>)
    requires forall k :: k in seen ==> seen[k] != ""
    ensures Owner(keys, seen) == "" <==> forall k :: k in keys ==> k !in seen
  {
    if keys != [] {
      OwnerIsSeen(keys[1..], seen);
      assert forall k :: k in keys <==> k == keys[0] || k in keys[1..];
    }
  }

  lemma StepKeeps(s: State, t: Target, c: Config)
    requires Covers(s, c)
    ensures Owner(ScopeKeys(t, c), s.seen) == "" <==> !OverlapsAny(s.kept, t, c)
  {
    var keys := ScopeKeys(t, c);
    OwnerIsSeen(keys, s.seen);
    if Owner(keys, s.seen) != "" {
      var k :| k in keys && k in s.seen;
      var i :| 0 <= i < |s.kept| && k in ScopeKeys(s.kept[i], c);
      assert Overlap(s.kept[i], t, c);
    }
  }

  lemma StepCovers(s: State, t: Target, c: Config)
    requires Covers(s, c) && t.provider != ""
    ensures Covers(Step(s, t, c), c)
  {
    hide ScopeKeys, OverlapsAny;
    var keys, s' := ScopeKeys(t, c), Step(s, t, c);
    if Owner(keys, s.seen) == "" {
      forall k ensures k in s'.seen <==> exists i :: 0 <= i < |s'.kept| && k in ScopeKeys(s'.kept[i], c) {
        KeysOfMore(s.kept, t, c, k);
      }
    }
  }

  lemma KeysOfMore(kept: seq<Target>, t: Target, c: Config, k: Key)
    ensures (exists i :: 0 <= i < |kept + [t]| && k in ScopeKeys((kept + [t])[i], c)) <==>
            k in ScopeKeys(t, c) || exists i :: 0 <= i < |kept| && k in ScopeKeys(kept[i], c)
  {
    hide ScopeKeys;
    var more := kept + [t];
    if k in ScopeKeys(t, c) { assert more[|kept|] == t; }
    if i :| 0 <= i < |kept| && k in ScopeKeys(kept[i], c) { assert more[i] == kept[i]; }
  }

  lemma {:induction false} PassCovers(items: seq<Target>, c: Config)
    requires NoneBlank(items)
    ensures Covers(Pass(items, c), c)
  {
    if items != [] {
      var n := |items| - 1;
      PassCovers(items[..n], c);
      StepCovers(Pass(items[..n], c), items[n], c);
    }
  }

  /**
    A target is kept exactly when it overlaps none of the targets kept before it: nothing that could be kept
    is dropped, and every dropped target overlaps one that is preferred to it.
  */
  lemma KeptExactly(items: seq<Target>, c: Config, i: nat)
    requires NoneBlank(items) && i < |items|
    ensures Greedy(items[..i + 1], c) ==
      Greedy(items[..i], c) + if OverlapsAny(Greedy(items[..i], c), items[i], c) then [] else [items[i]]
  {
    assert items[..i + 1][..i] == items[..i];
    PassCovers(items[..i], c);
    StepKeeps(Pass(items[..i], c), items[i], c);
  }

  lemma {:induction false} GreedyPrefix(items: seq<Target>, c: Config, i: nat)
    requires i <= |items|
    ensures Greedy(items[..i], c) <= Greedy(items, c)
  {
    if i < |items| {
      var n := |items| - 1;
      assert items[..n][..i] == items[..i];
      GreedyPrefix(items[..n], c, i);
    } else {
      assert items[..i] == items;
    }
  }

  /** What is kept is pairwise disjoint, and comes in the order of the list. */
  lemma {:induction false} KeptIsDisjoint(items: seq<Target>, c: Config)
    requires NoneBlank(items)
    ensures PairwiseDisjoint(Greedy(items, c), c)
    ensures forall x :: x in Greedy(items, c) ==> x in items
  {
    hide Overlap;
    if items != [] {
      var n := |items| - 1;
      assert items[..n + 1] == items && items == items[..n] + [items[n]];
      KeptIsDisjoint(items[..n], c);
      KeptExactly(items, c, n);
    }
  }

  lemma {:induction false} KeptIsSorted(items: seq<Target>, c: Config)
    requires NoneBlank(items) && IsSorted(items, PreferredTo)
    ensures IsSorted(Greedy(items, c), PreferredTo)
  {
    if items != [] {
      var n := |items| - 1;
      KeptIsSorted(items[..n], c);
      KeptIsDisjoint(items[..n], c);
      var kept := Greedy(items[..n], c);
      forall i | 0 <= i < |kept| ensures PreferredTo(kept[i], items[n]) {
        assert kept[i] in items[..n];
      }
    }
  }

  /** A pass over a list that is already disjoint keeps all of it. */
  lemma {:induction false} DisjointIsKept(items: seq<Target>, c: Config)
    requires NoneBlank(items) && PairwiseDisjoint(items, c)
    ensures Greedy(items, c) == items
  {
    if items != [] {
      var n := |items| - 1;
      assert items[..n + 1] == items && items == items[..n] + [items[n]];
      DisjointIsKept(items[..n], c);
      KeptExactly(items, c, n);
    }
  }

  /** De-duplicating twice equals de-duplicating once. */
  lemma DedupeTwice(items: seq<Target>, c: Config)
    requires NoneBlank(items)
    ensures Deduped(Deduped(items, c), c) == Deduped(items, c)
  {
    var sorted := Sort(items, PreferredTo);
    PreferenceOrder();
    SortSorts(items, PreferredTo);
    SortPermutes(items, PreferredTo);
    assert forall i :: 0 <= i < |sorted| ==> sorted[i] in items;
    KeptIsDisjoint(sorted, c);
    KeptIsSorted(sorted, c);
    var kept := Deduped(items, c);
    SortedStays(kept, PreferredTo);
    assert forall i :: 0 <= i < |kept| ==> kept[i] in sorted;
    DisjointIsKept(kept, c);
  }

  /**
    Every target is either selected or overlaps a selected target that comes before it in the stable order of
    preference; and the selection is pairwise disjoint.
  */
  lemma DedupeIsMaximal(items: seq<Target>, c: Config, i: nat)
    requires NoneBlank(items) && i < |items|
    ensures PairwiseDisjoint(Deduped(items, c), c)
    ensures var sorted := Sort(items, PreferredTo);
            |sorted| == |items| && multiset(sorted) == multiset(items) &&
            (sorted[i] in Deduped(items, c)
             || exists u :: u in Deduped(items, c) && u in sorted[..i] && PreferredTo(u, sorted[i])
                            && Overlap(u, sorted[i], c))
  {
    hide ScopeKeys, Overlap, PairwiseDisjoint, Pass, Sort, PreferredTo;
    var sorted := Sort(items, PreferredTo);
    PreferenceOrder();
    SortSorts(items, PreferredTo);
    SortPermutes(items, PreferredTo);
    assert forall j :: 0 <= j < |sorted| ==> sorted[j] in items;
    KeptIsDisjoint(sorted, c);
    KeptIsDisjoint(sorted[..i], c);
    KeptExactly(sorted, c, i);
    GreedyPrefix(sorted, c, i);
    GreedyPrefix(sorted, c, i + 1);
    var before := Greedy(sorted[..i], c);
    if OverlapsAny(before, sorted[i], c) {
      var j :| 0 <= j < |before| && Overlap(before[j], sorted[i], c);
      assert before[j] in sorted[..i];
      assert before[j] == Deduped(items, c)[j];
    } else {
      assert sorted[i] == Greedy(sorted[..i + 1], c)[|before|] == Deduped(items, c)[|before|];
    }
  }

  /** Every claim is held under the name of a kept target with that key, and every key of a kept target is claimed. */
  ghost predicate Held(s: State, c: Config) {
    && (forall k :: k in s.seen ==> exists i :: 0 <= i < |s.kept| && HoldsKey(s.kept[i], k, s.seen[k], c))
    && (forall i, k :: 0 <= i < |s.kept| && k in ScopeKeys(s.kept[i], c) ==> k in s.seen)
  }

  predicate HoldsKey(t: Target, k: Key, owner: string, c: Config) {
    k in ScopeKeys(t, c) && t.provider == owner
  }

  /** The owner is that of one of the keys; without one, the first claimed key is claimed by a blank name. */
  lemma {:induction false} OwnerOfKey(keys: seq<Key>, seen: map<Key, string>)
    ensures Owner(keys, seen) != "" ==> exists k :: k in keys && k in seen && seen[k] == Owner(keys, seen)
    ensures Owner(keys, seen) == "" && (exists k :: k in keys && k in seen) ==>
      exists k :: k in keys && k in seen && seen[k] == ""
  {
    if keys != [] {
      assert forall k :: k in keys <==> k == keys[0] || k in keys[1..];
      OwnerOfKey(keys[1..], seen);
    }
  }

  lemma StepHeld(s: State, t: Target, c: Config)
    requires Held(s, c)
    ensures Held(Step(s, t, c), c)
  {
    hide ScopeKeys, Owner;
    var s' := Step(s, t, c);
    if s' != s {
      forall k | k in s'.seen ensures exists i :: 0 <= i < |s'.kept| && HoldsKey(s'.kept[i], k, s'.seen[k], c) {
        if k in ScopeKeys(t, c) {
          assert HoldsKey(s'.kept[|s.kept|], k, s'.seen[k], c);
        } else {
          var i :| 0 <= i < |s.kept| && HoldsKey(s.kept[i], k, s.seen[k], c);
          assert HoldsKey(s'.kept[i], k, s'.seen[k], c);
        }
      }
    }
  }

  lemma {:induction false} PassHeld(items: seq<Target>, c: Config)
    ensures Held(Pass(items, c), c)
  {
    if items != [] {
      PassHeld(items[..|items| - 1], c);
      StepHeld(Pass(items[..|items| - 1], c), items[|items| - 1], c);
    }
  }

  predicate OverlapsBlank(kept: seq<Target>, t: Target, c: Config) {
    exists i :: 0 <= i < |kept| && kept[i].provider == "" && Overlap(kept[i], t, c)
  }

  /** Whoever is dropped overlaps a named one; whoever is kept in spite of an overlap, a blank one. */
  lemma OwnerDecides(s: State, t: Target, c: Config)
    requires Held(s, c)
    ensures Owner(ScopeKeys(t, c), s.seen) == "" && OverlapsAny(s.kept, t, c) ==> OverlapsBlank(s.kept, t, c)
    ensures Owner(ScopeKeys(t, c), s.seen) != "" ==>
      exists i :: 0 <= i < |s.kept| && s.kept[i].provider != "" && Overlap(s.kept[i], t, c)
  {
    hide ScopeKeys, Owner;
    var keys := ScopeKeys(t, c);
    OwnerOfKey(keys, s.seen);
    if Owner(keys, s.seen) != "" {
      var k :| k in keys && k in s.seen && s.seen[k] == Owner(keys, s.seen);
      var i :| 0 <= i < |s.kept| && HoldsKey(s.kept[i], k, s.seen[k], c);
      assert Overlap(s.kept[i], t, c);
    } else if OverlapsAny(s.kept, t, c) {
      var i :| 0 <= i < |s.kept| && Overlap(s.kept[i], t, c);
      var k :| k in ScopeKeys(s.kept[i], c) && k in keys;
      var l :| l in keys && l in s.seen && s.seen[l] == "";
      var j :| 0 <= j < |s.kept| && HoldsKey(s.kept[j], l, s.seen[l], c);
      assert Overlap(s.kept[j], t, c);
    }
  }

  /**
    A blank provider hides nothing, and nothing else goes wrong: whatever the names are, the kept targets are
    pairwise disjoint exactly when none of them overlaps an earlier kept one without a name.
  */
  lemma {:induction false} BlankOwnerHidesNothing(items: seq<Target>, c: Config)
    ensures var kept := Greedy(items, c);
            PairwiseDisjoint(kept, c) <==> forall j :: 0 <= j < |kept| ==> !OverlapsBlank(kept[..j], kept[j], c)
  {
    hide Overlap, ScopeKeys;
    var kept := Greedy(items, c);
    if forall j :: 0 <= j < |kept| ==> !OverlapsBlank(kept[..j], kept[j], c) {
      forall i, j | 0 <= i < j < |kept| ensures !Overlap(kept[i], kept[j], c) {
        if Overlap(kept[i], kept[j], c) {
          assert kept[..j][i] == kept[i];
          OverlapIsBehindBlank(items, c, j);
        }
      }
    }
    if PairwiseDisjoint(kept, c) {
      forall j | 0 <= j < |kept| ensures !OverlapsBlank(kept[..j], kept[j], c) {
        assert forall i :: 0 <= i < j ==> kept[..j][i] == kept[i];
      }
    }
  }

  lemma {:induction false} OverlapIsBehindBlank(items: seq<Target>, c: Config, j: nat)
    requires j < |Greedy(items, c)| && OverlapsAny(Greedy(items, c)[..j], Greedy(items, c)[j], c)
    ensures OverlapsBlank(Greedy(items, c)[..j], Greedy(items, c)[j], c)
  {
    hide Overlap, ScopeKeys, Owner;
    var n := |items| - 1;
    var before := Pass(items[..n], c);
    if j < |before.kept| {
      assert Greedy(items, c)[..j] == before.kept[..j];
      OverlapIsBehindBlank(items[..n], c, j);
    } else {
      PassHeld(items[..n], c);
      OwnerDecides(before, items[n], c);
      assert Greedy(items, c)[..j] == before.kept;
    }
  }

  /** Two such targets. */
  lemma BlankPair(a: Target, b: Target, c: Config)
    requires Overlap(a, b, c) && a.provider == ""
    ensures Greedy([a, b], c) == [a, b] && !PairwiseDisjoint(Greedy([a, b], c), c)
  {
    hide Overlap, ScopeKeys, Owner;
    assert [a, b][..1] == [a] && [a][..0] == [];
    PassHeld([], c);
    PassHeld([a], c);
    OwnerDecides(Pass([], c), a, c);
    assert Greedy([a], c) == [a];
    OwnerDecides(Pass([a], c), b, c);
    assert Overlap(Greedy([a, b], c)[0], Greedy([a, b], c)[1], c);
  }
}
