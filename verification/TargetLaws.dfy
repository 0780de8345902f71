/**
  De-duplication and registry in terms of the target rows themselves: what two targets may not share, and which of two
  that do is taken.
*/
module TargetLaws {
  import opened Prelude
  import opened Ordering
  import opened Targets
  import opened TargetRegistry

  // ---------- what two targets may not share ----------

  /** Both name a scope, and it is the same but for case. */
  predicate ShareScope(a: Target, b: Target, c: Config) {
    a.crawlScope != "" && b.crawlScope != "" && c.lower(a.crawlScope) == c.lower(b.crawlScope)
  }

  /** Neither names a scope, and a URL of one is a URL of the other in normal form. */
  predicate ShareUrl(a: Target, b: Target, c: Config) {
    && a.crawlScope == "" && b.crawlScope == ""
    && exists u, v :: u in a.urls && v in b.urls && SameUrl(u, v, c)
  }

  predicate SameUrl(u: string, v: string, c: Config) {
    u != "" && v != "" && c.normalizeUrl(u) != "" && c.normalizeUrl(u) == c.normalizeUrl(v)
  }

  /** Only a names a scope, and a URL of b has a normal form that reads like it. */
  predicate PosesAsScope(a: Target, b: Target, c: Config) {
    a.crawlScope != "" && b.crawlScope == ""
    && exists v :: v in b.urls && v != "" && c.normalizeUrl(v) == "scope:" + c.lower(a.crawlScope)
  }

  /** Two targets collect something in common. */
  predicate Collide(a: Target, b: Target, c: Config) {
    ShareScope(a, b, c) || ShareUrl(a, b, c) || PosesAsScope(a, b, c) || PosesAsScope(b, a, c)
  }

  lemma {:induction false} UrlKeysAre(urls: seq<string>, c: Config, k: Key)
    requires k.text != ""
    ensures k in UrlKeys(urls, c) <==> exists u :: u in urls && u != "" && c.normalizeUrl(u) == k.text
  {
    if urls != [] {
      UrlKeysAre(urls[1..], c, k);
      assert urls == [urls[0]] + urls[1..];
      assert UrlKeys(urls, c)[1..] == UrlKeys(urls[1..], c);
    }
  }

  /** Scope keys are what the rows say: an explicit scope, or else the URLs. */
  predicate HasKey(t: Target, k: Key, c: Config) {
    if t.crawlScope != "" then k.text == "scope:" + c.lower(t.crawlScope)
    else k.text != "" && exists u :: u in t.urls && u != "" && c.normalizeUrl(u) == k.text
  }

  lemma KeysAre(t: Target, c: Config, k: Key)
    ensures k in ScopeKeys(t, c) <==> HasKey(t, k, c)
  {
    if k.text != "" { UrlKeysAre(t.urls, c, k); }
  }

  lemma OverlapIsCollision(a: Target, b: Target, c: Config)
    ensures Overlap(a, b, c) <==> Collide(a, b, c)
  {
    hide ScopeKeys, HasKey;
    forall k ensures k in ScopeKeys(a, c) <==> HasKey(a, k, c) { KeysAre(a, c, k); }
    forall k ensures k in ScopeKeys(b, c) <==> HasKey(b, k, c) { KeysAre(b, c, k); }
    if k :| HasKey(a, k, c) && HasKey(b, k, c) { SharedKeyCollides(a, b, c, k); }
    if Collide(a, b, c) {
      var k := CollisionHasKey(a, b, c);
      assert k in ScopeKeys(a, c) && k in ScopeKeys(b, c);
    }
  }

  lemma SharedKeyCollides(a: Target, b: Target, c: Config, k: Key)
    requires HasKey(a, k, c) && HasKey(b, k, c)
    ensures Collide(a, b, c)
  {
    if a.crawlScope != "" && b.crawlScope != "" {
      assert k.text[6..] == c.lower(a.crawlScope) && k.text[6..] == c.lower(b.crawlScope);
    } else if a.crawlScope == "" && b.crawlScope == "" {
      var u :| u in a.urls && u != "" && c.normalizeUrl(u) == k.text;
      var v :| v in b.urls && v != "" && c.normalizeUrl(v) == k.text;
      assert SameUrl(u, v, c);
    }
  }

  lemma CollisionHasKey(a: Target, b: Target, c: Config) returns (k: Key)
    requires Collide(a, b, c)
    ensures HasKey(a, k, c) && HasKey(b, k, c)
  {
    if a.crawlScope != "" { k := Key("scope:" + c.lower(a.crawlScope)); }
    else if b.crawlScope != "" { k := Key("scope:" + c.lower(b.crawlScope)); }
    else {
      var u, v :| u in a.urls && v in b.urls && SameUrl(u, v, c);
      k := Key(c.normalizeUrl(u));
    }
  }

  /** A target that names a scope and one that does not never hide one another, unless a URL poses as a scope. */
  lemma ScopesAndUrlsAreApart(a: Target, b: Target, c: Config)
    requires a.crawlScope != "" && b.crawlScope == ""
    requires forall v :: v in b.urls && v != "" ==> !("scope:" <= c.normalizeUrl(v))
    ensures !Collide(a, b, c) && !Overlap(a, b, c)
  {
    OverlapIsCollision(a, b, c);
    assert "scope:" <= "scope:" + c.lower(a.crawlScope);
  }

  // ---------- which is preferred ----------

  const STATUS_ORDER := ["ready", "partial", "generated", "candidate", "needs_parser", "needs_discovery", "blocked"]

  /** s stands in the list no later than t; what is not in the list comes last. */
  ghost predicate NoLater(s: string, t: string) {
    t !in STATUS_ORDER || exists i :: 0 <= i < 7 && STATUS_ORDER[i] == s && t !in STATUS_ORDER[..i]
  }

  lemma RankIsPosition(s: string, t: string)
    ensures StatusRank(s) <= StatusRank(t) <==> NoLater(s, t)
  {
    PositionOf(s);
    PositionOf(t);
  }

  lemma PositionOf(s: string)
    ensures s in STATUS_ORDER ==> 0 <= StatusRank(s) < 7 && STATUS_ORDER[StatusRank(s)] == s
    ensures s !in STATUS_ORDER ==> StatusRank(s) == 9
    ensures forall i :: 0 <= i < 7 ==> (STATUS_ORDER[i] == s <==> i == StatusRank(s))
  {
  }

  /** By priority number, then by status, then by source and provider in the order of their code points. */
  ghost predicate Preferred(a: Target, b: Target) {
    if a.priority != b.priority then a.priority < b.priority
    else if !(NoLater(a.status, b.status) && NoLater(b.status, a.status)) then NoLater(a.status, b.status)
    else if a.source != b.source then ByCodePoint(a.source, b.source)
    else ByCodePoint(a.provider, b.provider)
  }

  lemma PreferredIsKey(a: Target, b: Target)
    ensures PreferredTo(a, b) <==> Preferred(a, b)
  {
    RankIsPosition(a.status, b.status);
    RankIsPosition(b.status, a.status);
    StringLeIsByCodePoint(a.source, b.source);
    StringLeIsByCodePoint(a.provider, b.provider);
    hide StatusRank, NoLater, StringLe, ByCodePoint;
  }

  // ---------- which targets count ----------

  /** A remark that says whose duplicate the target is. */
  predicate IsMark(s: string, c: Config) {
    s != "" && "duplicate_of:" <= c.lower(s)
  }

  /** The marks of a duplicate that a row carries, the most telling first. */
  function Marks(t: Target, c: Config): seq<string> {
    (if t.duplicateOf == "" then [] else ["duplicate_of:" + t.duplicateOf])
    + (if IsMark(t.blockedReason, c) then [t.blockedReason] else [])
    + (if IsMark(t.errorKind, c) then [t.errorKind] else [])
    + (if c.lower(t.collectionType) == "duplicate" then ["duplicate_collection_type"] else [])
  }

  lemma ReasonIsFirstMark(t: Target, c: Config)
    ensures Marks(t, c) == [] <==> ExplicitDuplicateReason(t, c) == ""
    ensures Marks(t, c) != [] ==> ExplicitDuplicateReason(t, c) == Marks(t, c)[0]
  {
  }

  /** The registry lists named targets of the seven statuses; those of the first four work, unless marked. */
  lemma WhichTargetsCount(t: Target, c: Config)
    ensures t.status in REGISTERED <==> t.status in STATUS_ORDER
    ensures IsRegistryTarget(t, c) && Marks(t, c) == [] && !c.excludedPath(t.url) && t.status in STATUS_ORDER[..4] <==>
      IsWorkingTarget(t, c) && t.provider != ""
  {
    ReasonIsFirstMark(t, c);
    hide ExplicitDuplicateReason, Marks;
  }

  // ---------- the laws ----------

  /** No two selected targets collide, and they stand in the order of preference. */
  lemma SelectedAreApart(items: seq<Target>, c: Config, i: nat, j: nat)
    requires NoneBlank(items) && i < j < |Deduped(items, c)|
    ensures !Collide(Deduped(items, c)[i], Deduped(items, c)[j], c)
    ensures Preferred(Deduped(items, c)[i], Deduped(items, c)[j])
  {
    hide Greedy, Overlap, Collide, PreferredTo, Preferred, Sort;
    var sorted, kept := Sort(items, PreferredTo), Deduped(items, c);
    PreferenceOrder();
    SortSorts(items, PreferredTo);
    SortPermutes(items, PreferredTo);
    assert forall k :: 0 <= k < |sorted| ==> sorted[k] in items;
    KeptIsDisjoint(sorted, c);
    KeptIsSorted(sorted, c);
    OverlapIsCollision(kept[i], kept[j], c);
    PreferredIsKey(kept[i], kept[j]);
  }

  /** A target that is not selected collides with a selected one that is preferred to it. */
  lemma DroppedForBetter(items: seq<Target>, c: Config, t: Target)
    requires NoneBlank(items) && t in items && t !in Deduped(items, c)
    ensures exists u :: u in Deduped(items, c) && Collide(u, t, c) && Preferred(u, t)
  {
    hide Deduped, Overlap, Collide, PreferredTo, Preferred, Sort;
    var sorted := Sort(items, PreferredTo);
    SortPermutes(items, PreferredTo);
    var i: nat :| i < |sorted| && sorted[i] == t;
    DedupeIsMaximal(items, c, i);
    var u :| u in Deduped(items, c) && PreferredTo(u, t) && Overlap(u, t, c);
    OverlapIsCollision(u, t, c);
    PreferredIsKey(u, t);
  }

  /** No two enabled rows of the registry collide. */
  lemma EnabledAreApart(items: seq<Target>, c: Config, i: nat, j: nat)
    requires forall t :: t in items ==> IsRegistryTarget(t, c)
    requires i < j < |items|
    ensures |Registered(items, c)| == |items|
    ensures var rows := Registered(items, c);
      && (rows[i].enabled && rows[j].enabled ==> !Collide(rows[i].target, rows[j].target, c))
      && Preferred(rows[i].target, rows[j].target)
  {
    hide Overlap, Collide, PreferredTo, Preferred, Sort;
    EnabledRowsAreDisjoint(items, c, i, j);
    PreferenceOrder();
    SortSorts(items, PreferredTo);
    var rows := Registered(items, c);
    OverlapIsCollision(rows[i].target, rows[j].target, c);
    PreferredIsKey(rows[i].target, rows[j].target);
  }

  // ---------- why a row is disabled ----------

  /** The row is no duplicate: it holds its keys, whether or not it is enabled. */
  predicate IsHolder(row: Row, c: Config) {
    ExplicitDuplicateReason(row.target, c) == "" && !("duplicate_url:" <= row.disabledReason)
  }

  /** The claims are the keys of the holders, each under the name of one that has it. */
  ghost predicate HeldByRows(r: Registry, c: Config) {
    && (forall k :: k in r.seen ==> r.seen[k] != "" && exists j :: 0 <= j < |r.rows| && HeldBy(r, c, k, j))
    && (forall j, k :: 0 <= j < |r.rows| && IsHolder(r.rows[j], c) && HasKey(r.rows[j].target, k, c) ==> k in r.seen)
  }

  ghost predicate HeldBy(r: Registry, c: Config, k: Key, j: int)
    requires 0 <= j < |r.rows| && k in r.seen
  {
    IsHolder(r.rows[j], c) && HasKey(r.rows[j].target, k, c) && r.seen[k] == Truncate(r.rows[j].target.provider, 50)
  }

  /** The reason of a row behind the rows `before`; a holder among them that it collides with is named. */
  ghost predicate HasReason(before: seq<Row>, row: Row, c: Config) {
    var t, explicit := row.target, ExplicitDuplicateReason(row.target, c);
    && (explicit != "" ==> row.disabledReason == explicit)
    && (explicit == "" && (exists j :: 0 <= j < |before| && Blocks(before[j], t, c)) ==>
          exists j :: 0 <= j < |before| && Blocks(before[j], t, c)
            && row.disabledReason == "duplicate_url:" + Truncate(before[j].target.provider, 50))
    && (explicit == "" && (forall j :: 0 <= j < |before| ==> !Blocks(before[j], t, c)) ==>
          row.disabledReason ==
            if t.status in {"blocked", "needs_discovery", "needs_parser"} then t.status
            else if c.excludedPath(t.url) then "excluded_url_shape"
            else "")
  }

  predicate Blocks(row: Row, t: Target, c: Config) {
    IsHolder(row, c) && Collide(row.target, t, c)
  }

  lemma {:induction false} OwnerHasKey(keys: seq<Key>, seen: map<Key, string>)
    ensures Owner(keys, seen) != "" ==> exists k :: k in keys && k in seen && Owner(keys, seen) == seen[k]
    ensures (forall k :: k in seen ==> seen[k] != "") && Owner(keys, seen) == "" ==>
      forall k :: k in keys ==> k !in seen
  {
    if keys != [] {
      OwnerHasKey(keys[1..], seen);
      assert forall k :: k in keys <==> k == keys[0] || k in keys[1..];
    }
  }

  lemma NextReason(r: Registry, t: Target, c: Config)
    requires HeldByRows(r, c)
    ensures HasReason(r.rows, RowFor(t, r.seen, c), c)
  {
    hide Collide, ScopeKeys, HasKey, ExplicitDuplicateReason, Truncate, Owner, IsHolder;
    var keys := ScopeKeys(t, c);
    OwnerHasKey(keys, r.seen);
    forall k ensures k in keys <==> HasKey(t, k, c) { KeysAre(t, c, k); }
    if Owner(keys, r.seen) != "" {
      var k :| k in keys && k in r.seen && Owner(keys, r.seen) == r.seen[k];
      var j :| 0 <= j < |r.rows| && HeldBy(r, c, k, j);
      SharedKeyCollides(r.rows[j].target, t, c, k);
      assert Blocks(r.rows[j], t, c);
    } else if j :| 0 <= j < |r.rows| && Blocks(r.rows[j], t, c) {
      var k := CollisionHasKey(r.rows[j].target, t, c);
    }
  }

  lemma HolderIsClaimer(t: Target, seen: map<Key, string>, c: Config)
    ensures IsHolder(RowFor(t, seen, c), c) <==>
      ExplicitDuplicateReason(t, c) == "" && Owner(ScopeKeys(t, c), seen) == ""
  {
    hide ScopeKeys, ExplicitDuplicateReason, Owner;
    if "duplicate_url:" <= RowFor(t, seen, c).disabledReason { SecondIsU(RowFor(t, seen, c).disabledReason); }
  }

  lemma SecondIsU(s: string)
    requires "duplicate_url:" <= s
    ensures |s| > 1 && s[1] == 'u'
  {
  }

  lemma RegisterHolds(r: Registry, t: Target, c: Config)
    requires HeldByRows(r, c) && t.provider != ""
    ensures HeldByRows(Register(r, t, c), c)
  {
    hide Collide, ScopeKeys, HasKey, ExplicitDuplicateReason, Owner, IsHolder, RowFor;
    var keys, next := ScopeKeys(t, c), Register(r, t, c);
    HolderIsClaimer(t, r.seen, c);
    RowIsOf(t, r.seen, c);
    forall k ensures k in keys <==> HasKey(t, k, c) { KeysAre(t, c, k); }
    forall k | k in next.seen ensures next.seen[k] != "" && exists j :: 0 <= j < |next.rows| && HeldBy(next, c, k, j) {
      if k in r.seen {
        var j :| 0 <= j < |r.rows| && HeldBy(r, c, k, j);
        assert HeldBy(next, c, k, j);
      } else {
        assert HeldBy(next, c, k, |r.rows|);
      }
    }
  }

  lemma RowIsOf(t: Target, seen: map<Key, string>, c: Config)
    ensures RowFor(t, seen, c).target == t
  {
  }

  lemma {:induction false} RowsHold(items: seq<Target>, c: Config)
    requires NoneBlank(items)
    ensures HeldByRows(RegistryPass(items, c), c)
  {
    hide Register, HeldBy, HasKey, IsHolder;
    if items != [] {
      RowsHold(items[..|items| - 1], c);
      RegisterHolds(RegistryPass(items[..|items| - 1], c), items[|items| - 1], c);
    }
  }

  lemma {:induction false} ReasonAt(items: seq<Target>, c: Config, i: nat)
    requires NoneBlank(items) && i < |items|
    ensures HasReason(RegistryPass(items, c).rows[..i], RegistryPass(items, c).rows[i], c)
  {
    hide HasReason, HeldByRows, RowFor, Claims;
    var n := |items| - 1;
    var r := RegistryPass(items[..n], c);
    assert RegistryPass(items, c).rows == r.rows + [RowFor(items[n], r.seen, c)];
    assert RegistryPass(items, c).rows[..i] == r.rows[..i];
    if i < n {
      ReasonAt(items[..n], c, i);
    } else {
      RowsHold(items[..n], c);
      NextReason(r, items[n], c);
      assert r.rows[..i] == r.rows;
    }
  }

  /**
    Every row of the registry says why it is disabled: its own duplicate mark; or the name of an earlier row that it
    collides with and that is no duplicate; or its status; or its URL. If none of these applies, it is enabled.
  */
  lemma ReasonIsGiven(items: seq<Target>, c: Config, i: nat)
    requires i < |items| && forall t :: t in items ==> IsRegistryTarget(t, c)
    ensures |Registered(items, c)| == |items|
    ensures var rows := Registered(items, c);
      && HasReason(rows[..i], rows[i], c)
      && (rows[i].enabled <==> rows[i].disabledReason == "")
  {
    hide HasReason, PreferredTo, Sort, RowFor;
    var sorted := Sort(items, PreferredTo);
    SortPermutes(items, PreferredTo);
    assert forall k :: 0 <= k < |sorted| ==> sorted[k] in items;
    ReasonAt(sorted, c, i);
    EnabledIffNoReason(sorted, c, i);
  }
}
