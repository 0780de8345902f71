/**
  The bounded crawl that looks for a library's opening hours: seeds, links worth following, and the work list. What
  the network and the text rules answer is a parameter.
*/
module UsageCrawl {
  import opened Prelude
  import opened Ordering

  datatype Url = Url(text: string)

  datatype Site = Site(host: string)

  datatype Compact = Compact(text: string)

  /** A link on a page: its URL when it has a usable one, and the score of its text and URL. */
  datatype Link = Link(href: Option<Url>, score: int)

  datatype Info = Info(hours: string, holiday: string, source: Option<Url>, context: int)

  /** What the extraction reads off a page, and its links in document order. */
  datatype Page = Page(hours: string, holiday: string, context: int, links: seq<Link>)

  datatype World = World(
    normalize: string -> Option<Url>,  // normalize_url("", ...)
    root: Url -> Option<Url>,
    bounded: Url -> Url,
    compact: Url -> Compact,
    site: Url -> Site,
    isLanding: Url -> bool,
    hasKeyword: Url -> bool,           // a usage keyword occurs in the URL
    linkScore: Url -> int,             // score_usage_link("", url)
    fetch: Url -> Option<Page>)

  const NO_INFO := Info("", "", None, 0)
  const SEED_LIMIT := 20
  const QUEUE_LIMIT := 40
  const LINK_LIMIT := 12

  /** LibraryUsageInfo.score */
  function Score(w: World, i: Info): int {
    (if i.hours != "" then 4 else 0) + (if i.holiday != "" then 4 else 0)
    + (if i.source.Some? && w.hasKeyword(i.source.value) then 1 else 0) + i.context
  }

  // ---------- seeds ----------

  ghost predicate CompactlyDistinct(w: World, urls: seq<Url>) {
    forall i, j :: 0 <= i < j < |urls| ==> w.compact(urls[i]) != w.compact(urls[j])
  }

  /** Not too short to be kept. */
  predicate Keepable(w: World, u: Url) {
    w.bounded(u).text != "" && |w.compact(w.bounded(u)).text| >= 3
  }

  function Added(w: World, values: seq<Url>, value: Url, limit: nat): seq<Url> {
    var taken := exists u :: u in values && w.compact(u) == w.compact(w.bounded(value));
    if Keepable(w, value) && !taken && |values| < limit then values + [w.bounded(value)] else values
  }

  /** add_unique; it drops a URL whose compact form is shorter than 3 or taken. */
  method AddUnique(w: World, values: seq<Url>, value: Url, limit: nat) returns (r: seq<Url>)
    requires CompactlyDistinct(w, values) && |values| <= limit
    ensures CompactlyDistinct(w, r) && |r| <= limit
    ensures r == Added(w, values, value, limit)
    ensures r == values || r == values + [w.bounded(value)]
    ensures Keepable(w, value) && |r| < limit ==>
      exists u :: u in r && w.compact(u) == w.compact(w.bounded(value))
  {
    var text := w.bounded(value);
    if text.text == "" || |w.compact(text).text| < 3 || exists u :: u in values && w.compact(u) == w.compact(text) {
      r := values;
    } else if |values| < limit {
      r := values + [text];
      assert text in r;
    } else {
      r := values;
    }
  }

  /** u is a candidate that some given URL stands for: itself, or the root of its site. */
  ghost predicate Offered(w: World, urls: seq<string>, u: Url) {
    exists s :: s in urls && w.normalize(s).Some? && IsCandidate(w, w.normalize(s).value, u)
  }

  predicate IsCandidate(w: World, normalized: Url, u: Url) {
    u == normalized || w.root(normalized) == Some(u)
  }

  /** The candidates in the order of the given URLs, each followed by the root of its site. */
  function Candidates(w: World, urls: seq<string>): seq<Url> {
    if urls == [] then []
    else
      var before, normalized := Candidates(w, urls[..|urls| - 1]), w.normalize(urls[|urls| - 1]);
      if normalized.None? then before
      else
        var more := Added(w, before, normalized.value, SEED_LIMIT);
        var root := w.root(normalized.value);
        if root.None? then more else Added(w, more, root.value, SEED_LIMIT)
  }

  /** What the seeds of a crawl have to do with the URLs that are given. */
  ghost predicate AreSeeds(w: World, urls: seq<string>, seeds: seq<Url>) {
    && |seeds| <= 20 && CompactlyDistinct(w, seeds)
    && (forall c :: c in seeds ==> exists u :: Offered(w, urls, u) && c == w.bounded(u))
    && (|seeds| < 20 ==> forall u :: Offered(w, urls, u) && Keepable(w, u) ==>
          exists c :: c in seeds && w.compact(c) == w.compact(w.bounded(u)))
  }

  /** start_url_candidates: at most twenty, no two alike, and all that are offered unless there are too many. */
  method StartUrlCandidates(w: World, urls: seq<string>) returns (candidates: seq<Url>)
    ensures candidates == Candidates(w, urls)
    ensures AreSeeds(w, urls, candidates)
  {
    hide Added;
    candidates := [];
    for n := 0 to |urls|
      invariant |candidates| <= SEED_LIMIT && CompactlyDistinct(w, candidates)
      invariant candidates == Candidates(w, urls[..n])
      invariant forall c :: c in candidates ==> exists u :: Offered(w, urls, u) && c == w.bounded(u)
      invariant |candidates| < SEED_LIMIT ==> forall u :: Offered(w, urls[..n], u) && Keepable(w, u) ==>
        exists c :: c in candidates && w.compact(c) == w.compact(w.bounded(u))
    {
      var normalized := w.normalize(urls[n]);
      assert urls[..n + 1] == urls[..n] + [urls[n]] && urls[..n + 1][..n] == urls[..n];
      if normalized.None? { continue; }
      assert IsCandidate(w, normalized.value, normalized.value) && Offered(w, urls, normalized.value);
      candidates := AddUnique(w, candidates, normalized.value, SEED_LIMIT);
      var root := w.root(normalized.value);
      if root.Some? {
        assert IsCandidate(w, normalized.value, root.value) && Offered(w, urls, root.value);
        candidates := AddUnique(w, candidates, root.value, SEED_LIMIT);
      }
    }
    assert urls[..|urls|] == urls;
  }

  // ---------- links ----------

  datatype Scored = Scored(score: int, url: Url)

  /** Higher score first, then shorter, then by text. */
  predicate Ahead(a: Scored, b: Scored) {
    a.score > b.score
    || (a.score == b.score
        && (|a.url.text| < |b.url.text| || (|a.url.text| == |b.url.text| && StringLe(a.url.text, b.url.text))))
  }

  lemma AheadIsOrder()
    ensures TotalPreorder(Ahead)
  {
    StringOrder();
  }

  /** A link that may be followed from a page of `site`. */
  predicate IsUsable(w: World, base: Url, link: Link) {
    link.href.Some? && w.site(link.href.value) == w.site(base) && link.score > 0
  }

  function Urls(scored: seq<Scored>): seq<Url> {
    if scored == [] then [] else [scored[0].url] + Urls(scored[1..])
  }

  /** The usable links, each at its first usable occurrence, with the score of that occurrence. */
  function UsableLinks(w: World, base: Url, links: seq<Link>): seq<Scored> {
    if links == [] then []
    else
      var before := UsableLinks(w, base, links[..|links| - 1]);
      var link := links[|links| - 1];
      if IsUsable(w, base, link) && link.href.value !in Urls(before)
      then before + [Scored(link.score, link.href.value)]
      else before
  }

  /** The links that are followed: the best usable ones. */
  function Best(w: World, base: Url, links: seq<Link>): seq<Scored> {
    var ranked := Sort(UsableLinks(w, base, links), Ahead);
    if |ranked| <= LINK_LIMIT then ranked else ranked[..LINK_LIMIT]
  }

  function Discovered(w: World, base: Url, links: seq<Link>): seq<Url> {
    Urls(Best(w, base, links))
  }

  lemma {:induction false} UrlsAt(scored: seq<Scored>)
    ensures |Urls(scored)| == |scored| && forall i :: 0 <= i < |scored| ==> Urls(scored)[i] == scored[i].url
  {
    if scored != [] { UrlsAt(scored[1..]); }
  }

  /** discover_usage_links */
  method DiscoverUsageLinks(w: World, base: Url, links: seq<Link>) returns (found: seq<Url>)
    ensures found == Discovered(w, base, links)
  {
    var scored: seq<Scored> := [];
    var seen: set<Url> := {};
    for n := 0 to |links|
      invariant scored == UsableLinks(w, base, links[..n])
      invariant seen == ToSet(Urls(scored))
    {
      var link := links[n];
      assert links[..n + 1][..n] == links[..n];
      UrlsAt(scored);
      if link.href.None? || link.href.value in seen || w.site(link.href.value) != w.site(base) { continue; }
      if link.score <= 0 { continue; }
      UrlsAt(scored + [Scored(link.score, link.href.value)]);
      assert Urls(scored + [Scored(link.score, link.href.value)]) == Urls(scored) + [link.href.value];
      seen := seen + {link.href.value};
      scored := scored + [Scored(link.score, link.href.value)];
    }
    assert links[..|links|] == links;
    var ranked := Sort(scored, Ahead);
    found := Urls(if |ranked| <= LINK_LIMIT then ranked else ranked[..LINK_LIMIT]);
  }

  /** The i-th link is the first usable one with this URL, and has this score. */
  ghost predicate IsFirst(w: World, base: Url, links: seq<Link>, i: nat, x: Scored) {
    && i < |links| && links[i] == Link(Some(x.url), x.score) && IsUsable(w, base, links[i])
    && forall j :: 0 <= j < i ==> !(IsUsable(w, base, links[j]) && links[j].href == Some(x.url))
  }

  lemma {:induction false} UsableLinksAre(w: World, base: Url, links: seq<Link>)
    ensures var s := UsableLinks(w, base, links);
            && NoDuplicates(Urls(s))
            && (forall x :: x in s ==>
                  w.site(x.url) == w.site(base) && x.score > 0 && Link(Some(x.url), x.score) in links)
            && (forall l :: l in links && l.href.Some? && w.site(l.href.value) == w.site(base) && l.score > 0 ==>
                  l.href.value in Urls(s))
            && (forall x :: x in s ==> exists i :: 0 <= i < |links| && IsFirst(w, base, links, i, x))
    decreases |links|
  {
    if links != [] {
      var before, link := links[..|links| - 1], links[|links| - 1];
      UsableLinksAre(w, base, before);
      assert links == before + [link];
      var s := UsableLinks(w, base, before);
      UrlsAt(s);
      forall x, i | 0 <= i < |before| && IsFirst(w, base, before, i, x) ensures IsFirst(w, base, links, i, x) {
      }
      if IsUsable(w, base, link) && link.href.value !in Urls(s) {
        assert IsFirst(w, base, links, |before|, Scored(link.score, link.href.value));
      }
      if IsUsable(w, base, link) && link.href.value !in Urls(s) {
        UrlsAt(s);
        UrlsAt(s + [Scored(link.score, link.href.value)]);
        assert Urls(s + [Scored(link.score, link.href.value)]) == Urls(s) + [link.href.value];
      }
    }
  }

  lemma {:induction false} CountedOnce<T>(s: seq<T>)
    ensures NoDuplicates(s) <==> forall x :: multiset(s)[x] <= 1
  {
    if s != [] {
      assert s == [s[0]] + s[1..];
      CountedOnce(s[1..]);
      assert NoDuplicates(s) <==> s[0] !in s[1..] && NoDuplicates(s[1..]);
      assert forall x :: multiset(s)[x] == multiset(s[1..])[x] + if x == s[0] then 1 else 0;
      assert multiset(s)[s[0]] <= 1 <==> s[0] !in s[1..];
    }
  }

  predicate DistinctUrls(s: seq<Scored>) {
    NoDuplicates(s) && forall x, y :: x in s && y in s && x.url == y.url ==> x == y
  }

  lemma DistinctUrlsAre(s: seq<Scored>)
    ensures DistinctUrls(s) <==> NoDuplicates(Urls(s))
  {
    UrlsAt(s);
    if NoDuplicates(Urls(s)) {
      assert forall i, j :: 0 <= i < j < |s| ==> Urls(s)[i] != Urls(s)[j];
    }
  }

  lemma RankedAre(usable: seq<Scored>)
    requires NoDuplicates(Urls(usable))
    ensures var ranked := Sort(usable, Ahead);
            && |ranked| == |usable| && IsSorted(ranked, Ahead) && DistinctUrls(ranked)
            && forall x :: x in ranked <==> x in usable
  {
    hide Ahead, Sort;
    AheadIsOrder();
    SortSorts(usable, Ahead);
    SortPermutes(usable, Ahead);
    DistinctUrlsAre(usable);
    CountedOnce(usable);
    CountedOnce(Sort(usable, Ahead));
  }

  lemma PrefixIsBest(ranked: seq<Scored>, n: nat)
    requires IsSorted(ranked, Ahead) && DistinctUrls(ranked) && n <= |ranked|
    ensures IsSorted(ranked[..n], Ahead) && DistinctUrls(ranked[..n])
    ensures forall x :: x in ranked[..n] ==> x in ranked
    ensures forall x, y :: x in ranked[..n] && y in ranked && y !in ranked[..n] ==> Ahead(x, y)
  {
  }

  /** x has the higher score; or the same, and is shorter; or is as long, and does not come later by code point. */
  ghost predicate Outranks(x: Scored, y: Scored) {
    && y.score <= x.score
    && (y.score == x.score ==> |x.url.text| <= |y.url.text|)
    && (y.score == x.score && |x.url.text| == |y.url.text| ==> ByCodePoint(x.url.text, y.url.text))
  }

  lemma AheadOutranks(x: Scored, y: Scored)
    requires Ahead(x, y)
    ensures Outranks(x, y)
  {
    StringLeIsByCodePoint(x.url.text, y.url.text);
  }

  /** The URLs found are those of the usable links that no link left out outranks, in the order of rank. */
  ghost predicate BestOfUsable(found: seq<Url>, usable: seq<Scored>) {
    && (forall x, y :: x in usable && y in usable && x.url in found && y.url !in found ==> Outranks(x, y))
    && forall x, y, i, j :: 0 <= i < j < |found| ==>
         (x in usable && y in usable && x.url == found[i] && y.url == found[j] ==> Outranks(x, y))
  }

  lemma RankedAreBest(usable: seq<Scored>, best: seq<Scored>)
    requires DistinctUrls(usable) && IsSorted(best, Ahead) && forall x :: x in best ==> x in usable
    requires forall x, y :: x in best && y in usable && y !in best ==> Ahead(x, y)
    ensures BestOfUsable(Urls(best), usable)
  {
    hide Ahead, Outranks;
    UrlsAt(best);
    forall x, y | Ahead(x, y) ensures Outranks(x, y) { AheadOutranks(x, y); }
    assert forall x :: x in usable && x.url in Urls(best) ==> x in best;
    assert forall i :: 0 <= i < |best| ==> best[i] in usable;
  }

  /**
    The links followed are distinct usable ones, at most twelve, or all if there are no more; they stand in the order of
    rank, and no usable link that is left out outranks one of them.
  */
  lemma DiscoveredAreBest(w: World, base: Url, links: seq<Link>)
    ensures var found, usable := Discovered(w, base, links), UsableLinks(w, base, links);
            && NoDuplicates(found) && |found| == (if |usable| <= 12 then |usable| else 12)
            && (forall u :: u in found ==> u in Urls(usable) && w.site(u) == w.site(base))
            && BestOfUsable(found, usable)
  {
    hide Ahead, Sort, Outranks, IsUsable, UsableLinks, BestOfUsable;
    var best, usable := Best(w, base, links), UsableLinks(w, base, links);
    UsableLinksAre(w, base, links);
    RankedAre(usable);
    PrefixIsBest(Sort(usable, Ahead), |best|);
    DistinctUrlsAre(best);
    DistinctUrlsAre(usable);
    UrlsAt(best);
    UrlsAt(usable);
    RankedAreBest(usable, best);
  }

  // ---------- the work list ----------

  /** What a visited page contributes. */
  function InfoOf(w: World, url: Url): Option<Info> {
    match w.fetch(url)
    case None => None
    case Some(p) =>
      if w.isLanding(url) && w.linkScore(url) <= 0 then Some(NO_INFO.(source := Some(url)))
      else Some(Info(p.hours, p.holiday, Some(url), p.context))
  }

  /** The infos of the pages that could be fetched, in the order they were visited. */
  function Examined(w: World, visited: seq<Url>): seq<Info> {
    if visited == [] then []
    else
      var before, info := Examined(w, visited[..|visited| - 1]), InfoOf(w, visited[|visited| - 1]);
      if info.Some? then before + [info.value] else before
  }

  /** The earliest of the infos with the highest score, if that is positive. */
  ghost predicate IsEarliestBest(w: World, best: Info, infos: seq<Info>) {
    || (best == NO_INFO && forall i :: 0 <= i < |infos| ==> Score(w, infos[i]) <= 0)
    || (exists k :: 0 <= k < |infos| && best == infos[k] && Score(w, best) > 0
          && (forall i :: 0 <= i < |infos| ==> Score(w, infos[i]) <= Score(w, best))
          && (forall i :: 0 <= i < k ==> Score(w, infos[i]) < Score(w, best)))
  }

  /** The info that is kept, of those seen so far. */
  function BestOf(w: World, infos: seq<Info>): Info {
    if infos == [] then NO_INFO
    else
      var best, info := BestOf(w, infos[..|infos| - 1]), infos[|infos| - 1];
      if Score(w, info) > Score(w, best) then info else best
  }

  lemma {:induction false} BestOfIsEarliest(w: World, infos: seq<Info>)
    ensures IsEarliestBest(w, BestOf(w, infos), infos)
  {
    if infos != [] {
      var before := infos[..|infos| - 1];
      BestOfIsEarliest(w, before);
      BestNext(w, BestOf(w, before), before, infos[|infos| - 1]);
      assert infos == before + [infos[|infos| - 1]];
    }
  }

  /** Nothing better is looked for. */
  predicate IsComplete(w: World, best: Info) {
    best.hours != "" && best.holiday != "" && best.source.Some? && w.linkScore(best.source.value) > 0
  }

  /** Every link followed from `url` is queued, unless the queue is full. */
  ghost predicate Expanded(w: World, url: Url, queued: set<Url>) {
    w.fetch(url).Some? ==>
      |queued| == 40 || forall l :: l in Discovered(w, url, w.fetch(url).value.links) ==> l in queued
  }

  ghost predicate OnSeedSites(w: World, seeds: seq<Url>, urls: set<Url>) {
    forall u :: u in urls ==> exists s :: s in seeds && w.site(u) == w.site(s)
  }

  lemma ExpandedStays(w: World, url: Url, before: set<Url>, after: set<Url>)
    requires Expanded(w, url, before) && before <= after && |after| <= QUEUE_LIMIT
    ensures Expanded(w, url, after)
  {
    SubsetCount(before, after);
  }

  lemma BestNext(w: World, best: Info, infos: seq<Info>, info: Info)
    requires IsEarliestBest(w, best, infos)
    ensures IsEarliestBest(w, if Score(w, info) > Score(w, best) then info else best, infos + [info])
  {
    assert Score(w, best) >= 0 && forall i :: 0 <= i < |infos| ==> Score(w, infos[i]) <= Score(w, best);
    var all, next := infos + [info], if Score(w, info) > Score(w, best) then info else best;
    hide Score;
    assert forall i :: 0 <= i < |infos| ==> all[i] == infos[i];
    if next == info && Score(w, info) > Score(w, best) { assert all[|infos|] == info; }
  }

  /** The links that are new, each once and in order, while there is room. */
  function Fresh(links: seq<Url>, queued: set<Url>): seq<Url> {
    if links == [] then []
    else
      var before, link := Fresh(links[..|links| - 1], queued), links[|links| - 1];
      if link !in queued && link !in before && |queued| + |before| < QUEUE_LIMIT then before + [link] else before
  }

  lemma NothingFresh(queued: set<Url>)
    ensures Fresh([], queued) == []
  {
  }

  lemma FreshNext(links: seq<Url>, n: nat, queued: set<Url>)
    requires n < |links|
    ensures var before := Fresh(links[..n], queued);
            Fresh(links[..n + 1], queued) ==
              if links[n] !in queued && links[n] !in before && |queued| + |before| < QUEUE_LIMIT
              then before + [links[n]] else before
  {
    assert links[..n + 1][..n] == links[..n];
  }

  ghost predicate IsAppended(links: seq<Url>, queue: seq<Url>, queued: set<Url>, longer: seq<Url>, more: set<Url>) {
    longer == queue + Fresh(links, queued) && more == queued + ToSet(Fresh(links, queued))
  }

  /** The inner loop: queue the links that are new while there is room, at the end and in their order. */
  method Enqueue(links: seq<Url>, queue: seq<Url>, queued: set<Url>) returns (longer: seq<Url>, more: set<Url>)
    requires |queued| <= QUEUE_LIMIT
    ensures |more| <= QUEUE_LIMIT && queued <= more
    ensures forall u :: u in more ==> u in queued || u in links
    ensures forall u :: u in longer <==> u in queue || (u in more && u !in queued)
    ensures |more| == QUEUE_LIMIT || forall l :: l in links ==> l in more
    ensures IsAppended(links, queue, queued, longer, more)
  {
    hide Fresh;
    longer, more := queue, queued;
    NothingFresh(queued);
    for n := 0 to |links|
      invariant |more| <= QUEUE_LIMIT && queued <= more
      invariant forall u :: u in more ==> u in queued || u in links
      invariant forall u :: u in longer <==> u in queue || (u in more && u !in queued)
      invariant |more| == QUEUE_LIMIT || forall i :: 0 <= i < n ==> links[i] in more
      invariant longer == queue + Fresh(links[..n], queued) && more == queued + ToSet(Fresh(links[..n], queued))
      invariant |more| == |queued| + |Fresh(links[..n], queued)|
    {
      FreshNext(links, n, queued);
      if links[n] !in more && |more| < QUEUE_LIMIT {
        more := more + {links[n]};
        longer := longer + [links[n]];
      }
    }
    assert links[..|links|] == links;
  }

  lemma {:induction false} FreshIsNew(links: seq<Url>, queued: set<Url>)
    ensures NoDuplicates(Fresh(links, queued)) && forall u :: u in Fresh(links, queued) ==> u !in queued
    decreases |links|
  {
    if links != [] {
      FreshIsNew(links[..|links| - 1], queued);
      SnocNoDuplicates(Fresh(links[..|links| - 1], queued), links[|links| - 1]);
    }
  }

  /** The links followed from a page, if it can be fetched. */
  function FollowedFrom(w: World, url: Url): seq<Url> {
    if w.fetch(url).None? then [] else Discovered(w, url, w.fetch(url).value.links)
  }

  /** Everything that was queued while the first `n` pages were visited, in the order in which it joined the queue. */
  function Line(w: World, seeds: seq<Url>, n: nat): seq<Url> {
    if n == 0 then seeds
    else
      var before := Line(w, seeds, n - 1);
      if n - 1 < |before| then before + Fresh(FollowedFrom(w, before[n - 1]), ToSet(before)) else before
  }

  /** The queue is what is left of the line, and nobody stands in it twice. */
  ghost predicate InLine(w: World, seeds: seq<Url>, queue: seq<Url>, visited: seq<Url>, queued: set<Url>) {
    var line := Line(w, seeds, |visited|);
    && line == visited + queue && NoDuplicates(line) && queued == ToSet(line)
  }

  lemma LineStarts(w: World, urls: seq<string>, seeds: seq<Url>)
    requires AreSeeds(w, urls, seeds)
    ensures InLine(w, seeds, seeds, [], ToSet(seeds)) && |seeds| <= SEED_LIMIT && StopsInTime(w, [])
  {
    hide Offered, Keepable;
    assert CompactlyDistinct(w, seeds) && [] + seeds == seeds;
  }

  lemma NeverTwice(w: World, seeds: seq<Url>, queue: seq<Url>, visited: seq<Url>, queued: set<Url>)
    requires InLine(w, seeds, queue, visited, queued) && queue != []
    ensures queue[0] !in visited
  {
    var line := visited + queue;
    forall i | 0 <= i < |visited| ensures visited[i] != queue[0] {
      assert line[i] == visited[i] && line[|visited|] == queue[0];
    }
  }

  lemma LineMoves(w: World, seeds: seq<Url>, queue: seq<Url>, visited: seq<Url>, queued: set<Url>,
                  longer: seq<Url>, more: set<Url>)
    requires InLine(w, seeds, queue, visited, queued) && queue != []
    requires IsAppended(FollowedFrom(w, queue[0]), queue[1..], queued, longer, more)
    ensures InLine(w, seeds, longer, visited + [queue[0]], more)
  {
    hide FollowedFrom, Fresh;
    var line, added := Line(w, seeds, |visited|), Fresh(FollowedFrom(w, queue[0]), queued);
    assert line[|visited|] == queue[0];
    assert |visited + [queue[0]]| - 1 == |visited|;
    FreshIsNew(FollowedFrom(w, queue[0]), queued);
    Joined(line, added);
    assert line + added == visited + [queue[0]] + longer;
  }

  lemma Joined(a: seq<Url>, b: seq<Url>)
    requires NoDuplicates(a) && NoDuplicates(b) && forall u :: u in b ==> u !in ToSet(a)
    ensures NoDuplicates(a + b) && ToSet(a + b) == ToSet(a) + ToSet(b)
  {
    var s := a + b;
    forall i, j | 0 <= i < j < |s| ensures s[i] != s[j] {
      if i < |a| <= j { assert s[i] in ToSet(a) && s[j] in b; }
    }
  }

  lemma NothingFollowed(w: World, url: Url, queue: seq<Url>, queued: set<Url>)
    requires w.fetch(url).None?
    ensures IsAppended(FollowedFrom(w, url), queue, queued, queue, queued)
  {
  }

  lemma LinePrefix(w: World, seeds: seq<Url>, queue: seq<Url>, visited: seq<Url>, queued: set<Url>)
    requires InLine(w, seeds, queue, visited, queued) && queue != []
    ensures visited + [queue[0]] <= Line(w, seeds, |visited| + 1)
    ensures queued == ToSet(Line(w, seeds, |visited|))
  {
    hide Fresh, FollowedFrom;
    assert visited + queue == visited + [queue[0]] + queue[1..];
  }

  /** The state between two rounds. */
  ghost predicate Exploring(w: World, seeds: seq<Url>, queue: seq<Url>, visited: seq<Url>, queued: set<Url>, best: Info)
  {
    && NoDuplicates(visited)
    && |queued| <= QUEUE_LIMIT && ToSet(seeds) <= queued
    && (forall u :: u in queued <==> u in visited || u in queue)
    && OnSeedSites(w, seeds, queued)
    && best == BestOf(w, Examined(w, visited))
    && (forall u :: u in visited ==> Expanded(w, u, queued))
  }

  lemma ExploringStarts(w: World, seeds: seq<Url>)
    requires |seeds| <= SEED_LIMIT
    ensures Exploring(w, seeds, seeds, [], ToSet(seeds), NO_INFO)
  {
    CountDistinct(seeds);
  }

  /** What remains true as soon as the first of the queue has been visited. */
  lemma VisitKeeps(w: World, seeds: seq<Url>, queue: seq<Url>, visited: seq<Url>, queued: set<Url>, best: Info)
    requires Exploring(w, seeds, queue, visited, queued, best) && queue != [] && queue[0] !in visited
    ensures var more := visited + [queue[0]];
            && NoDuplicates(more)
            && (forall u :: u in queued <==> u in more || u in queue[1..])
            && match InfoOf(w, queue[0])
               case None => best == BestOf(w, Examined(w, more))
               case Some(info) =>
                 (if Score(w, info) > Score(w, best) then info else best) == BestOf(w, Examined(w, more))
  {
    hide OnSeedSites, Expanded, Score, InfoOf;
    assert forall u :: u in queue <==> u == queue[0] || u in queue[1..];
    assert (visited + [queue[0]])[..|visited|] == visited;
    SnocNoDuplicates(visited, queue[0]);
    if InfoOf(w, queue[0]).Some? { LastInfo(w, Examined(w, visited), InfoOf(w, queue[0]).value); }
  }

  lemma LastInfo(w: World, infos: seq<Info>, info: Info)
    ensures BestOf(w, infos + [info]) ==
      if Score(w, info) > Score(w, BestOf(w, infos)) then info else BestOf(w, infos)
  {
  }

  lemma EnqueueKeepsExploring(w: World, seeds: seq<Url>, queue: seq<Url>, visited: seq<Url>, queued: set<Url>,
                              url: Url, longer: seq<Url>, more: set<Url>)
    requires OnSeedSites(w, seeds, queued) && ToSet(seeds) <= queued
    requires forall u :: u in queued <==> u in visited || u in queue
    requires forall u :: u in visited && u != url ==> Expanded(w, u, queued)
    requires url in queued && |more| <= QUEUE_LIMIT && queued <= more
    requires forall u :: u in longer <==> u in queue || (u in more && u !in queued)
    requires w.fetch(url).Some? ==>
      var links := Discovered(w, url, w.fetch(url).value.links);
      && (forall u :: u in more ==> u in queued || u in links)
      && (|more| == QUEUE_LIMIT || forall l :: l in links ==> l in more)
    requires w.fetch(url).None? ==> more == queued
    ensures ToSet(seeds) <= more && OnSeedSites(w, seeds, more)
    ensures forall u :: u in more <==> u in visited || u in longer
    ensures forall u :: u in visited ==> Expanded(w, u, more)
  {
    hide Discovered;
    if w.fetch(url).Some? { DiscoveredAreBest(w, url, w.fetch(url).value.links); }
    forall u | u in visited ensures Expanded(w, u, more) {
      if u != url { ExpandedStays(w, u, queued, more); }
    }
    var s :| s in seeds && w.site(url) == w.site(s);
    forall u | u in more ensures exists s :: s in seeds && w.site(u) == w.site(s) {
      if u !in queued { assert w.site(u) == w.site(s); }
    }
  }

  /** No page but possibly the last made the info complete. */
  ghost predicate StopsInTime(w: World, visited: seq<Url>) {
    forall n :: 0 <= n < |visited| ==> !IsComplete(w, BestOf(w, Examined(w, visited[..n])))
  }

  lemma NotYetComplete(w: World, visited: seq<Url>, url: Url)
    requires StopsInTime(w, visited) && !IsComplete(w, BestOf(w, Examined(w, visited)))
    ensures StopsInTime(w, visited + [url])
  {
    hide Examined, BestOf;
    var more := visited + [url];
    forall n | 0 <= n < |more| ensures !IsComplete(w, BestOf(w, Examined(w, more[..n]))) {
      assert more[..n] == if n < |visited| then visited[..n] else visited;
    }
  }

  /**
    fetch_library_usage_info; `queued` is every URL that ever was in the queue. The pages are visited in the order in
    which they joined the queue. No URL joins it twice, so the source's test for a visited one never skips any.
  */
  method FetchLibraryUsageInfo(w: World, urls: seq<string>, maxPages: int)
    returns (best: Info, visited: seq<Url>, seeds: seq<Url>, queued: set<Url>)
    ensures seeds == Candidates(w, urls) && AreSeeds(w, urls, seeds)
    ensures NoDuplicates(visited) && |visited| <= Max0(maxPages)
    ensures IsComplete(w, best) ==> visited != [] && best.source == Some(visited[|visited| - 1])
    ensures visited <= Line(w, seeds, |visited|)
    ensures queued == ToSet(Line(w, seeds, if IsComplete(w, best) then |visited| - 1 else |visited|))
    ensures |queued| <= 40 && ToSet(seeds) <= queued && ToSet(visited) <= queued
    ensures OnSeedSites(w, seeds, queued)
    ensures best == BestOf(w, Examined(w, visited)) && IsEarliestBest(w, best, Examined(w, visited))
    ensures StopsInTime(w, visited)
    ensures |visited| < maxPages && !IsComplete(w, best) ==>
      ToSet(visited) == queued && forall u :: u in queued ==> Expanded(w, u, queued)
  {
    hide OnSeedSites, IsEarliestBest, Expanded, Score, Examined, BestOf, Discovered, IsAppended;
    hide Line, InLine, AreSeeds, FollowedFrom, StopsInTime;
    seeds := StartUrlCandidates(w, urls);
    LineStarts(w, urls, seeds);
    var queue := seeds;
    queued := ToSet(seeds);
    visited := [];
    best := NO_INFO;
    ExploringStarts(w, seeds);
    while queue != [] && |visited| < maxPages
      invariant Exploring(w, seeds, queue, visited, queued, best) && InLine(w, seeds, queue, visited, queued)
      invariant |visited| <= Max0(maxPages) && !IsComplete(w, best) && StopsInTime(w, visited)
      decreases maxPages - |visited|
    {
      var url := queue[0];
      NeverTwice(w, seeds, queue, visited, queued);
      if url in visited { assert false; }
      VisitKeeps(w, seeds, queue, visited, queued, best);
      NotYetComplete(w, visited, url);
      LinePrefix(w, seeds, queue, visited, queued);
      ghost var before, seen := queue, visited;
      queue := queue[1..];
      var page := w.fetch(url);
      visited := visited + [url];
      if page.None? {
        NothingFollowed(w, url, queue, queued);
        LineMoves(w, seeds, before, seen, queued, queue, queued);
        EnqueueKeepsExploring(w, seeds, queue, visited, queued, url, queue, queued);
        continue;
      }
      var info := InfoOf(w, url).value;
      if Score(w, info) > Score(w, best) {
        best := info;
        if best.hours != "" && best.holiday != "" && w.linkScore(best.source.value) > 0 { break; }
      }
      var links := DiscoverUsageLinks(w, url, page.value.links);
      var longer, more := Enqueue(links, queue, queued);
      IsFollowed(w, url, page.value);
      LineMoves(w, seeds, before, seen, queued, longer, more);
      EnqueueKeepsExploring(w, seeds, queue, visited, queued, url, longer, more);
      queue, queued := longer, more;
    }
    BestOfIsEarliest(w, Examined(w, visited));
    if !IsComplete(w, best) { WholeLine(w, seeds, queue, visited, queued); }
  }

  lemma IsFollowed(w: World, url: Url, page: Page)
    requires w.fetch(url) == Some(page)
    ensures FollowedFrom(w, url) == Discovered(w, url, page.links)
  {
  }

  lemma WholeLine(w: World, seeds: seq<Url>, queue: seq<Url>, visited: seq<Url>, queued: set<Url>)
    requires InLine(w, seeds, queue, visited, queued)
    ensures visited <= Line(w, seeds, |visited|) && queued == ToSet(Line(w, seeds, |visited|))
  {
  }
}
