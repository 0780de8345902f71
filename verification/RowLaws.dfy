/** How the row statements relate to one another: which ones commute, and what one of them undoes of another. */
module RowLaws {
  import opened Prelude
  import Ordering
  import opened CourseRow
  import opened RowRuns

  /** The order of the two AI steps makes no difference to the row. */
  lemma TitleAndSummaryCommute(r: Row, t: TitleResult, s: Summary)
    ensures UpdateTitle(UpdateSummary(r, s), t) == UpdateSummary(UpdateTitle(r, t), s)
    ensures MarkUnchanged(UpdateSummary(r, s), t) == UpdateSummary(MarkUnchanged(r, t), s)
  {
  }

  /** An event of the AI title step, one way or the other. */
  predicate IsTitleEvent(e: Event) {
    e.Title? || e.Unchanged?
  }

  function Titles(events: seq<Event>): seq<Event> {
    Ordering.Filter(events, (e: Event) => IsTitleEvent(e))
  }

  function Summaries(events: seq<Event>): seq<Event> {
    Ordering.Filter(events, (e: Event) => e.Summarize?)
  }

  lemma {:induction false} SummaryPassesTitles(r: Row, s: Summary, titles: seq<Event>)
    requires forall e :: e in titles ==> IsTitleEvent(e)
    ensures Run(UpdateSummary(r, s), titles) == UpdateSummary(Run(r, titles), s)
    decreases |titles|
  {
    hide UpdateTitle, MarkUnchanged, UpdateSummary;
    if titles != [] {
      var e := titles[0];
      assert IsTitleEvent(e);
      TitleAndSummaryCommute(r, e.result, s);
      SummaryPassesTitles(Apply(r, e), s, titles[1..]);
    }
  }

  /**
    Over a run of AI steps, in whatever order several workers got to them, it makes no difference whether each
    summary was written where it was or after all the titles.
  */
  lemma {:induction false} SummariesLast(r: Row, events: seq<Event>)
    requires forall e :: e in events ==> IsTitleEvent(e) || e.Summarize?
    ensures Run(r, events) == Run(Run(r, Titles(events)), Summaries(events))
    decreases |events|
  {
    hide UpdateTitle, MarkUnchanged, UpdateSummary;
    if events != [] {
      var e, rest := events[0], events[1..];
      var titles, summaries := Titles(rest), Summaries(rest);
      assert IsTitleEvent(e) || e.Summarize?;
      SummariesLast(Apply(r, e), rest);
      if e.Summarize? {
        Ordering.FilterKeeps(rest, (e: Event) => IsTitleEvent(e));
        SummaryPassesTitles(r, e.summary, titles);
        assert ([e] + summaries)[1..] == summaries;
      } else {
        assert ([e] + titles)[1..] == titles;
      }
    }
  }

  // ---------- what a title update decides ----------

  /** The result's group and bounds replace the row's as a whole. */
  predicate TakesWhole(r: Row, t: TitleResult) {
    (t.target.Some? && HasBound(t.minAge, t.maxAge)) || !Ordered(r.minAge, r.maxAge)
  }

  /** The target text is lost only if it is cleared or blank; else it is the result's, or the row's own, trimmed. */
  lemma TargetAfterTitle(r: Row, t: TitleResult)
    requires !ExplicitValid(r)
    ensures var target := UpdateTitle(r, t).target;
      && (target.None? <==> t.clearTargetText || (t.target.None? && (r.target.None? || Btrim(r.target.value) == "")))
      && (target.Some? ==> target == if t.target.Some? then t.target else Some(Btrim(r.target.value)))
  {
  }

  /** The row's group survives exactly if nothing better came, and the bounds are taken one by one, or as a whole. */
  lemma AgeAfterTitle(r: Row, t: TitleResult)
    requires !ExplicitValid(r)
    ensures var u := UpdateTitle(r, t);
      && (u.ageGroup == t.ageGroup || u.ageGroup == r.ageGroup)
      && (r.ageGroup != t.ageGroup ==>
            (u.ageGroup == r.ageGroup <==>
              && !TakesWhole(r, t)
              && if t.ageGroup.None? then !t.clearTargetText
                 else r.ageGroup.Some? && HasBound(r.minAge, r.maxAge)
                      && !HasBound(t.minAge, t.maxAge) && !t.clearAgeBounds))
      && (TakesWhole(r, t) ==> u.minAge == t.minAge && u.maxAge == t.maxAge)
      && (!TakesWhole(r, t) && t.clearAgeBounds ==> u.minAge == u.maxAge == None)
      && (!TakesWhole(r, t) && !t.clearAgeBounds ==>
            && (u.minAge == t.minAge || (t.minAge.None? && !t.clearTargetText && u.minAge == r.minAge))
            && (u.maxAge == t.maxAge || (t.maxAge.None? && !t.clearTargetText && u.maxAge == r.maxAge))
            && (!t.clearTargetText ==>
                  (r.minAge.Some? ==> u.minAge.Some?) && (r.maxAge.Some? ==> u.maxAge.Some?)))
  {
  }

  /** Tags are never NULL afterwards; the row's survive exactly if the result has none of its own that fit. */
  lemma TagsAfterTitle(r: Row, t: TitleResult)
    ensures var u := UpdateTitle(r, t);
      && u.tags.Some? && (u.tags == Some(t.tags) || u.tags == r.tags)
      && (r.tags != Some(t.tags) ==>
            (u.tags == r.tags <==>
              && !t.clearTargetText && r.tags.Some? && r.tags.value != []
              && (t.tags == [] || (t.target.None? && t.ageGroup.None? && !HasBound(t.minAge, t.maxAge)))))
      && u.withParent.Some?
      && (u.withParent.value <==> t.withParent || (!t.clearTargetText && r.withParent == Some(true)))
      && (u.prefixRemoved != r.prefixRemoved ==> u.prefixRemoved == t.prefixRemoved)
      && (t.prefixRemoved.Some? ==> u.prefixRemoved == t.prefixRemoved)
  {
  }

  lemma {:induction false} BtrimTwice(s: string)
    ensures Btrim(Btrim(s)) == Btrim(s)
    decreases |s|
  {
    if s != "" {
      if s[0] == ' ' { BtrimTwice(s[1..]); }
      else if s[|s| - 1] == ' ' { BtrimTwice(s[..|s| - 1]); }
    }
  }

  /** A reversed range is repaired with bounds that the result was to clear; a second update would clear them. */
  predicate RepairsWhatItClears(r: Row, t: TitleResult) {
    !Ordered(r.minAge, r.maxAge) && t.target.None? && t.clearAgeBounds && HasBound(t.minAge, t.maxAge)
  }

  /** The row's group is kept for its bounds, which are cleared with the target text; a second update replaces it. */
  predicate KeepsGroupOfClearedBounds(r: Row, t: TitleResult) {
    && !ExplicitValid(r) && Ordered(r.minAge, r.maxAge) && HasBound(r.minAge, r.maxAge)
    && t.clearTargetText && !t.clearAgeBounds && !HasBound(t.minAge, t.maxAge)
    && r.ageGroup.Some? && t.ageGroup.Some? && r.ageGroup != t.ageGroup
  }

  /** A title update is idempotent, except exactly in those two cases, or when it leaves a reversed range of its own. */
  lemma TitleTwice(r: Row, t: TitleResult)
    ensures var u := UpdateTitle(r, t);
      UpdateTitle(u, t) == u <==>
        if !Ordered(u.minAge, u.maxAge) then u.minAge == t.minAge && u.maxAge == t.maxAge && u.ageGroup == t.ageGroup
        else (!RepairsWhatItClears(r, t) || ExplicitValid(u)) && !KeepsGroupOfClearedBounds(r, t)
  {
    if r.target.Some? { BtrimTwice(r.target.value); }
    hide Btrim;
  }

  /** The columns that come from the crawler alone. */
  datatype CrawlerOnly = CrawlerOnly(titleRaw: Option<string>, categoryRaw: Option<string>, description: Option<string>,
                                     imageUrl: Option<string>, contentHash: Option<string>, details: Details,
                                     isActive: Option<bool>, changeDetectedAt: Option<int>)

  function CrawlerOnlyOf(r: Row): CrawlerOnly {
    CrawlerOnly(r.titleRaw, r.categoryRaw, r.description, r.imageUrl, r.contentHash, r.details, r.isActive,
                r.changeDetectedAt)
  }

  /** A run without crawls, however long, leaves them as they were. */
  lemma {:induction false} OnlyCrawlsChangeThem(r: Row, events: seq<Event>)
    requires forall e :: e in events ==> !e.Crawl?
    ensures CrawlerOnlyOf(Run(r, events)) == CrawlerOnlyOf(r)
    decreases |events|
  {
    if events != [] { OnlyCrawlsChangeThem(Apply(r, events[0]), events[1..]); }
  }

  /** Nothing that can happen to a row changes its application dates, so they stay those of its first crawl. */
  lemma {:induction false} ApplyDatesStay(r: Row, events: seq<Event>)
    ensures Run(r, events).applyDates == r.applyDates
    ensures forall c: Crawled :: r == Insert(c) ==> Run(r, events).applyDates == c.applyDates
    decreases |events|
  {
    if events != [] { ApplyDatesStay(Apply(r, events[0]), events[1..]); }
  }

  predicate SameSource(r: Row, c: Crawled) {
    r.titleRaw == c.titleRaw && r.categoryRaw == c.categoryRaw
  }

  predicate SameDescription(r: Row, c: Crawled) {
    c.description.None? || c.description == r.description
  }

  /** A crawl after a summary is a summary after the crawl, unless the crawl calls for a new one. */
  lemma CrawlThenSummary(r: Row, c: Crawled, s: Summary, now: int)
    ensures Upsert(UpdateSummary(r, s), c, now) == UpdateSummary(Upsert(r, c, now), s) <==>
      SameSource(r, c) && SameDescription(r, c)
  {
  }

  /** A reset of the summary undoes any summary. */
  lemma ResetUndoesSummary(r: Row, s: Summary, o: ResetOptions)
    requires o.processSummary
    ensures Reset(UpdateSummary(r, s), o) == Reset(r, o)
  {
  }

  /**
    The fullest reset undoes an AI title exactly when that title removed no other prefix, and either the row has a
    raw title to go back to or the title was not changed.
  */
  lemma ResetUndoesTitle(r: Row, t: TitleResult, summary: bool)
    ensures var o := ResetOptions(true, summary, true, true);
            Reset(UpdateTitle(r, t), o) == Reset(r, o) <==>
              && (t.prefixRemoved.None? || t.prefixRemoved == r.prefixRemoved)
              && (r.titleRaw.Some? || t.title == r.title)
  {
  }

  /** Resetting twice is resetting once. */
  lemma ResetTwice(r: Row, o: ResetOptions)
    ensures Reset(Reset(r, o), o) == Reset(r, o)
  {
  }

  /** The columns in which the crawler and the AI title step take turns. */
  datatype Shared = Shared(title: string, prefixRemoved: Option<string>, target: Option<string>,
                           ageGroup: Option<string>, minAge: Option<int>, maxAge: Option<int>,
                           withParent: Option<bool>, tags: Option<seq<string>>)

  function SharedOf(r: Row): Shared {
    Shared(r.title, r.prefixRemoved, r.target, r.ageGroup, r.minAge, r.maxAge, r.withParent, r.tags)
  }

  /**
    After a reset of the target fields, a crawl restores what a first crawl would have stored, except exactly when
    it has no explicit age and says "with parent" or gives tags: the reset left FALSE and an empty array, not NULL.
  */
  lemma CrawlAfterReset(r: Row, c: Crawled, restoreTitle: bool, summary: bool, now: int)
    ensures var after := Reset(r, ResetOptions(true, summary, restoreTitle, true));
            SharedOf(Upsert(after, c, now)) == SharedOf(Insert(c)) <==>
              c.ageIsExplicit || (!c.withParent && c.tags == [])
  {
  }

  // ---------- the exceptions are reached ----------

  /** A course is crawled, gets an AI title, and moves to another category: the second upsert undoes the first. */
  lemma UpsertTwiceDiffers(c: Crawled, t: TitleResult, category: Option<string>, now: int)
    requires t.title != c.title && category != c.categoryRaw
    ensures var r := Run(Insert(c), [Title(t)]);
            var moved := c.(categoryRaw := category);
            && Run(r, [Crawl(moved, now)]).title == t.title
            && Run(r, [Crawl(moved, now), Crawl(moved, now)]).title == c.title
  {
    var r := Run(Insert(c), [Title(t)]);
    var moved := c.(categoryRaw := category);
    assert r == UpdateTitle(Insert(c), t);
    var once := Upsert(r, moved, now);
    assert Run(r, [Crawl(moved, now)]) == once;
    assert [Crawl(moved, now), Crawl(moved, now)][1..] == [Crawl(moved, now)];
    assert Run(once, [Crawl(moved, now)]) == Upsert(once, moved, now);
  }

  const FULL_RESET := ResetOptions(true, true, true, true)

  /** A course is crawled and gets an AI title that removes a prefix: the prefix is still there after a full reset. */
  lemma PrefixOutlivesReset(c: Crawled, t: TitleResult)
    requires t.prefixRemoved.Some? && t.prefixRemoved != c.prefixRemoved
    ensures Run(Insert(c), [Title(t), ResetRow(FULL_RESET)]).prefixRemoved == t.prefixRemoved
    ensures Run(Insert(c), [ResetRow(FULL_RESET)]).prefixRemoved == c.prefixRemoved
  {
    assert [Title(t), ResetRow(FULL_RESET)][1..] == [ResetRow(FULL_RESET)];
    var titled := UpdateTitle(Insert(c), t);
    assert Run(titled, [ResetRow(FULL_RESET)]) == Reset(titled, FULL_RESET);
    assert Run(Insert(c), [ResetRow(FULL_RESET)]) == Reset(Insert(c), FULL_RESET);
  }

  /** A course for parent and child is crawled, reset and crawled again: it is no longer for parent and child. */
  lemma ParentIsLost(c: Crawled, now: int)
    requires c.withParent && !c.ageIsExplicit
    ensures Insert(c).withParent == Some(true)
    ensures Run(Insert(c), [ResetRow(FULL_RESET), Crawl(c, now)]).withParent == Some(false)
  {
    assert [ResetRow(FULL_RESET), Crawl(c, now)][1..] == [Crawl(c, now)];
    var after := Reset(Insert(c), FULL_RESET);
    assert Run(after, [Crawl(c, now)]) == Upsert(after, c, now);
  }
}
