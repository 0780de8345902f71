/** What every run of the five row statements keeps, and exactly when it is kept. */
module RowRuns {
  import opened Prelude
  import opened CourseRow

  datatype Event =
    | Crawl(course: Crawled, now: int)
    | Title(result: TitleResult)
    | Unchanged(result: TitleResult)
    | Summarize(summary: Summary)
    | ResetRow(options: ResetOptions)

  function Apply(r: Row, e: Event): Row {
    match e
    case Crawl(c, now) => Upsert(r, c, now)
    case Title(t) => UpdateTitle(r, t)
    case Unchanged(t) => MarkUnchanged(r, t)
    case Summarize(s) => UpdateSummary(r, s)
    case ResetRow(o) => Reset(r, o)
  }

  function Run(r: Row, events: seq<Event>): Row
    decreases |events|
  {
    if events == [] then r else Run(Apply(r, events[0]), events[1..])
  }

  // ---------- age ranges ----------

  datatype Range = Range(min: Option<int>, max: Option<int>)

  datatype Age = Age(min: Option<int>, max: Option<int>, isExplicit: bool)

  /** _ordered_age_bounds, which explicit_age_month_range applies to whatever its patterns matched. */
  function OrderedBounds(r: Range): Range {
    if r.min.Some? && r.max.Some? && r.min.value > r.max.value then Range(r.max, r.min) else r
  }

  /** The age part of normalize_course; the three ranges are what the patterns found in the three texts. */
  function NormalizedAge(source: Range, rowAge: Range, schedule: Range, adultGroup: bool): Age {
    var parsed := OrderedBounds(source);
    var row := OrderedBounds(rowAge);
    var fromSchedule := OrderedBounds(schedule);
    var age :=
      if HasBound(row.min, row.max) then Age(row.min, row.max, true)
      else if HasBound(fromSchedule.min, fromSchedule.max) then Age(fromSchedule.min, fromSchedule.max, true)
      else if HasBound(parsed.min, parsed.max) then Age(parsed.min, parsed.max, true)
      else Age(None, None, false);
    var above := (b: Option<int>) => b.Some? && b.value > 150;
    if adultGroup && !age.isExplicit && (above(age.min) || above(age.max)) then Age(None, None, false) else age
  }

  predicate GoodAge(min: Option<int>, max: Option<int>, isExplicit: bool) {
    Ordered(min, max) && (isExplicit <==> HasBound(min, max))
  }

  /** A crawler's age range is ordered, and it is marked explicit exactly when it has a bound. */
  lemma NormalizedAgeIsGood(source: Range, rowAge: Range, schedule: Range, adultGroup: bool)
    ensures var a := NormalizedAge(source, rowAge, schedule, adultGroup);
            GoodAge(a.min, a.max, a.isExplicit)
  {
  }

  /** The two bounds, possibly exchanged. */
  predicate SameBounds(a: Age, r: Range) {
    (a.min == r.min && a.max == r.max) || (a.min == r.max && a.max == r.min)
  }

  /** They come from the row's own text, else from the schedule, else from the course's; adults make no difference. */
  lemma AgeComesFrom(source: Range, rowAge: Range, schedule: Range, adultGroup: bool)
    ensures var a := NormalizedAge(source, rowAge, schedule, adultGroup);
      && (HasBound(rowAge.min, rowAge.max) ==> SameBounds(a, rowAge))
      && (!HasBound(rowAge.min, rowAge.max) && HasBound(schedule.min, schedule.max) ==> SameBounds(a, schedule))
      && (!HasBound(rowAge.min, rowAge.max) && !HasBound(schedule.min, schedule.max) ==> SameBounds(a, source))
      && a == NormalizedAge(source, rowAge, schedule, !adultGroup)
  {
  }

  /** A title result that cannot mix one of its bounds with one of the row's. */
  predicate SafeTitle(t: TitleResult) {
    if t.target.Some? && HasBound(t.minAge, t.maxAge) then Ordered(t.minAge, t.maxAge)
    else
      t.clearAgeBounds
      || (Ordered(t.minAge, t.maxAge) && ((t.minAge.Some? <==> t.maxAge.Some?) || t.clearTargetText))
  }

  /** The title results that keep every ordered row ordered are exactly the safe ones. */
  lemma SafeTitleExactly(t: TitleResult)
    ensures SafeTitle(t) <==>
      forall r: Row :: Ordered(r.minAge, r.maxAge) ==>
        Ordered(UpdateTitle(r, t).minAge, UpdateTitle(r, t).maxAge)
  {
    if !SafeTitle(t) {
      var r := Insert(Crawled("", None, None, None, None,
                              if t.maxAge.Some? && t.minAge.None? then Some(t.maxAge.value + 1) else None,
                              if t.minAge.Some? && t.maxAge.None? then Some(t.minAge.value - 1) else None,
                              false, [], false, None, None, None, None, Details(""), ApplyDates("")));
      assert Ordered(r.minAge, r.maxAge) && !Ordered(UpdateTitle(r, t).minAge, UpdateTitle(r, t).maxAge);
    }
  }

  /** A reversed row is repaired by a title update exactly when the result itself is ordered. */
  lemma TitleRepairs(r: Row, t: TitleResult)
    requires !Ordered(r.minAge, r.maxAge)
    ensures Ordered(UpdateTitle(r, t).minAge, UpdateTitle(r, t).maxAge) <==> Ordered(t.minAge, t.maxAge)
    ensures UpdateTitle(r, t).minAge == t.minAge && UpdateTitle(r, t).maxAge == t.maxAge
  {
  }

  predicate GoodAgeEvent(e: Event) {
    match e
    case Crawl(c, _) => GoodAge(c.minAge, c.maxAge, c.ageIsExplicit)
    case Title(t) => SafeTitle(t) && Ordered(t.minAge, t.maxAge)
    case _ => true
  }

  lemma StepKeepsAge(r: Row, e: Event)
    requires GoodAgeEvent(e)
    ensures Ordered(r.minAge, r.maxAge) || e.Title? ==>
      Ordered(Apply(r, e).minAge, Apply(r, e).maxAge)
  {
  }

  /**
    Over every run an ordered range stays ordered; and a range that was reversed to begin with is ordered from
    the first title update on.
  */
  lemma {:induction false} AgeOverRuns(r: Row, events: seq<Event>)
    requires forall e :: e in events ==> GoodAgeEvent(e)
    ensures Ordered(r.minAge, r.maxAge) || (exists e :: e in events && e.Title?) ==>
      Ordered(Run(r, events).minAge, Run(r, events).maxAge)
    decreases |events|
  {
    if events != [] {
      StepKeepsAge(r, events[0]);
      AgeOverRuns(Apply(r, events[0]), events[1..]);
      assert forall e :: e in events <==> e == events[0] || e in events[1..];
    }
  }

  /** Neither a crawl nor a reset of the target fields. */
  predicate LeavesTarget(e: Event) {
    !e.Crawl? && !(e.ResetRow? && e.options.processTitle && e.options.resetTarget)
  }

  /** A valid explicit range keeps its target, group and bounds until the next crawl or target reset. */
  lemma {:induction false} ExplicitRangeSurvives(r: Row, events: seq<Event>)
    requires ExplicitValid(r) && forall e :: e in events ==> LeavesTarget(e)
    ensures var s := Run(r, events);
            && s.target == r.target && s.ageGroup == r.ageGroup
            && s.minAge == r.minAge && s.maxAge == r.maxAge && s.ageIsExplicit == r.ageIsExplicit
    decreases |events|
  {
    if events != [] {
      assert LeavesTarget(events[0]);
      ExplicitRangeSurvives(Apply(r, events[0]), events[1..]);
    }
  }

  // ---------- titles ----------

  function Take(s: string, n: nat): string {
    if |s| <= n then s else s[..n]
  }

  /**
    A processed title is backed by a stored result about the row's current raw title and category, and it is
    that result's title.
  */
  ghost predicate TitleBacked(r: Row) {
    IsTrue(r.aiTitleProcessed) ==>
      && r.aiTitleResult.Some?
      && r.aiTitleResult.value.sourceTitleRaw == r.titleRaw
      && r.aiTitleResult.value.sourceCategoryRaw == r.categoryRaw
      && r.title == Take(r.aiTitleResult.value.cleanTitle, 255)
  }

  ghost predicate SummaryBacked(r: Row) {
    IsTrue(r.isAiProcessed) ==> r.aiCategory.Some? && r.aiTags.Some? && r.aiSummary.Some?
  }

  /** t is what the AI title step returns for a course as it was read. */
  predicate ComputedFrom(t: TitleResult, read: Row) {
    && t.stored.sourceTitleRaw == read.titleRaw
    && t.stored.sourceCategoryRaw == read.categoryRaw
    && t.title == Take(t.stored.cleanTitle, 255)
  }

  /** `derives(raw, title)`: the title may be displayed for a course whose raw title is `raw`. */
  type Derivation = (Option<string>, string) -> bool

  ghost predicate GoodTitleEvent(r: Row, e: Event, derives: Derivation) {
    match e
    case Crawl(c, _) => derives(c.titleRaw, c.title)
    case Title(t) => ComputedFrom(t, r) && derives(r.titleRaw, t.title)
    case ResetRow(o) => r.titleRaw.Some? ==> derives(r.titleRaw, r.titleRaw.value)
    case _ => true
  }

  /** Every AI title step of the run was computed from the row it was written to. */
  ghost predicate AtomicRun(r: Row, events: seq<Event>, derives: Derivation)
    decreases |events|
  {
    events == [] || (GoodTitleEvent(r, events[0], derives) && AtomicRun(Apply(r, events[0]), events[1..], derives))
  }

  ghost predicate Backed(r: Row, derives: Derivation) {
    TitleBacked(r) && SummaryBacked(r) && derives(r.titleRaw, r.title)
  }

  lemma StepKeepsBacked(r: Row, e: Event, derives: Derivation)
    requires Backed(r, derives) && GoodTitleEvent(r, e, derives)
    ensures Backed(Apply(r, e), derives)
  {
  }

  /**
    With atomic title steps, the displayed title is at all times derived from the current raw title, and the
    processed flags are backed by stored results.
  */
  lemma {:induction false} BackedOverRuns(r: Row, events: seq<Event>, derives: Derivation)
    requires Backed(r, derives) && AtomicRun(r, events, derives)
    ensures Backed(Run(r, events), derives)
    decreases |events|
  {
    if events != [] {
      StepKeepsBacked(r, events[0], derives);
      BackedOverRuns(Apply(r, events[0]), events[1..], derives);
    }
  }

  /** A course that was just inserted starts a run. */
  lemma InsertIsBacked(c: Crawled, derives: Derivation)
    requires derives(c.titleRaw, c.title) && GoodAge(c.minAge, c.maxAge, c.ageIsExplicit)
    ensures Backed(Insert(c), derives) && Ordered(Insert(c).minAge, Insert(c).maxAge)
  {
  }

  datatype Source = Source(titleRaw: Option<string>, categoryRaw: Option<string>)

  /** The raw title and category that the events leave behind: those of the last crawl. */
  function LastSource(start: Source, events: seq<Event>): Source
    decreases |events|
  {
    if events == [] then start
    else LastSource(if events[0].Crawl? then Source(events[0].course.titleRaw, events[0].course.categoryRaw) else start,
                    events[1..])
  }

  lemma {:induction false} RunLeavesLastSource(r: Row, events: seq<Event>)
    ensures var s := Run(r, events);
            Source(s.titleRaw, s.categoryRaw) == LastSource(Source(r.titleRaw, r.categoryRaw), events)
    decreases |events|
  {
    if events != [] { RunLeavesLastSource(Apply(r, events[0]), events[1..]); }
  }

  /**
    The upsert takes no lock, so it can run between the read and the write of a title step. The title that is
    then written is backed exactly when the last such crawl carried the raw title and category that were read.
  */
  lemma SplitTitleStep(read: Row, between: seq<Event>, t: TitleResult)
    requires ComputedFrom(t, read)
    ensures TitleBacked(UpdateTitle(Run(read, between), t)) <==>
      LastSource(Source(read.titleRaw, read.categoryRaw), between) == Source(read.titleRaw, read.categoryRaw)
  {
    RunLeavesLastSource(read, between);
  }

  /** A crawl of the same raw title and category, or a summary. */
  predicate SameCourse(e: Event, source: Source) {
    e.Summarize? || (e.Crawl? && e.course.titleRaw == source.titleRaw && e.course.categoryRaw == source.categoryRaw)
  }

  /** A stale title is not repaired by crawling the same course again, however often. */
  lemma {:induction false} StaleTitleStays(r: Row, events: seq<Event>)
    requires IsTrue(r.aiTitleProcessed)
    requires forall e :: e in events ==> SameCourse(e, Source(r.titleRaw, r.categoryRaw))
    ensures var s := Run(r, events);
            s.title == r.title && s.aiTitleProcessed == r.aiTitleProcessed && s.aiTitleResult == r.aiTitleResult
    decreases |events|
  {
    if events != [] {
      assert SameCourse(events[0], Source(r.titleRaw, r.categoryRaw));
      StaleTitleStays(Apply(r, events[0]), events[1..]);
    }
  }

  // ---------- the upsert applied twice ----------

  /** The AI title is kept by this upsert, which takes away the flag that keeps it. */
  predicate TitleOutlivesItsFlag(r: Row, c: Crawled) {
    IsTrue(r.aiTitleProcessed) && r.titleRaw == c.titleRaw && r.categoryRaw != c.categoryRaw
  }

  predicate CrawlerDisagrees(r: Row, c: Crawled) {
    r.title != c.title || r.prefixRemoved != c.prefixRemoved
    || (r.target != c.target && !(c.ageIsExplicit && c.target.Some?))
  }

  /**
    The same upsert applied twice equals one, change timestamp included, except exactly when an AI title
    outlives its flag and differs from the crawler's.
  */
  lemma UpsertTwice(r: Row, c: Crawled, first: int, second: int)
    ensures Upsert(Upsert(r, c, first), c, second) == Upsert(r, c, first) <==>
      !(TitleOutlivesItsFlag(r, c) && CrawlerDisagrees(r, c))
    ensures TitleOutlivesItsFlag(r, c) ==>
      Upsert(r, c, first).title == r.title && Upsert(Upsert(r, c, first), c, second).title == c.title
  {
  }

  /** A third application never changes anything. */
  lemma UpsertThrice(r: Row, c: Crawled, first: int, second: int, third: int)
    ensures var twice := Upsert(Upsert(r, c, first), c, second);
            Upsert(twice, c, third) == twice
  {
  }
}
