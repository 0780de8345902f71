/**
  One row of the courses table and the five statements that change it: the crawler's upsert, the AI title
  update, the "unchanged" mark, the AI summary update and the reset. As in SQL, every right-hand side of an
  UPDATE reads the old row. None is NULL.
*/
module CourseRow {
  import opened Prelude

  // ai_title_result: the parts of the stored JSON that later code or a reader relies on.
  datatype Stored = Stored(source: string, cleanTitle: string,
                           sourceTitleRaw: Option<string>, sourceCategoryRaw: Option<string>)

  // Columns the upsert always overwrites and nothing else touches: branch, fees, dates, schedule, status, url.
  datatype Details = Details(text: string)

  // apply_start and apply_end, which the INSERT writes and the upsert does not mention.
  datatype ApplyDates = ApplyDates(text: string)

  datatype Row = Row(
    title: string,
    titleRaw: Option<string>,
    prefixRemoved: Option<string>,
    target: Option<string>,
    ageGroup: Option<string>,
    minAge: Option<int>,
    maxAge: Option<int>,
    withParent: Option<bool>,
    tags: Option<seq<string>>,
    ageIsExplicit: Option<bool>,
    categoryRaw: Option<string>,
    description: Option<string>,
    imageUrl: Option<string>,
    contentHash: Option<string>,
    details: Details,
    applyDates: ApplyDates,
    isActive: Option<bool>,
    changeDetectedAt: Option<int>,
    aiCategory: Option<string>,
    aiTags: Option<string>,
    aiSummary: Option<string>,
    isAiProcessed: Option<bool>,
    aiTitleProcessed: Option<bool>,
    aiTitleConfidence: Option<real>,
    aiTitleResult: Option<Stored>)

  /** The course a crawler hands to save_course. */
  datatype Crawled = Crawled(
    title: string,
    titleRaw: Option<string>,
    prefixRemoved: Option<string>,
    target: Option<string>,
    ageGroup: Option<string>,
    minAge: Option<int>,
    maxAge: Option<int>,
    withParent: bool,
    tags: seq<string>,
    ageIsExplicit: bool,
    categoryRaw: Option<string>,
    description: Option<string>,
    imageUrl: Option<string>,
    contentHash: Option<string>,
    details: Details,
    applyDates: ApplyDates)

  /** The result of the AI title step. */
  datatype TitleResult = TitleResult(
    title: string,
    target: Option<string>,
    ageGroup: Option<string>,
    minAge: Option<int>,
    maxAge: Option<int>,
    withParent: bool,
    tags: seq<string>,
    prefixRemoved: Option<string>,
    confidence: Option<real>,
    clearAgeBounds: bool,
    clearTargetText: bool,
    stored: Stored)

  datatype Summary = Summary(category: string, tags: string, summary: string)

  datatype ResetOptions = ResetOptions(processTitle: bool, processSummary: bool,
                                       restoreTitle: bool, resetTarget: bool)

  function IsTrue(b: Option<bool>): bool {
    b == Some(true)  // COALESCE(b, FALSE)
  }

  function Coalesce<T>(a: Option<T>, b: Option<T>): Option<T> {
    if a.Some? then a else b
  }

  /** btrim: strips blanks, and only blanks, from both ends. */
  function Btrim(s: string): string {
    if s == "" then ""
    else if s[0] == ' ' then Btrim(s[1..])
    else if s[|s| - 1] == ' ' then Btrim(s[..|s| - 1])
    else s
  }

  function NullIfBlank(s: Option<string>): Option<string> {
    if s.Some? && Btrim(s.value) != "" then Some(Btrim(s.value)) else None
  }

  predicate HasBound(min: Option<int>, max: Option<int>) {
    min.Some? || max.Some?
  }

  predicate Ordered(min: Option<int>, max: Option<int>) {
    min.None? || max.None? || min.value <= max.value
  }

  /** A valid explicit crawler range, which the title update does not touch. */
  predicate ExplicitValid(r: Row) {
    IsTrue(r.ageIsExplicit) && HasBound(r.minAge, r.maxAge) && Ordered(r.minAge, r.maxAge)
  }

  /** INSERT of a course that was not there before. */
  function Insert(c: Crawled): Row {
    Row(c.title, c.titleRaw, c.prefixRemoved, c.target, c.ageGroup, c.minAge, c.maxAge,
        Some(c.withParent), Some(c.tags), Some(c.ageIsExplicit), c.categoryRaw, c.description, c.imageUrl,
        c.contentHash, c.details, c.applyDates, Some(true), None, None, None, None, None, None, None, None)
  }

  /** ON CONFLICT DO UPDATE of save_course. */
  function Upsert(r: Row, c: Crawled, now: int): Row {
    var keepTitle := IsTrue(r.aiTitleProcessed) && r.titleRaw == c.titleRaw;
    var freshAge := c.ageIsExplicit || IsTrue(r.ageIsExplicit);
    var titleStale := r.titleRaw != c.titleRaw || r.categoryRaw != c.categoryRaw;
    var description := Coalesce(c.description, r.description);
    var summaryStale := titleStale || description != r.description;
    Row(
      title := if keepTitle then r.title else c.title,
      titleRaw := c.titleRaw,
      prefixRemoved := if keepTitle then r.prefixRemoved else c.prefixRemoved,
      target := if c.ageIsExplicit && c.target.Some? then c.target
                else if keepTitle then r.target
                else c.target,
      ageGroup := if freshAge then c.ageGroup else Coalesce(r.ageGroup, c.ageGroup),
      minAge := if freshAge then c.minAge else Coalesce(r.minAge, c.minAge),
      maxAge := if freshAge then c.maxAge else Coalesce(r.maxAge, c.maxAge),
      withParent := if freshAge then Some(c.withParent) else Coalesce(r.withParent, Some(c.withParent)),
      tags := if freshAge then Some(c.tags) else Coalesce(r.tags, Some(c.tags)),
      ageIsExplicit := Some(c.ageIsExplicit),
      categoryRaw := c.categoryRaw,
      description := description,
      imageUrl := Coalesce(c.imageUrl, r.imageUrl),
      contentHash := c.contentHash,
      details := c.details,
      applyDates := r.applyDates,
      isActive := Some(true),
      changeDetectedAt := if r.contentHash != c.contentHash then Some(now) else r.changeDetectedAt,
      aiCategory := if summaryStale then None else r.aiCategory,
      aiTags := if summaryStale then None else r.aiTags,
      aiSummary := if summaryStale then None else r.aiSummary,
      isAiProcessed := if summaryStale then Some(false) else r.isAiProcessed,
      aiTitleProcessed := if titleStale then Some(false) else r.aiTitleProcessed,
      aiTitleConfidence := if titleStale then None else r.aiTitleConfidence,
      aiTitleResult := if titleStale then None else r.aiTitleResult)
  }

  /** update_course_title_ai_data */
  function UpdateTitle(r: Row, t: TitleResult): Row {
    var resultHasBound := HasBound(t.minAge, t.maxAge);
    var reversed := !Ordered(r.minAge, r.maxAge);
    r.(
      title := t.title,
      target := if ExplicitValid(r) then r.target
                else if t.clearTargetText then None
                else if t.target.Some? then t.target
                else Coalesce(NullIfBlank(r.target), t.target),
      ageGroup := if ExplicitValid(r) then r.ageGroup
                  else if t.target.Some? && resultHasBound then t.ageGroup
                  else if reversed then t.ageGroup
                  else if t.clearTargetText && t.ageGroup.None? then None
                  else if t.ageGroup.Some? && (resultHasBound || r.ageGroup.None? || t.clearAgeBounds) then t.ageGroup
                  else if HasBound(r.minAge, r.maxAge) then r.ageGroup
                  else Coalesce(t.ageGroup, r.ageGroup),
      minAge := if ExplicitValid(r) then r.minAge
                else if t.target.Some? && resultHasBound then t.minAge
                else if reversed then t.minAge
                else if t.clearAgeBounds then None
                else if t.clearTargetText && t.minAge.None? then None
                else Coalesce(t.minAge, r.minAge),
      maxAge := if ExplicitValid(r) then r.maxAge
                else if t.target.Some? && resultHasBound then t.maxAge
                else if reversed then t.maxAge
                else if t.clearAgeBounds then None
                else if t.clearTargetText && t.maxAge.None? then None
                else Coalesce(t.maxAge, r.maxAge),
      withParent := Some(if t.clearTargetText then t.withParent else IsTrue(r.withParent) || t.withParent),
      tags := if t.clearTargetText then Some(t.tags)
              else if t.tags != [] && (t.target.Some? || t.ageGroup.Some? || resultHasBound) then Some(t.tags)
              else if r.tags.Some? && r.tags.value != [] then r.tags
              else Some(t.tags),
      prefixRemoved := Coalesce(t.prefixRemoved, r.prefixRemoved),
      aiTitleProcessed := Some(true),
      aiTitleConfidence := t.confidence,
      aiTitleResult := Some(t.stored))
  }

  const UNCHANGED := "title_unchanged"

  /** mark_course_title_ai_unchanged */
  function MarkUnchanged(r: Row, t: TitleResult): Row {
    r.(aiTitleProcessed := Some(false),
       aiTitleConfidence := t.confidence,
       aiTitleResult := Some(t.stored.(source := UNCHANGED, cleanTitle := t.title)))
  }

  /** update_course_ai_data */
  function UpdateSummary(r: Row, s: Summary): Row {
    r.(aiCategory := Some(s.category), aiTags := Some(s.tags), aiSummary := Some(s.summary),
       isAiProcessed := Some(true))
  }

  /** reset_ai_processing, for one of the rows it selects */
  function Reset(r: Row, o: ResetOptions): Row {
    var s := if o.processSummary
             then r.(aiCategory := None, aiTags := None, aiSummary := None, isAiProcessed := Some(false))
             else r;
    if !o.processTitle then s
    else
      var u := s.(aiTitleProcessed := Some(false), aiTitleConfidence := None, aiTitleResult := None,
                  title := if o.restoreTitle && s.titleRaw.Some? then s.titleRaw.value else s.title);
      if !o.resetTarget then u
      else u.(target := None, ageGroup := None, minAge := None, maxAge := None,
              withParent := Some(false), tags := Some([]), ageIsExplicit := Some(false))
  }
}
