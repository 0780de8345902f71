/** Which courses still need AI work, and the worker cycle that works them off. */
module CourseQueue {
  import opened Prelude
  import opened CourseRow

  datatype Id = Id(n: int)

  /** The options process_title and process_summary. */
  datatype Tasks = Tasks(title: bool, summary: bool)

  /** course_needs_ai_work */
  predicate NeedsAiWork(r: Row, tasks: Tasks) {
    if tasks.summary && !IsTrue(r.isAiProcessed) then true
    else if tasks.title && !IsTrue(r.aiTitleProcessed)
    then (if r.aiTitleResult.Some? then r.aiTitleResult.value.source else "") != UNCHANGED
    else false
  }

  /** The WHERE clause of fetch_unprocessed_courses: its conditions joined by OR, or FALSE when there are none. */
  predicate Selected(r: Row, tasks: Tasks) {
    var source := if r.aiTitleResult.Some? then Some(r.aiTitleResult.value.source) else None;
    var conditions :=
      (if tasks.summary then [!IsTrue(r.isAiProcessed)] else [])
      + (if tasks.title then [!IsTrue(r.aiTitleProcessed) && Coalesce(source, Some("")) != Some(UNCHANGED)] else []);
    true in conditions && r.isActive != Some(false)
  }

  /** The fetch filter selects exactly the active rows that need AI work. */
  lemma FilterIsNeed(r: Row, tasks: Tasks)
    ensures Selected(r, tasks) <==> r.isActive != Some(false) && NeedsAiWork(r, tasks)
  {
  }

  /** What the two analyses of one call return; None for an analysis that failed. */
  datatype Answers = Answers(title: Option<TitleResult>, summary: Option<Summary>)

  /** title_ai_changed */
  type Comparison = (Row, TitleResult) -> bool

  function AfterTitle(r: Row, tasks: Tasks, a: Answers, changed: Comparison): Row {
    if tasks.title && !IsTrue(r.aiTitleProcessed) && a.title.Some?
    then (if changed(r, a.title.value) then UpdateTitle(r, a.title.value) else MarkUnchanged(r, a.title.value))
    else r
  }

  /** The row that _process_locked_course leaves behind. */
  function Processed(r: Row, tasks: Tasks, a: Answers, changed: Comparison): Row {
    var t := AfterTitle(r, tasks, a, changed);
    if tasks.summary && !IsTrue(r.isAiProcessed) && a.summary.Some? then UpdateSummary(t, a.summary.value) else t
  }

  /** The columns of a title and of what it says of its audience. */
  datatype TitleColumns = TitleColumns(title: string, prefix: Option<string>, target: Option<string>,
                                       ageGroup: Option<string>, minAge: Option<int>, maxAge: Option<int>,
                                       withParent: Option<bool>, tags: Option<seq<string>>)

  function TitleColumnsOf(r: Row): TitleColumns {
    TitleColumns(r.title, r.prefixRemoved, r.target, r.ageGroup, r.minAge, r.maxAge, r.withParent, r.tags)
  }

  predicate NeedsTitle(r: Row, tasks: Tasks) {
    tasks.title && !IsTrue(r.aiTitleProcessed)
  }

  predicate NeedsSummary(r: Row, tasks: Tasks) {
    tasks.summary && !IsTrue(r.isAiProcessed)
  }

  /**
    A title that was needed and answered is stored if it changes anything; if not, the row only remembers that it
    changes nothing. Without an answer the row keeps its title, its flag and its stored result.
  */
  lemma AnsweredTitle(r: Row, tasks: Tasks, a: Answers, changed: Comparison)
    ensures var p := Processed(r, tasks, a, changed);
      && (NeedsTitle(r, tasks) && a.title.Some? && changed(r, a.title.value) ==>
            && p.title == a.title.value.title && p.aiTitleProcessed == Some(true)
            && p.aiTitleResult == Some(a.title.value.stored) && p.aiTitleConfidence == a.title.value.confidence)
      && (NeedsTitle(r, tasks) && a.title.Some? && !changed(r, a.title.value) ==>
            && TitleColumnsOf(p) == TitleColumnsOf(r) && p.aiTitleProcessed == Some(false)
            && p.aiTitleResult.Some? && p.aiTitleResult.value.source == UNCHANGED
            && p.aiTitleResult.value.cleanTitle == a.title.value.title
            && p.aiTitleConfidence == a.title.value.confidence)
      && (!NeedsTitle(r, tasks) || a.title.None? ==>
            && TitleColumnsOf(p) == TitleColumnsOf(r) && p.aiTitleProcessed == r.aiTitleProcessed
            && p.aiTitleResult == r.aiTitleResult && p.aiTitleConfidence == r.aiTitleConfidence)
  {
  }

  /** A summary that was needed and answered is stored; without one the row keeps what it had. */
  lemma AnsweredSummary(r: Row, tasks: Tasks, a: Answers, changed: Comparison)
    ensures var p := Processed(r, tasks, a, changed);
      if NeedsSummary(r, tasks) && a.summary.Some?
      then
        && p.aiCategory == Some(a.summary.value.category) && p.aiTags == Some(a.summary.value.tags)
        && p.aiSummary == Some(a.summary.value.summary)
        && p.isAiProcessed == Some(true)
      else
        p.aiCategory == r.aiCategory && p.aiTags == r.aiTags && p.aiSummary == r.aiSummary
        && p.isAiProcessed == r.isAiProcessed
  {
  }

  /** A course counts as worked when the flag that was asked for last is now set, and was not before. */
  lemma WorkedIsSeen(r: Row, tasks: Tasks, a: Answers, changed: Comparison)
    ensures var p := Processed(r, tasks, a, changed);
      Worked(r, tasks, a, changed) <==>
        if NeedsSummary(r, tasks) then IsTrue(p.isAiProcessed)
        else NeedsTitle(r, tasks) && IsTrue(p.aiTitleProcessed)
  {
  }

  /** Only a course whose summary failed has to wait, until `at`; no other course is concerned. */
  lemma OnlyFailuresWait(retry: map<Id, int>, id: Id, r: Row, tasks: Tasks, a: Answers, at: int)
    ensures var next := RetryAfter(retry, id, r, tasks, a, at);
      && (id in next <==> NeedsSummary(r, tasks) && a.summary.None?) && (id in next ==> next[id] == at)
      && (forall i :: i != id ==> (i in next <==> i in retry) && (i in retry ==> next[i] == retry[i]))
  {
  }

  datatype Task = TitleTask | SummaryTask

  /** The work of one row that a fetch would still find. */
  function Pending(r: Row, tasks: Tasks): set<Task> {
    if r.isActive == Some(false) then {}
    else
      (if tasks.summary && !IsTrue(r.isAiProcessed) then {SummaryTask} else {})
      + (if tasks.title && !IsTrue(r.aiTitleProcessed)
            && (r.aiTitleResult.None? || r.aiTitleResult.value.source != UNCHANGED) then {TitleTask} else {})
  }

  lemma PendingIsSelected(r: Row, tasks: Tasks)
    ensures Selected(r, tasks) <==> Pending(r, tasks) != {}
  {
  }

  /**
    Processing never adds work, and each analysis that returns takes its own task away; so a row is finished
    once every analysis it needed has returned.
  */
  lemma ProcessingShrinks(r: Row, tasks: Tasks, a: Answers, changed: Comparison)
    ensures var p := Pending(Processed(r, tasks, a, changed), tasks);
            && p <= Pending(r, tasks)
            && (SummaryTask in p <==> SummaryTask in Pending(r, tasks) && a.summary.None?)
            && (TitleTask in p <==> TitleTask in Pending(r, tasks) && a.title.None?)
  {
  }

  lemma AnsweredIsDone(r: Row, tasks: Tasks, a: Answers, changed: Comparison)
    requires a.title.Some? && a.summary.Some?
    ensures !Selected(Processed(r, tasks, a, changed), tasks)
  {
  }

  function SelectedIds(rows: map<Id, Row>, tasks: Tasks): set<Id> {
    set id | id in rows && Selected(rows[id], tasks)
  }

  /** Ran to its end: some analysis of this call is counted as work. */
  predicate Worked(r: Row, tasks: Tasks, a: Answers, changed: Comparison) {
    if tasks.summary && !IsTrue(r.isAiProcessed) then a.summary.Some?
    else tasks.title && !IsTrue(r.aiTitleProcessed) && a.title.Some? && changed(r, a.title.value)
  }

  /** retry_state after a course was processed: only a failed summary makes it wait. */
  function RetryAfter(retry: map<Id, int>, id: Id, r: Row, tasks: Tasks, a: Answers, at: int): map<Id, int> {
    if tasks.summary && !IsTrue(r.isAiProcessed) && a.summary.None? then retry[id := at] else retry - {id}
  }

  /**
    Where a drain stands: `calls` are the courses processed so far, each once and each from the row it had at the
    start, and the courses still selected are exactly the others that were selected at the start.
  */
  ghost predicate Draining(start: map<Id, Row>, rows: map<Id, Row>, calls: seq<Id>, tasks: Tasks,
                           answers: (nat, Id) -> Answers, changed: Comparison) {
    && rows.Keys == start.Keys
    && NoDuplicates(calls)
    && (forall id :: id in calls ==> id in SelectedIds(start, tasks) && id !in SelectedIds(rows, tasks))
    && (forall id :: id in SelectedIds(start, tasks) && id !in calls ==> id in SelectedIds(rows, tasks))
    && (forall id :: id in rows && id !in calls ==> rows[id] == start[id])
    && (forall k :: 0 <= k < |calls| ==>
          calls[k] in rows && rows[calls[k]] == Processed(start[calls[k]], tasks, answers(k, calls[k]), changed))
  }

  lemma DrainStep(start: map<Id, Row>, rows: map<Id, Row>, calls: seq<Id>, tasks: Tasks,
                  answers: (nat, Id) -> Answers, changed: Comparison, id: Id)
    requires Draining(start, rows, calls, tasks, answers, changed) && id in SelectedIds(rows, tasks)
    requires forall k, i :: answers(k, i).title.Some? && answers(k, i).summary.Some?
    ensures var next := rows[id := Processed(rows[id], tasks, answers(|calls|, id), changed)];
            && Draining(start, next, calls + [id], tasks, answers, changed)
            && SelectedIds(next, tasks) == SelectedIds(rows, tasks) - {id}
  {
    hide Processed, Selected;
    var next := rows[id := Processed(rows[id], tasks, answers(|calls|, id), changed)];
    AnsweredIsDone(rows[id], tasks, answers(|calls|, id), changed);
    SnocNoDuplicates(calls, id);
    assert forall i :: i in rows && i != id ==> (i in SelectedIds(next, tasks) <==> i in SelectedIds(rows, tasks));
    assert forall i :: i in calls + [id] <==> i in calls || i == id;
  }

  /** The courses table as one worker sees it, together with that worker's retry_state. */
  class CourseTable {
    const changed: Comparison
    var rows: map<Id, Row>
    var retryAt: map<Id, int>

    constructor (changed: Comparison)
      ensures rows == map[] && retryAt == map[] && this.changed == changed
    {
      this.changed := changed;
      rows, retryAt := map[], map[];
    }

    /** save_course; an expired course is not saved. */
    method SaveCourse(id: Id, course: Crawled, expired: bool, now: int) returns (saved: bool)
      modifies this`rows
      ensures saved <==> !expired
      ensures rows == if expired then old(rows)
                      else old(rows)[id := if id in old(rows) then Upsert(old(rows)[id], course, now)
                                           else Insert(course)]
    {
      if expired { return false; }
      saved := true;
      if id in rows {
        rows := rows[id := Upsert(rows[id], course, now)];
      } else {
        rows := rows[id := Insert(course)];
      }
    }

    /** reset_ai_processing on the rows its WHERE clause and LIMIT pick. */
    method ResetAiProcessing(picked: set<Id>, options: ResetOptions, dryRun: bool) returns (count: nat)
      modifies this`rows
      ensures rows == map id | id in old(rows) ::
                if id in picked && !dryRun then Reset(old(rows)[id], options) else old(rows)[id]
      ensures count == |picked * old(rows).Keys|
    {
      count := |picked * rows.Keys|;
      if dryRun { return; }
      rows := map id | id in rows :: if id in picked then Reset(rows[id], options) else rows[id];
    }

    /** fetch_unprocessed_courses; the ORDER BY is left open. */
    method FetchUnprocessed(limit: nat, tasks: Tasks) returns (ids: seq<Id>)
      ensures NoDuplicates(ids) && |ids| <= limit
      ensures forall id :: id in ids ==> id in SelectedIds(rows, tasks)
      ensures |ids| < limit ==> ToSet(ids) == SelectedIds(rows, tasks)
    {
      ids := [];
      var left := SelectedIds(rows, tasks);
      while left != {} && |ids| < limit
        invariant NoDuplicates(ids) && |ids| <= limit
        invariant forall id :: id in SelectedIds(rows, tasks) <==> id in ids || id in left
        invariant forall id :: id in ids ==> id !in left
        decreases left
      {
        var id :| id in left;
        SnocNoDuplicates(ids, id);
        ids, left := ids + [id], left - {id};
      }
    }

    predicate InRetryWindow(id: Id, now: int)
      reads this
    {
      id in retryAt && retryAt[id] != 0 && retryAt[id] > now
    }

    /**
      process_course. The clock reads `now` when the retry window is checked and `later` when a failure is noted;
      `locked` says whether the advisory lock was free.
    */
    method ProcessCourse(id: Id, tasks: Tasks, a: Answers, locked: bool, now: int, later: int, wait: int)
      returns (worked: bool)
      modifies this
      ensures rows == (if locked && id in old(rows) && Selected(old(rows)[id], tasks) && !old(InRetryWindow(id, now))
                       then old(rows)[id := Processed(old(rows)[id], tasks, a, changed)]
                       else old(rows))
      ensures worked <==> locked && id in old(rows) && Selected(old(rows)[id], tasks) && !old(InRetryWindow(id, now))
                          && Worked(old(rows)[id], tasks, a, changed)
      ensures retryAt == (if !locked || old(InRetryWindow(id, now)) || id !in old(rows)
                             || old(rows)[id].isActive == Some(false)
                          then old(retryAt)
                          else if !Selected(old(rows)[id], tasks) then old(retryAt) - {id}
                          else RetryAfter(old(retryAt), id, old(rows)[id], tasks, a, later + wait))
    {
      if InRetryWindow(id, now) { return false; }
      if !locked { return false; }
      if id !in rows || rows[id].isActive == Some(false) {
        return false;
      }
      var read := rows[id];
      FilterIsNeed(read, tasks);
      if !NeedsAiWork(read, tasks) {
        retryAt := retryAt - {id};
        return false;
      }
      worked := false;
      if tasks.title && !IsTrue(read.aiTitleProcessed) && a.title.Some? {
        if changed(read, a.title.value) {
          rows := rows[id := UpdateTitle(rows[id], a.title.value)];
          worked := true;
        } else {
          rows := rows[id := MarkUnchanged(rows[id], a.title.value)];
        }
      }
      if !tasks.summary || IsTrue(read.isAiProcessed) {
        retryAt := retryAt - {id};
        return;
      }
      if a.summary.None? {
        retryAt := retryAt[id := later + wait];
        return false;
      }
      rows := rows[id := UpdateSummary(rows[id], a.summary.value)];
      retryAt := retryAt - {id};
      worked := true;
    }

    /**
      The worker's cycles, with nothing else writing to the table: fetch a batch, process it, until a fetch comes
      back empty. `answers(k, id)` is what the analyses return on the k-th processed course.
    */
    method Drain(limit: nat, tasks: Tasks, answers: (nat, Id) -> Answers, now: int, wait: int)
      returns (calls: seq<Id>)
      requires limit >= 1 && retryAt == map[]
      requires forall k, id :: answers(k, id).title.Some? && answers(k, id).summary.Some?
      modifies this
      ensures SelectedIds(rows, tasks) == {}
      ensures NoDuplicates(calls) && ToSet(calls) == SelectedIds(old(rows), tasks)
      ensures rows.Keys == old(rows).Keys
      ensures forall k :: 0 <= k < |calls| ==>
        calls[k] in rows && rows[calls[k]] == Processed(old(rows)[calls[k]], tasks, answers(k, calls[k]), changed)
      ensures forall id :: id in rows && id !in calls ==> rows[id] == old(rows)[id]
    {
      calls := [];
      var batch := FetchUnprocessed(limit, tasks);
      while batch != []
        invariant retryAt == map[] && NoDuplicates(batch)
        invariant Draining(old(rows), rows, calls, tasks, answers, changed)
        invariant forall id :: id in batch ==> id in SelectedIds(rows, tasks)
        invariant batch == [] ==> SelectedIds(rows, tasks) == {}
        decreases SelectedIds(rows, tasks)
      {
        ghost var before := SelectedIds(rows, tasks);
        var i := 0;
        while i < |batch|
          invariant 0 <= i <= |batch| && retryAt == map[]
          invariant Draining(old(rows), rows, calls, tasks, answers, changed)
          invariant forall j :: i <= j < |batch| ==> batch[j] in SelectedIds(rows, tasks)
          invariant SelectedIds(rows, tasks) <= before
          invariant i > 0 ==> batch[0] !in SelectedIds(rows, tasks)
        {
          DrainStep(old(rows), rows, calls, tasks, answers, changed, batch[i]);
          var worked := ProcessCourse(batch[i], tasks, answers(|calls|, batch[i]), true, now, now, wait);
          calls := calls + [batch[i]];
          i := i + 1;
        }
        batch := FetchUnprocessed(limit, tasks);
      }
    }
  }
}
