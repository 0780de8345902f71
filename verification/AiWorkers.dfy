/**
  Any number of AI workers, crawlers and resets on one courses table. A worker takes a non-blocking advisory lock
  on the hash of a course id, fetches the row again, checks again whether there is work, and then writes; crawlers
  and resets take no lock. One event is one database statement, so events interleave as statements do.
*/
module AiWorkers {
  import opened Prelude
  import opened CourseRow
  import opened CourseQueue
  import RowRuns

  datatype Worker = Worker(n: nat)

  /** Where a worker is in process_course; `read` is the row as the worker fetched it. */
  datatype Phase =
    | Idle
    | Locked(id: Id)
    | Fetched(id: Id, read: Row)  // about to analyse the title
    | Titled(id: Id, read: Row)   // about to analyse the summary

  datatype State = State(rows: map<Id, Row>, locks: map<int, Worker>, phases: map<Worker, Phase>)

  /** hashtext, and the process_title and process_summary options of each worker. */
  datatype World = World(hash: Id -> int, tasks: Worker -> Tasks)

  datatype Event =
    | TryLock(w: Worker, id: Id)
    | Fetch(w: Worker)
    | TitleStep(w: Worker, result: Option<TitleResult>, changed: bool)
    | SummaryStep(w: Worker, summary: Option<Summary>)
    | Fail(w: Worker)  // an exception, in any phase
    | Crawl(id: Id, course: Crawled, now: int)
    | ResetRow(id: Id, options: ResetOptions)
    | Retire(id: Id)
    | Remove(id: Id)

  function PhaseOf(s: State, w: Worker): Phase {
    if w in s.phases then s.phases[w] else Idle
  }

  /** A worker in its phase; an event of another phase cannot happen. */
  predicate Enabled(s: State, e: Event) {
    match e
    case TryLock(w, _) => PhaseOf(s, w).Idle?
    case Fetch(w) => PhaseOf(s, w).Locked?
    case TitleStep(w, _, _) => PhaseOf(s, w).Fetched?
    case SummaryStep(w, _) => PhaseOf(s, w).Titled?
    case Fail(w) => !PhaseOf(s, w).Idle?
    case _ => true
  }

  predicate Acts(e: Event, w: Worker) {
    (e.TryLock? || e.Fetch? || e.TitleStep? || e.SummaryStep? || e.Fail?) && e.w == w
  }

  /** The finally clause of course_ai_lock. */
  function Unlock(world: World, s: State, w: Worker): State
    requires !PhaseOf(s, w).Idle?
  {
    s.(locks := s.locks - {world.hash(PhaseOf(s, w).id)}, phases := s.phases[w := Idle])
  }

  function Update(rows: map<Id, Row>, id: Id, f: Row -> Row): map<Id, Row> {
    if id in rows then rows[id := f(rows[id])] else rows  // UPDATE ... WHERE id = ...
  }

  /** The title statement of the worker, if its step issues one. */
  predicate IssuesTitle(world: World, s: State, e: Event) {
    e.TitleStep? && PhaseOf(s, e.w).Fetched? && e.result.Some?
    && world.tasks(e.w).title && !IsTrue(PhaseOf(s, e.w).read.aiTitleProcessed)
  }

  predicate IssuesSummary(world: World, s: State, e: Event) {
    e.SummaryStep? && PhaseOf(s, e.w).Titled? && e.summary.Some?
    && world.tasks(e.w).summary && !IsTrue(PhaseOf(s, e.w).read.isAiProcessed)
  }

  function Step(world: World, s: State, e: Event): State
    requires Enabled(s, e)
  {
    match e
    case TryLock(w, id) =>
      if world.hash(id) in s.locks then s
      else s.(locks := s.locks[world.hash(id) := w], phases := s.phases[w := Locked(id)])
    case Fetch(w) =>
      var id := PhaseOf(s, w).id;
      if id in s.rows && s.rows[id].isActive != Some(false) && NeedsAiWork(s.rows[id], world.tasks(w))
      then s.(phases := s.phases[w := Fetched(id, s.rows[id])])
      else Unlock(world, s, w)
    case TitleStep(w, result, changed) =>
      var p := PhaseOf(s, w);
      var t := s.(phases := s.phases[w := Titled(p.id, p.read)]);
      if !IssuesTitle(world, s, e) then t
      else if changed then t.(rows := Update(s.rows, p.id, r => UpdateTitle(r, result.value)))
      else t.(rows := Update(s.rows, p.id, r => MarkUnchanged(r, result.value)))
    case SummaryStep(w, summary) =>
      var p := PhaseOf(s, w);
      var t := Unlock(world, s, w);
      if IssuesSummary(world, s, e) then t.(rows := Update(s.rows, p.id, r => UpdateSummary(r, summary.value))) else t
    case Fail(w) => Unlock(world, s, w)
    case Crawl(id, c, now) => s.(rows := s.rows[id := if id in s.rows then Upsert(s.rows[id], c, now) else Insert(c)])
    case ResetRow(id, o) => s.(rows := Update(s.rows, id, r => Reset(r, o)))
    case Retire(id) => s.(rows := Update(s.rows, id, (r: Row) => r.(isActive := Some(false))))
    case Remove(id) => s.(rows := s.rows - {id})
  }

  ghost predicate IsRun(world: World, states: seq<State>, events: seq<Event>) {
    && |states| == |events| + 1
    && (forall k :: 0 <= k < |events| ==> Enabled(states[k], events[k]))
    && (forall k :: 0 <= k < |events| ==> states[k + 1] == Step(world, states[k], events[k]))
  }

  /** The worker tries to lock the course and, with the lock, reads its row. */
  function Begun(world: World, s: State, w: Worker, id: Id): State
    requires PhaseOf(s, w).Idle? && world.hash(id) !in s.locks
  {
    Step(world, Step(world, s, TryLock(w, id)), Fetch(w))
  }

  /** What the worker's steps are when nobody disturbs it: it gets the lock, and leaves when there is no work. */
  function Undisturbed(world: World, s: State, w: Worker, id: Id, a: Answers, changed: Comparison): State
    requires PhaseOf(s, w).Idle? && world.hash(id) !in s.locks
  {
    var fetched := Begun(world, s, w, id);
    if !PhaseOf(fetched, w).Fetched? || id !in s.rows then fetched
    else
      var differs := a.title.Some? && changed(s.rows[id], a.title.value);
      Step(world, Step(world, fetched, TitleStep(w, a.title, differs)), SummaryStep(w, a.summary))
  }

  lemma StartsOnRow(world: World, s: State, w: Worker, id: Id)
    requires PhaseOf(s, w).Idle? && world.hash(id) !in s.locks
    ensures var t := Begun(world, s, w, id);
      if id in s.rows && Selected(s.rows[id], world.tasks(w))
      then
        && PhaseOf(t, w) == Fetched(id, s.rows[id])
        && t.rows == s.rows && t.locks == s.locks[world.hash(id) := w]
      else PhaseOf(t, w).Idle? && t.rows == s.rows && t.locks == s.locks
  {
    hide Selected, NeedsAiWork;
    if id in s.rows { FilterIsNeed(s.rows[id], world.tasks(w)); }
  }

  lemma TitleThenSummary(world: World, s: State, w: Worker, id: Id, a: Answers, changed: Comparison)
    requires id in s.rows && PhaseOf(s, w) == Fetched(id, s.rows[id])
    ensures var differs := a.title.Some? && changed(s.rows[id], a.title.value);
            var t := Step(world, Step(world, s, TitleStep(w, a.title, differs)), SummaryStep(w, a.summary));
      && PhaseOf(t, w).Idle? && t.locks == s.locks - {world.hash(id)}
      && t.rows == s.rows[id := Processed(s.rows[id], world.tasks(w), a, changed)]
  {
    hide UpdateTitle, UpdateSummary, MarkUnchanged;
  }

  /** An undisturbed worker leaves the rows that processing the one course leaves, and its lock. */
  lemma UndisturbedProcesses(world: World, s: State, w: Worker, id: Id, a: Answers, changed: Comparison)
    requires PhaseOf(s, w).Idle? && world.hash(id) !in s.locks
    ensures var t := Undisturbed(world, s, w, id, a, changed);
      && PhaseOf(t, w).Idle? && t.locks == s.locks
      && t.rows == if id in s.rows && Selected(s.rows[id], world.tasks(w))
                   then s.rows[id := Processed(s.rows[id], world.tasks(w), a, changed)] else s.rows
  {
    hide Step, Begun, Selected, Processed;
    StartsOnRow(world, s, w, id);
    if id in s.rows && Selected(s.rows[id], world.tasks(w)) {
      var fetched := Begun(world, s, w, id);
      TitleThenSummary(world, fetched, w, id, a, changed);
      assert fetched.locks - {world.hash(id)} == s.locks;
    }
  }

  /** A course that is retired between the lock and the fetch is left alone. */
  lemma RetiredIsLeftAlone(world: World, s: State, w: Worker, id: Id)
    requires PhaseOf(s, w) == Locked(id)
    ensures var retired := Step(world, s, Retire(id));
      && Enabled(retired, Fetch(w)) && PhaseOf(Step(world, retired, Fetch(w)), w).Idle?
      && Step(world, retired, Fetch(w)).rows == retired.rows
      && (id in retired.rows ==> retired.rows[id].isActive == Some(false))
  {
  }

  predicate TitleOpen(rows: map<Id, Row>, id: Id) {
    id in rows ==> !IsTrue(rows[id].aiTitleProcessed)
  }

  predicate SummaryOpen(rows: map<Id, Row>, id: Id) {
    id in rows ==> !IsTrue(rows[id].isAiProcessed)
  }

  /** The lock table and the phases tell the same story. */
  ghost predicate LocksMatch(world: World, s: State) {
    && (forall w :: !PhaseOf(s, w).Idle? ==>
          world.hash(PhaseOf(s, w).id) in s.locks && s.locks[world.hash(PhaseOf(s, w).id)] == w)
    && (forall h :: h in s.locks ==>
          !PhaseOf(s, s.locks[h]).Idle? && world.hash(PhaseOf(s, s.locks[h]).id) == h)
  }

  /** What a worker read as open is still open. */
  ghost predicate ReadsAreOpen(s: State) {
    && (forall w :: PhaseOf(s, w).Fetched? && !IsTrue(PhaseOf(s, w).read.aiTitleProcessed) ==>
          TitleOpen(s.rows, PhaseOf(s, w).id))
    && (forall w :: (PhaseOf(s, w).Fetched? || PhaseOf(s, w).Titled?) && !IsTrue(PhaseOf(s, w).read.isAiProcessed) ==>
          SummaryOpen(s.rows, PhaseOf(s, w).id))
  }

  ghost predicate Inv(world: World, s: State) {
    LocksMatch(world, s) && ReadsAreOpen(s)
  }

  lemma UnlockKeepsLocks(world: World, s: State, w: Worker)
    requires LocksMatch(world, s) && !PhaseOf(s, w).Idle?
    ensures LocksMatch(world, Unlock(world, s, w))
  {
    assert forall v :: PhaseOf(Unlock(world, s, w), v) == if v == w then Idle else PhaseOf(s, v);
  }

  lemma MoveKeepsLocks(world: World, s: State, t: State, w: Worker, p: Phase)
    requires LocksMatch(world, s) && !PhaseOf(s, w).Idle? && !p.Idle? && p.id == PhaseOf(s, w).id
    requires t.locks == s.locks && t.phases == s.phases[w := p]
    ensures LocksMatch(world, t)
  {
    assert forall v :: PhaseOf(t, v) == if v == w then p else PhaseOf(s, v);
  }

  lemma TryLockKeepsLocks(world: World, s: State, w: Worker, id: Id)
    requires LocksMatch(world, s) && PhaseOf(s, w).Idle?
    ensures LocksMatch(world, Step(world, s, TryLock(w, id)))
  {
    var t := Step(world, s, TryLock(w, id));
    if t != s {
      assert forall v :: PhaseOf(t, v) == if v == w then Locked(id) else PhaseOf(s, v);
    }
  }

  lemma StepKeepsLocks(world: World, s: State, e: Event)
    requires LocksMatch(world, s) && Enabled(s, e)
    ensures LocksMatch(world, Step(world, s, e))
  {
    hide LocksMatch;
    var t := Step(world, s, e);
    match e
    case TryLock(w, id) => TryLockKeepsLocks(world, s, w, id);
    case Fetch(w) =>
      UnlockKeepsLocks(world, s, w);
      if t != Unlock(world, s, w) { MoveKeepsLocks(world, s, t, w, PhaseOf(t, w)); }
    case TitleStep(w, _, _) => MoveKeepsLocks(world, s, t, w, PhaseOf(t, w));
    case SummaryStep(w, _) =>
      UnlockKeepsLocks(world, s, w);
      SameLocks(world, Unlock(world, s, w), t);
    case Fail(w) => UnlockKeepsLocks(world, s, w);
    case _ => SameLocks(world, s, t);
  }

  lemma SameLocks(world: World, s: State, t: State)
    requires LocksMatch(world, s) && t.locks == s.locks && t.phases == s.phases
    ensures LocksMatch(world, t)
  {
    assert forall v :: PhaseOf(t, v) == PhaseOf(s, v);
  }

  /** Whoever is inside a course is alone there, and alone on its hash. */
  lemma MutualExclusion(world: World, s: State, v: Worker, w: Worker)
    requires Inv(world, s) && !PhaseOf(s, v).Idle? && !PhaseOf(s, w).Idle?
    ensures world.hash(PhaseOf(s, v).id) == world.hash(PhaseOf(s, w).id) ==> v == w
    ensures PhaseOf(s, v).id == PhaseOf(s, w).id ==> v == w
  {
  }

  /** The only statements that take work away are the ones a worker issues on its own course. */
  lemma OnlyWorkersClose(world: World, s: State, e: Event, id: Id)
    requires Enabled(s, e)
    ensures TitleOpen(s.rows, id) && !(IssuesTitle(world, s, e) && PhaseOf(s, e.w).id == id) ==>
      TitleOpen(Step(world, s, e).rows, id)
    ensures SummaryOpen(s.rows, id) && !(IssuesSummary(world, s, e) && PhaseOf(s, e.w).id == id) ==>
      SummaryOpen(Step(world, s, e).rows, id)
  {
  }

  lemma StepKeepsReadsOpen(world: World, s: State, e: Event)
    requires Inv(world, s) && Enabled(s, e)
    ensures ReadsAreOpen(Step(world, s, e))
  {
    var t := Step(world, s, e);
    forall w | PhaseOf(t, w).Fetched? || PhaseOf(t, w).Titled?
      ensures PhaseOf(t, w).Fetched? && !IsTrue(PhaseOf(t, w).read.aiTitleProcessed) ==>
        TitleOpen(t.rows, PhaseOf(t, w).id)
      ensures !IsTrue(PhaseOf(t, w).read.isAiProcessed) ==> SummaryOpen(t.rows, PhaseOf(t, w).id)
    {
      hide LocksMatch, Inv;
      ReadStaysOpen(world, s, e, w);
    }
  }

  lemma ReadStaysOpen(world: World, s: State, e: Event, w: Worker)
    requires Inv(world, s) && Enabled(s, e)
    requires PhaseOf(Step(world, s, e), w).Fetched? || PhaseOf(Step(world, s, e), w).Titled?
    ensures var t := Step(world, s, e);
            && (PhaseOf(t, w).Fetched? && !IsTrue(PhaseOf(t, w).read.aiTitleProcessed) ==>
                  TitleOpen(t.rows, PhaseOf(t, w).id))
            && (!IsTrue(PhaseOf(t, w).read.isAiProcessed) ==> SummaryOpen(t.rows, PhaseOf(t, w).id))
  {
    var t := Step(world, s, e);
    OnlyWorkersClose(world, s, e, PhaseOf(t, w).id);
    if Acts(e, w) {
      assert e.Fetch? ==> t.rows == s.rows && PhaseOf(t, w).read == s.rows[PhaseOf(t, w).id];
      assert e.TitleStep? ==> PhaseOf(t, w) == Titled(PhaseOf(s, w).id, PhaseOf(s, w).read);
    } else {
      assert PhaseOf(t, w) == PhaseOf(s, w);
      if IssuesTitle(world, s, e) || IssuesSummary(world, s, e) { MutualExclusion(world, s, w, e.w); }
    }
  }

  lemma InitIsInv(world: World, rows: map<Id, Row>)
    ensures Inv(world, State(rows, map[], map[]))
  {
  }

  /** In every state of every run, whatever the workers, crawlers and resets do. */
  lemma {:induction false} RunKeepsInv(world: World, states: seq<State>, events: seq<Event>, k: nat)
    requires IsRun(world, states, events) && Inv(world, states[0]) && k <= |events|
    ensures Inv(world, states[k])
  {
    if k > 0 {
      RunKeepsInv(world, states, events, k - 1);
      StepKeepsLocks(world, states[k - 1], events[k - 1]);
      StepKeepsReadsOpen(world, states[k - 1], events[k - 1]);
    }
  }

  /** A summary or title statement always finds its flag still false. */
  lemma WorkIsOpen(world: World, states: seq<State>, events: seq<Event>, k: nat)
    requires IsRun(world, states, events) && Inv(world, states[0]) && k < |events|
    ensures IssuesTitle(world, states[k], events[k]) ==>
      TitleOpen(states[k].rows, PhaseOf(states[k], events[k].w).id)
    ensures IssuesSummary(world, states[k], events[k]) ==>
      SummaryOpen(states[k].rows, PhaseOf(states[k], events[k].w).id)
  {
    RunKeepsInv(world, states, events, k);
  }

  /** A lock that is taken costs the caller this one attempt and nothing else, and only then is it refused. */
  lemma CollisionOnlySkips(world: World, s: State, w: Worker, id: Id)
    requires Inv(world, s) && PhaseOf(s, w).Idle?
    ensures var t := Step(world, s, TryLock(w, id));
            var taken := exists v :: !PhaseOf(s, v).Idle? && world.hash(PhaseOf(s, v).id) == world.hash(id);
            && (taken ==> t == s)
            && (!taken ==> PhaseOf(t, w) == Locked(id))
            && t.rows == s.rows
            && (forall v :: v != w ==> PhaseOf(t, v) == PhaseOf(s, v))
  {
    var h := world.hash(id);
    assert LocksMatch(world, s);
    if h in s.locks {
      assert !PhaseOf(s, s.locks[h]).Idle? && world.hash(PhaseOf(s, s.locks[h]).id) == h;
    }
  }

  // ---------- no work is done twice ----------

  predicate SummaryDone(s: State, id: Id) {
    id in s.rows && IsTrue(s.rows[id].isAiProcessed)
  }

  predicate TitleDone(s: State, id: Id) {
    id in s.rows && IsTrue(s.rows[id].aiTitleProcessed)
  }

  predicate NewSource(r: Row, c: Crawled) {
    r.titleRaw != c.titleRaw || r.categoryRaw != c.categoryRaw
  }

  /** The course has to be summarised again: new source or description, a reset, or the row was deleted. */
  predicate ReopensSummary(s: State, e: Event, id: Id) {
    match e
    case Crawl(i, c, _) =>
      i == id && id in s.rows
      && (NewSource(s.rows[id], c) || (c.description.Some? && c.description != s.rows[id].description))
    case ResetRow(i, o) => i == id && o.processSummary
    case Remove(i) => i == id
    case _ => false
  }

  predicate ReopensTitle(s: State, e: Event, id: Id) {
    match e
    case Crawl(i, c, _) => i == id && id in s.rows && NewSource(s.rows[id], c)
    case ResetRow(i, o) => i == id && o.processTitle
    case Remove(i) => i == id
    case _ => false
  }

  /** Done work is undone by exactly the events that reopen it. */
  lemma DoneUntilReopened(world: World, s: State, e: Event, id: Id)
    requires Inv(world, s) && Enabled(s, e)
    ensures SummaryDone(s, id) ==> (SummaryDone(Step(world, s, e), id) <==> !ReopensSummary(s, e, id))
    ensures TitleDone(s, id) ==> (TitleDone(Step(world, s, e), id) <==> !ReopensTitle(s, e, id))
  {
  }

  predicate SummaryWritten(world: World, s: State, e: Event, id: Id) {
    IssuesSummary(world, s, e) && PhaseOf(s, e.w).id == id && id in s.rows
  }

  /** An update, not the "unchanged" mark. */
  predicate TitleWritten(world: World, s: State, e: Event, id: Id) {
    IssuesTitle(world, s, e) && e.changed && PhaseOf(s, e.w).id == id && id in s.rows
  }

  lemma {:induction false} SummaryStaysDone(world: World, states: seq<State>, events: seq<Event>, id: Id,
                                            i: nat, j: nat)
    requires IsRun(world, states, events) && Inv(world, states[0]) && i < j <= |events|
    requires SummaryWritten(world, states[i], events[i], id)
    requires forall k :: i < k < j ==> !ReopensSummary(states[k], events[k], id)
    ensures SummaryDone(states[j], id)
  {
    if i + 1 < j {
      SummaryStaysDone(world, states, events, id, i, j - 1);
      RunKeepsInv(world, states, events, j - 1);
      DoneUntilReopened(world, states[j - 1], events[j - 1], id);
    }
  }

  lemma {:induction false} TitleStaysDone(world: World, states: seq<State>, events: seq<Event>, id: Id,
                                          i: nat, j: nat)
    requires IsRun(world, states, events) && Inv(world, states[0]) && i < j <= |events|
    requires TitleWritten(world, states[i], events[i], id)
    requires forall k :: i < k < j ==> !ReopensTitle(states[k], events[k], id)
    ensures TitleDone(states[j], id)
  {
    if i + 1 < j {
      TitleStaysDone(world, states, events, id, i, j - 1);
      RunKeepsInv(world, states, events, j - 1);
      DoneUntilReopened(world, states[j - 1], events[j - 1], id);
    }
  }

  /** Between two summaries of a course, by whichever workers, something asked for the second one. */
  lemma NoSummaryTwice(world: World, states: seq<State>, events: seq<Event>, id: Id, i: nat, j: nat)
    requires IsRun(world, states, events) && Inv(world, states[0]) && i < j < |events|
    requires SummaryWritten(world, states[i], events[i], id) && SummaryWritten(world, states[j], events[j], id)
    ensures exists k :: i < k < j && ReopensSummary(states[k], events[k], id)
  {
    if forall k :: i < k < j ==> !ReopensSummary(states[k], events[k], id) {
      SummaryStaysDone(world, states, events, id, i, j);
      WorkIsOpen(world, states, events, j);
    }
  }

  lemma NoTitleTwice(world: World, states: seq<State>, events: seq<Event>, id: Id, i: nat, j: nat)
    requires IsRun(world, states, events) && Inv(world, states[0]) && i < j < |events|
    requires TitleWritten(world, states[i], events[i], id) && TitleWritten(world, states[j], events[j], id)
    ensures exists k :: i < k < j && ReopensTitle(states[k], events[k], id)
  {
    if forall k :: i < k < j ==> !ReopensTitle(states[k], events[k], id) {
      TitleStaysDone(world, states, events, id, i, j);
      WorkIsOpen(world, states, events, j);
    }
  }

  // ---------- what the lock does not protect ----------

  /** The written title is backed exactly when the row still has the source that was read. */
  lemma WrittenTitleIsBacked(world: World, s: State, e: Event, id: Id)
    requires Enabled(s, e) && TitleWritten(world, s, e, id)
    requires RowRuns.ComputedFrom(e.result.value, PhaseOf(s, e.w).read)
    ensures RowRuns.TitleBacked(Step(world, s, e).rows[id]) <==>
      s.rows[id].titleRaw == PhaseOf(s, e.w).read.titleRaw && s.rows[id].categoryRaw == PhaseOf(s, e.w).read.categoryRaw
  {
  }

  /** Two crawls of a course and one worker suffice to display a title of the previous raw title. */
  lemma StaleTitleRun(world: World, w: Worker, id: Id, before: Crawled, after: Crawled, result: TitleResult, now: int)
    requires world.tasks(w).title
    requires RowRuns.ComputedFrom(result, Insert(before)) && before.titleRaw != after.titleRaw
    ensures exists states: seq<State>, events: seq<Event> ::
      && IsRun(world, states, events) && states[0] == State(map[], map[], map[])
      && id in states[|events|].rows && states[|events|].rows[id].titleRaw == after.titleRaw
      && states[|events|].rows[id].title == result.title
      && !RowRuns.TitleBacked(states[|events|].rows[id])
  {
    var events := [Crawl(id, before, now), TryLock(w, id), Fetch(w), Crawl(id, after, now),
                   TitleStep(w, Some(result), true)];
    var s0 := State(map[], map[], map[]);
    var s1 := Step(world, s0, events[0]);
    var s2 := Step(world, s1, events[1]);
    var s3 := Step(world, s2, events[2]);
    var s4 := Step(world, s3, events[3]);
    var states := [s0, s1, s2, s3, s4, Step(world, s4, events[4])];
    WrittenTitleIsBacked(world, s4, events[4], id);
    assert IsRun(world, states, events);
  }
}
