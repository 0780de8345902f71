/**
  The parallel crawl cycle: a bounded pool of crawler processes with a deadline per child, a deadline
  for the active window, a shutdown flag and a clean-up that also runs when an error is raised.
*/
module Scheduler {
  import opened Prelude
  import opened Host
  import opened CycleBooks
  import opened Windows

  const POLL_INTERVAL := 500_000  // PROCESS_POLL_INTERVAL_SECONDS in microseconds

  // forced_status and error_type of _finalize_parallel_process
  datatype Forced = Forced(status: LogStatus, error: ErrorType)

  datatype Start =
    | NotStarted(logged: Option<RunId>)
    | Started(pid: Pid, runId: RunId, startedAt: int)

  datatype Outcome =
    | Returned(reports: seq<Report>)
    | Raised(cleaned: bool)  // cleaned: the finally block itself ran to its end
    | StillWaiting           // the cycle goes on, but is followed no further

  /**
    While nobody runs and the window is closed: what the last pass read, which readings came after a missed opening,
    and how many more of them there may be.
  */
  datatype Wait = Wait(closedAt: Option<int>, missed: seq<nat>, budget: nat)

  /**
    From m to n the worker neither read the wall clock nor tried to start a child; `raised` says whether a call
    raised an error.
  */
  ghost predicate Onward(m: MachineState, n: MachineState, raised: bool) {
    && m.clock <= n.clock && (n.running ==> m.running) && SameMemory(m, n)
    && n.raises == m.raises + (if raised then 1 else 0)
  }

  /** Likewise, except that attempts to start a child may have been made. */
  ghost predicate Starting(m: MachineState, n: MachineState, raised: bool) {
    Onward(m, n.(launched := m.launched, refused := m.refused), raised) && NewTries(m, n)
  }

  ghost predicate NewTries(m: MachineState, n: MachineState) {
    && (forall pid :: pid in m.launched ==> pid in n.launched && n.launched[pid] == m.launched[pid])
    && (forall pid :: pid in n.launched && pid !in m.launched ==> n.launched[pid].pass == |m.readings|)
    && m.refused <= n.refused && (forall a :: a in n.refused && a !in m.refused ==> a.pass == |m.readings|)
  }

  /** In this pass an attempt was made to start the provider. */
  ghost predicate Tried(m: MachineState, p: Provider, pass: nat) {
    Try(p, pass) in m.refused || exists pid :: pid in m.launched && m.launched[pid] == Try(p, pass)
  }

  lemma OnwardOn(k: MachineState, m: MachineState, n: MachineState, raised: bool)
    requires Onward(k, m, false) && Onward(m, n, raised)
    ensures Onward(k, n, raised)
  {
  }

  lemma StartingOn(k: MachineState, m: MachineState, n: MachineState, raised: bool)
    requires Starting(k, m, false) && Starting(m, n, raised)
    ensures Starting(k, n, raised)
  {
  }

  lemma OnwardInTime(m: MachineState, n: MachineState, raised: bool)
    requires Onward(m, n, raised)
    ensures m.clock <= n.clock && (n.running ==> m.running) && n.readings == m.readings && SameMemory(m, n)
  {
  }

  lemma StartingInTime(m: MachineState, n: MachineState, raised: bool)
    requires Starting(m, n, raised)
    ensures m.clock <= n.clock && (n.running ==> m.running)
    ensures n.readings == m.readings && n.wallOffset == m.wallOffset
    ensures n.raises == m.raises + (if raised then 1 else 0)
  {
  }

  lemma StandsStill(m: MachineState)
    ensures Onward(m, m, false) && Starting(m, m, false)
  {
  }

  lemma OnwardStarts(m: MachineState, n: MachineState, raised: bool)
    requires Onward(m, n, raised)
    ensures Starting(m, n, raised)
  {
  }

  lemma TriedStays(m: MachineState, n: MachineState, p: Provider, pass: nat)
    requires Tried(m, p, pass) && NewTries(m, n)
    ensures Tried(n, p, pass)
  {
  }

  lemma StaysTried(m: MachineState, n: MachineState, p: Provider, pass: nat, raised: bool)
    requires Tried(m, p, pass) && Starting(m, n, raised)
    ensures Tried(n, p, pass)
  {
  }

  /** run_provider_process: opens the run-log record, and closes it again when the child cannot start. */
  method RunProviderProcess(host: Machine, p: Provider) returns (start: Start)
    requires host.s.Valid()
    modifies host
    ensures Starting(old(host.s), host.s, false) && Tried(host.s, p, |host.s.readings|)
    ensures start.NotStarted? ==>
      Refused(old(host.s), host.s, p, start.logged) && Refuses(old(host.s), host.s, p)
    ensures start.Started? ==>
      Admitted(old(host.s), host.s, p, start.pid, start.runId) && old(host.s).clock <= start.startedAt <= host.s.clock
  {
    hide Refused, Refuses, Admitted, Starting, Tried, MachineState.Remembered;
    ghost var m := host.s;
    var built := host.BuildCommand(p);
    if !built {
      NoRecord(m, host.s, host.s, p);
      return NotStarted(None);
    }
    var id := host.OpenRun(p);
    ghost var written := host.s;
    var startedAt := host.Now();
    if id.None? {
      NoRecord(m, written, host.s, p);
      return NotStarted(None);
    }
    ghost var before := host.s;
    var pid := host.Spawn(p);
    if pid.None? {
      ghost var spawned := host.s;
      var _ := host.CloseRun(id.value, LogFailed);
      NoChild(m, written, before, spawned, host.s, p, id.value);
      return NotStarted(id);
    }
    NewChild(m, written, before, host.s, p, id.value, pid.value);
    start := Started(pid.value, id.value, startedAt);
  }

  lemma NoRecord(m: MachineState, a: MachineState, n: MachineState, p: Provider)
    requires a == m.(refused := m.refused + {Try(p, |m.readings|)})
    requires Quiet(a, n) && n.raises == a.raises && n.Valid()
    ensures Refused(m, n, p, None) && Refuses(m, n, p) && Starting(m, n, false) && Tried(n, p, |n.readings|)
  {
  }

  lemma NoChild(m: MachineState, a: MachineState, b: MachineState, c: MachineState, n: MachineState,
                p: Provider, id: RunId)
    requires a == m.(begun := m.begun + {id}) && id !in m.begun && id !in m.closedAs && id !in m.confirmed
    requires Quiet(a, b) && b.raises == a.raises && c == b.(refused := b.refused + {Try(p, |b.readings|)})
    requires n.Valid() && (Closing(c, n, id, LogFailed, true) || Closing(c, n, id, LogFailed, false))
    ensures Refused(m, n, p, Some(id)) && Refuses(m, n, p) && Starting(m, n, false) && Tried(n, p, |n.readings|)
  {
    hide MachineState.Remembered;
  }

  lemma NewChild(m: MachineState, a: MachineState, b: MachineState, n: MachineState, p: Provider, id: RunId, pid: Pid)
    requires a == m.(begun := m.begun + {id}) && id !in m.begun && id !in m.confirmed && m.Valid()
    requires Quiet(a, b) && b.raises == a.raises && b.Valid() && n.Valid()
    requires pid !in b.alive + b.exits.Keys + b.killed
    requires n == b.(alive := b.alive + {pid}, launched := b.launched[pid := Try(p, |b.readings|)])
    ensures Admitted(m, n, p, pid, id) && Starting(m, n, false) && Tried(n, p, |n.readings|)
  {
    assert n.alive - {pid} == b.alive;
    assert pid !in m.alive && pid !in m.exits && pid !in m.killed && pid !in m.launched;
    assert n.launched[pid] == Try(p, |n.readings|);
    hide MachineState.Remembered;
  }

  /** From m to n nothing was done but to poll the child, or to terminate it, and it no longer runs. */
  ghost predicate Ended(m: MachineState, n: MachineState, pid: Pid) {
    && n.Valid() && Quiet(m, n.(killed := m.killed)) && n.raises == m.raises
    && m.killed <= n.killed <= m.killed + {pid} && pid !in n.alive
  }

  lemma HasEnded(m: MachineState, n: MachineState, pid: Pid)
    requires n.Valid() && Quiet(m, n) && n.raises == m.raises && pid in n.exits
    ensures Ended(m, n, pid)
  {
  }

  lemma QuietIsOnward(m: MachineState, n: MachineState)
    requires Quiet(m, n) && n.raises == m.raises
    ensures Onward(m, n, false) && m.clock <= n.clock
  {
  }

  lemma EndedSettles(m: MachineState, k: MachineState, n: MachineState, pid: Pid, id: RunId, raised: bool)
    requires Ended(m, k, pid) && Settled(k, n, pid, id) && n.killed == k.killed && Onward(k, n, raised)
    ensures Settled(m, n, pid, id) && Onward(m, n, raised)
  {
  }

  lemma EndedStays(m: MachineState, n: MachineState, pid: Pid)
    requires m.Valid() && Ended(m, n, pid) && pid in m.launched
    ensures n.Valid() && pid !in n.alive && pid in n.launched && SameMemory(m, n) && m.clock <= n.clock
    ensures n.confirmed == m.confirmed
  {
  }

  /** The errors a finalised report may carry. */
  ghost function Outcomes(forced: Option<Forced>): set<Option<ErrorType>> {
    (if forced.Some? then {Some(forced.value.error)} else {None, Some(CrawlerFailed)}) + {Some(RunLogFinalizeError)}
  }

  /** How a child may be forced to an end. */
  ghost predicate CanForce(f: Forced) {
    f.status != LogSuccess && f.error in {ProviderTimeout, WorkerStopped, ActiveWindowExpired, WorkerCleanup}
  }

  /** A child that is reported as late had had its time. */
  ghost predicate Deserved(m: MachineState, h: History, p: Provider, f: Forced) {
    CanForce(f) && (f.error == ProviderTimeout ==> HadItsTime(m, h, p, m.clock))
  }

  /**
    _finalize_parallel_process: builds the report of a finished child and closes its record. The progress it writes
    last may raise an error; the report is then lost.
  */
  method Finalize(host: Machine, ghost provider: Provider, ghost history: History,
                  pid: Pid, runId: RunId, forced: Option<Forced>)
    returns (report: Report, raised: bool)
    requires host.s.Valid() && pid !in host.s.alive && pid in host.s.launched
    requires provider in history.pidOf && history.pidOf[provider] == pid
    requires provider in history.runOf && history.runOf[provider] == runId && runId !in host.s.confirmed
    requires forced.None? ==> pid !in host.s.killed
    requires forced.Some? ==> Deserved(host.s, history, provider, forced.value)
    modifies host
    ensures Settled(old(host.s), host.s, pid, runId) && host.s.killed == old(host.s).killed
    ensures Onward(old(host.s), host.s, raised)
    ensures Truthful(host.s, history, provider, report)
    ensures pid in host.s.exits && pid in host.s.evidence && report.error in Outcomes(forced)
    ensures report.success <==>
      host.s.exits[pid] == 0 && host.s.evidence[pid] && forced.None? && runId in host.s.confirmed
    ensures report.error ==
      if runId !in host.s.confirmed then Some(RunLogFinalizeError)
      else if forced.Some? then Some(forced.value.error)
      else if report.success then None else Some(CrawlerFailed)
    ensures runId in host.s.confirmed ==>
      && runId in host.s.closedAs
      && host.s.closedAs[runId] ==
           if forced.Some? then forced.value.status else if report.success then LogSuccess else LogFailed
  {
    hide HadItsTime, Truthful, Settled, Onward, Quiet, MachineState.Remembered;
    ghost var m := host.s;
    var code := host.Poll(pid);
    ghost var polled := host.s;
    var evidence := host.ReadEvidence(pid);
    var success := code == Some(0) && forced.None? && evidence;
    var status := if forced.Some? then forced.value.status else if success then LogSuccess else LogFailed;
    var error := if forced.Some? then Some(forced.value.error) else if success then None else Some(CrawlerFailed);
    ghost var k := host.s;
    var written := host.CloseRun(runId, status);
    if !written { error := Some(RunLogFinalizeError); }
    report := Report(error.None?, error);
    ghost var closed := host.s;
    raised := host.WriteProgress();
    HasExited(m, polled, k, pid, code);
    Closes(m, polled, k, closed, host.s, pid, runId, status, written, raised);
    ReportIsTrue(m, host.s, provider, history, pid, forced, report, raised);
  }

  lemma QuietOn(k: MachineState, m: MachineState, n: MachineState)
    requires Quiet(k, m) && Quiet(m, n)
    ensures Quiet(k, n) && (forall pid :: pid in m.exits ==> pid in n.exits && n.exits[pid] == m.exits[pid])
  {
  }

  /** A child that was not alive is polled: its code is its exit code. */
  lemma HasExited(m: MachineState, polled: MachineState, k: MachineState, pid: Pid, code: Option<int>)
    requires polled.Valid() && Quiet(m, polled) && pid !in m.alive && pid in m.launched
    requires Quiet(polled, k.(evidence := polled.evidence))
    requires code == if pid in polled.exits then Some(polled.exits[pid]) else None
    ensures pid in k.exits && code == Some(k.exits[pid])
  {
  }

  lemma Closes(m: MachineState, polled: MachineState, k: MachineState, a: MachineState, n: MachineState,
               pid: Pid, id: RunId, status: LogStatus, written: bool, raised: bool)
    requires n.Valid() && Quiet(m, polled) && polled.raises == m.raises && pid !in m.alive
    requires Quiet(polled, k.(evidence := polled.evidence)) && k.raises == polled.raises
    requires pid in k.evidence && k.evidence == polled.evidence[pid := k.evidence[pid]]
    requires Closing(k, a, id, status, written)
    requires Quiet(a, n) && n.raises == a.raises + (if raised then 1 else 0)
    ensures Settled(m, n, pid, id) && Onward(m, n, raised) && n.killed == m.killed
    ensures n.evidence == k.evidence && n.closedAs == a.closedAs && n.confirmed == a.confirmed
    ensures pid in k.exits ==> pid in n.exits && n.exits[pid] == k.exits[pid]
    ensures id !in m.confirmed ==> (id in n.confirmed <==> written)
  {
    hide MachineState.Remembered;
  }

  /** Of a child that exited: what the report says is so. */
  lemma ReportIsTrue(m: MachineState, n: MachineState, p: Provider, h: History, pid: Pid, forced: Option<Forced>,
                     r: Report, raised: bool)
    requires p in h.pidOf && h.pidOf[p] == pid && p in h.runOf && pid in n.exits && pid in n.evidence
    requires forced.None? ==> pid !in n.killed
    requires forced.Some? ==> Deserved(m, h, p, forced.value)
    requires Onward(m, n, raised)
    requires r.success == r.error.None?
    requires var success := n.exits[pid] == 0 && n.evidence[pid] && forced.None?;
      if h.runOf[p] !in n.confirmed then r.error == Some(RunLogFinalizeError)
      else
        && h.runOf[p] in n.closedAs && (n.closedAs[h.runOf[p]] == LogSuccess <==> success)
        && r.error == if forced.Some? then Some(forced.value.error)
                      else if success then None else Some(CrawlerFailed)
    ensures Truthful(n, h, p, r)
  {
  }

  /** The reports only grow, and what is added carries one of `errors`. */
  ghost predicate Grew(before: map<Provider, Report>, after: map<Provider, Report>, errors: set<Option<ErrorType>>) {
    && (forall p :: p in before ==> p in after && after[p] == before[p])
    && (forall p :: p in after && p !in before ==> after[p].error in errors)
  }

  lemma GrewFrom(reports: map<Provider, Report>, errors: set<Option<ErrorType>>)
    ensures Grew(reports, reports, errors)
  {
  }

  lemma GrewByOne(reports: map<Provider, Report>, p: Provider, r: Report, errors: set<Option<ErrorType>>)
    requires p !in reports && r.error in errors
    ensures Grew(reports, reports[p := r], errors)
  {
  }

  lemma GrewWithin(a: map<Provider, Report>, b: map<Provider, Report>,
                   errors: set<Option<ErrorType>>, more: set<Option<ErrorType>>)
    requires Grew(a, b, errors) && errors <= more
    ensures Grew(a, b, more)
  {
  }

  lemma GrewOn(a: map<Provider, Report>, b: map<Provider, Report>, c: map<Provider, Report>,
               errors: set<Option<ErrorType>>)
    requires Grew(a, b, errors) && Grew(b, c, errors)
    ensures Grew(a, c, errors)
  {
  }

  /** Who was reported as stopped was stopped for the reason that is given. */
  ghost predicate Caused(m: MachineState, reports: map<Provider, Report>, windowDeadline: Option<int>) {
    forall p :: p in reports ==>
      && (reports[p].error == Some(WorkerStopped) ==> !m.running)
      && (reports[p].error == Some(ActiveWindowExpired) ==>
           windowDeadline.Some? && windowDeadline.value <= m.clock)
  }

  lemma GrowthIsCaused(m: MachineState, n: MachineState, before: map<Provider, Report>, after: map<Provider, Report>,
                       errors: set<Option<ErrorType>>, windowDeadline: Option<int>)
    requires Caused(m, before, windowDeadline) && Grew(before, after, errors)
    requires Onward(m, n, false)
    requires Some(WorkerStopped) in errors ==> !m.running
    requires Some(ActiveWindowExpired) in errors ==>
      (windowDeadline.Some? && windowDeadline.value <= m.clock) || before == after
    ensures Caused(n, after, windowDeadline)
  {
  }

  /** Terminates a child that still runs; the clean-up looks first. */
  method EndChild(host: Machine, pid: Pid) returns (raised: bool)
    requires host.s.Valid()
    modifies host
    ensures !raised ==> Ended(old(host.s), host.s, pid)
    ensures raised ==>
      && host.s.Valid() && Quiet(old(host.s), host.s.(killed := old(host.s).killed))
      && old(host.s).killed <= host.s.killed <= old(host.s).killed + {pid}
    ensures Onward(old(host.s), host.s, raised)
  {
    hide MachineState.Remembered;
    var code := host.Poll(pid);
    if code.Some? { return false; }
    var ok := host.Terminate(pid);
    raised := !ok;
  }

  const POLL_ERRORS: set<Option<ErrorType>> :=
    {None, Some(CrawlerFailed), Some(ProviderTimeout), Some(RunLogFinalizeError)}

  const CLEANUP_ERRORS: set<Option<ErrorType>> := {Some(WorkerCleanup), Some(RunLogFinalizeError)}

  const ROUND_ERRORS := POLL_ERRORS + {Some(StartFailed)}

  lemma PollOutcomes()
    ensures Outcomes(None) <= POLL_ERRORS && Some(ProviderTimeout) !in Outcomes(None)
    ensures Outcomes(Some(Forced(LogFailed, ProviderTimeout))) <= POLL_ERRORS
  {
  }

  class ParallelCycle {
    const host: Machine
    const providers: seq<Provider>
    const maxWorkers: nat
    const timeoutOf: Provider -> int     // effective_provider_timeout_seconds, in microseconds
    const enforceWindow: bool
    const start: Bound                   // the active window
    const end: Bound
    var pending: seq<Provider>
    var remaining: map<Provider, Pid>
    var meta: map<Provider, Meta>
    var reports: map<Provider, Report>
    ghost var history: History
    ghost const origin: MachineState     // the machine when the cycle was set up

    ghost function State(): View
      reads this
    {
      View(providers, maxWorkers, pending, remaining, meta, reports, history, origin, timeoutOf)
    }

    ghost predicate Valid()
      reads this, host
    {
      Inv(host.s, State())
    }

    /** What the moves below need to know of the invariant. */
    lemma Facts()
      requires Valid()
      ensures host.s.Valid() && |remaining| <= maxWorkers && remaining.Keys == meta.Keys
      ensures remaining.Keys !! reports.Keys
      ensures forall p :: p in pending ==> p !in reports && p !in remaining
      ensures forall p :: p in remaining ==>
        && p in history.pidOf && history.pidOf[p] == remaining[p] && remaining[p] !in host.s.killed
        && p in history.runOf && history.runOf[p] == meta[p].runId
    {
    }

    /** A child past its deadline had its time. */
    lemma TimeIsUp(p: Provider)
      requires Valid() && p in remaining && p in meta && meta[p].deadline <= host.s.clock
      ensures HadItsTime(host.s, history, p, host.s.clock)
    {
    }

    constructor (host: Machine, providers: seq<Provider>, maxWorkers: nat, timeoutOf: Provider -> int,
                 enforceWindow: bool, start: Bound, end: Bound)
      requires host.s.Valid() && host.s.alive == {} && NoDuplicates(providers)
      requires forall id :: id in host.s.closed ==> id in host.s.begun
      ensures Valid() && Unstarted()
      ensures this.host == host && this.providers == providers && this.maxWorkers == maxWorkers
      ensures this.timeoutOf == timeoutOf && this.enforceWindow == enforceWindow
      ensures this.start == start && this.end == end
    {
      this.host, this.providers, this.maxWorkers, this.timeoutOf := host, providers, maxWorkers, timeoutOf;
      this.enforceWindow, this.start, this.end := enforceWindow, start, end;
      pending, remaining, meta, reports := providers, map[], map[], map[];
      origin := host.s;
      history := History(map[], map[], map[], map[], host.s, timeoutOf);
      new;
      hide Inv;
      NewCycle();
    }

    lemma NewCycle()
      requires host.s.Valid() && host.s.alive == {} && NoDuplicates(providers) && Unstarted() && meta == map[]
      requires forall id :: id in host.s.closed ==> id in host.s.begun
      ensures Valid()
    {
      hide MachineState.Remembered, HadItsTime, Truthful;
    }

    /** Nothing was done yet. */
    ghost predicate Unstarted()
      reads this, host
    {
      && pending == providers && remaining == map[] && reports == map[]
      && history == History(map[], map[], map[], map[], origin, timeoutOf) && origin == host.s
    }

    /** Whether a pass that reads this wall-clock time may start providers. */
    predicate Open(reading: int) {
      !enforceWindow || Within(Clock(reading), start, end)
    }

    /** The next provider leaves the queue with a report and no child. */
    method Refuse(error: ErrorType, logged: Option<RunId>, ghost m: MachineState)
      requires Inv(m, State()) && pending != [] && Refused(m, host.s, pending[0], logged)
      requires error in STOPS ||
        (error == StartFailed && Refuses(m, host.s, pending[0]) && |origin.readings| < |m.readings|)
      modifies this
      ensures Valid() && pending == old(pending)[1..] && remaining == old(remaining)
      ensures reports == old(reports)[old(pending)[0] := Report(false, Some(error))] && meta == old(meta)
    {
      hide Inv, Refused, Refuses;
      RefuseKeepsInv(m, host.s, State(), error, logged);
      var provider := pending[0];
      history := if logged.Some? then history.AddRun(provider, logged.value) else history;
      pending, reports := pending[1..], reports[provider := Report(false, Some(error))];
    }

    /** The next provider leaves the queue and its child joins the pool. */
    method Admit(pid: Pid, runId: RunId, startedAt: int, ghost m: MachineState)
      requires Inv(m, State()) && pending != [] && |remaining| < maxWorkers
      requires Admitted(m, host.s, pending[0], pid, runId) && m.clock <= startedAt && |origin.readings| < |m.readings|
      modifies this
      ensures Valid() && pending == old(pending)[1..] && reports == old(reports)
      ensures remaining == old(remaining)[old(pending)[0] := pid]
      ensures meta == old(meta)[old(pending)[0] := Meta(runId, startedAt + timeoutOf(old(pending)[0]))]
    {
      hide Inv, Admitted;
      var provider := pending[0];
      var deadline := startedAt + timeoutOf(provider);
      AdmitKeepsInv(m, host.s, State(), pid, runId, deadline);
      history := history.AddRun(provider, runId).AddChild(provider, pid);
      pending := pending[1..];
      remaining, meta := remaining[provider := pid], meta[provider := Meta(runId, deadline)];
    }

    method WriteProgress() returns (raised: bool)
      requires Valid()
      modifies host
      ensures Valid() && Onward(old(host.s), host.s, raised)
    {
      hide Inv;
      Facts();
      ghost var m := host.s;
      raised := host.WriteProgress();
      DriftKeepsInv(m, host.s, State());
    }

    /** The first of the queue was reported as not started, or runs with its full time from its start on. */
    ghost predicate Spawned(before: View, after: View, from: int, to: int)
      requires before.pending != []
    {
      var p := before.pending[0];
      if p in after.remaining
      then
        && after.remaining.Keys == before.remaining.Keys + {p} && after.reports == before.reports
        && p in after.meta && from + timeoutOf(p) <= after.meta[p].deadline <= to + timeoutOf(p)
      else
        && after.remaining == before.remaining && after.meta == before.meta
        && after.reports == before.reports[p := Report(false, Some(StartFailed))]
    }

    /** Starts the next pending provider, or reports that it could not be started. */
    method SpawnNext() returns (raised: bool)
      requires Valid() && pending != [] && |remaining| < maxWorkers && |origin.readings| < |host.s.readings|
      modifies this, host
      ensures Valid()
      ensures Starting(old(host.s), host.s, raised) && Tried(host.s, old(pending)[0], |host.s.readings|)
      ensures pending == old(pending)[1..]
      ensures Spawned(old(State()), State(), old(host.s).clock, host.s.clock)
      ensures Grew(old(reports), reports, {Some(StartFailed)})
    {
      hide Inv, Spawned, Grew, Starting, Onward, Tried;
      ghost var m, v := host.s, State();
      StartNext();
      ghost var k := host.s;
      raised := WriteProgress();
      OnwardInTime(k, host.s, raised);
      SpawnedLater(v, State(), m.clock, k.clock, host.s.clock);
      OnwardStarts(k, host.s, raised);
      StartingOn(m, k, host.s, raised);
      StaysTried(k, host.s, v.pending[0], |host.s.readings|, raised);
    }

    /** The start itself; an error that it raises is caught and reported. */
    method StartNext()
      requires Valid() && pending != [] && |remaining| < maxWorkers && |origin.readings| < |host.s.readings|
      modifies this, host
      ensures Valid()
      ensures Starting(old(host.s), host.s, false) && Tried(host.s, old(pending)[0], |host.s.readings|)
      ensures pending == old(pending)[1..]
      ensures Spawned(old(State()), State(), old(host.s).clock, host.s.clock)
      ensures Grew(old(reports), reports, {Some(StartFailed)})
    {
      hide Inv, Refused, Refuses, Admitted, Spawned, Grew, Starting, Onward, Tried, MachineState.Remembered;
      HeadIsNew();
      ghost var m, v := host.s, State();
      var start := RunProviderProcess(host, pending[0]);
      match start {
        case NotStarted(logged) =>
          Refuse(StartFailed, logged, m);
          RefusalSpawns(v, State(), m.clock, host.s.clock);
        case Started(pid, runId, startedAt) =>
          Admit(pid, runId, startedAt, m);
          AdmissionSpawns(v, State(), m.clock, host.s.clock, startedAt);
      }
    }

    lemma HeadIsNew()
      requires Valid() && pending != []
      ensures host.s.Valid() && pending[0] !in remaining && pending[0] !in reports && remaining.Keys == meta.Keys
    {
    }

    lemma RefusalSpawns(v: View, w: View, from: int, to: int)
      requires v.pending != [] && v.pending[0] !in v.remaining && v.pending[0] !in v.reports
      requires w.remaining == v.remaining && w.meta == v.meta
      requires w.reports == v.reports[v.pending[0] := Report(false, Some(StartFailed))]
      ensures Spawned(v, w, from, to) && Grew(v.reports, w.reports, {Some(StartFailed)})
    {
    }

    lemma AdmissionSpawns(v: View, w: View, from: int, to: int, startedAt: int)
      requires v.pending != [] && from <= startedAt <= to && w.reports == v.reports
      requires w.remaining.Keys == v.remaining.Keys + {v.pending[0]} && v.pending[0] in w.meta
      requires w.meta[v.pending[0]].deadline == startedAt + timeoutOf(v.pending[0])
      ensures Spawned(v, w, from, to) && Grew(v.reports, w.reports, {Some(StartFailed)})
    {
    }

    lemma SpawnedLater(v: View, w: View, from: int, to: int, later: int)
      requires v.pending != [] && Spawned(v, w, from, to) && to <= later
      ensures Spawned(v, w, from, later)
    {
    }

    /**
      A child that no longer runs leaves the pool with a report; if an error is raised it is not reported, and `keeps`
      says whether it is still in the pool.
    */
    method Settle(p: Provider, forced: Option<Forced>, keeps: bool, ghost m: MachineState) returns (raised: bool)
      requires p in remaining && p in meta && Inv(m, State())
      requires Ended(m, host.s, remaining[p]) && (forced.None? ==> host.s.killed == m.killed)
      requires forced.Some? ==> Deserved(host.s, history, p, forced.value)
      modifies this, host
      ensures !raised ==> Valid() && p in reports && reports[p].error in Outcomes(forced)
      ensures raised ==> Interrupted(host.s, State()) && reports == old(reports)
      ensures Onward(m, host.s, raised)
      ensures pending == old(pending) && meta == old(meta) - {p}
      ensures remaining == if raised && keeps then old(remaining) else old(remaining) - {p}
      ensures Grew(old(reports), reports, Outcomes(forced))
    {
      hide Inv, Interrupted, Truthful, Grew, Deserved, Ended, Settled, Onward, Outcomes;
      ghost var v, k := State(), host.s;
      SettleFacts(m, p);
      EndedStays(m, k, remaining[p]);
      GrewFrom(reports, Outcomes(forced));
      var pid, runId := remaining[p], meta[p].runId;
      var report;
      report, raised := Finalize(host, p, history, pid, runId, forced);
      EndedSettles(m, k, host.s, pid, runId, raised);
      meta := meta - {p};
      if raised {
        if !keeps { remaining := remaining - {p}; }
        SettleInterrupted(m, host.s, v, State(), p);
        return;
      }
      remaining := remaining - {p};
      GrewByOne(reports, p, report, Outcomes(forced));
      reports := reports[p := report];
      SettleKeepsInv(m, host.s, v, p, report);
      assert State() == AfterSettling(v, p, report);
    }

    lemma SettleFacts(m: MachineState, p: Provider)
      requires Inv(m, State()) && p in remaining
      ensures m.Valid() && remaining[p] !in m.killed && p !in reports && remaining[p] in m.launched
      ensures p in history.pidOf && history.pidOf[p] == remaining[p]
      ensures p in history.runOf && history.runOf[p] == meta[p].runId && meta[p].runId !in m.confirmed
    {
      hide HadItsTime, MachineState.Remembered;
    }

    /** Stops one child, because it is late or because the cycle is over. */
    method StopChild(p: Provider, forced: Forced, keeps: bool) returns (raised: bool)
      requires Valid() && p in remaining && p in meta && Deserved(host.s, history, p, forced)
      modifies this, host
      ensures !raised ==> Valid() && remaining == old(remaining) - {p} && meta == old(meta) - {p}
      ensures raised ==> Interrupted(host.s, State())
      ensures raised ==> reports == old(reports)
      ensures raised ==>
        || (remaining == old(remaining) && meta == old(meta))
        || (remaining == (if keeps then old(remaining) else old(remaining) - {p}) && meta == old(meta) - {p})
      ensures Onward(old(host.s), host.s, raised)
      ensures pending == old(pending)
      ensures Grew(old(reports), reports, Outcomes(Some(forced)))
    {
      hide Inv, Core, Interrupted, Grew, Outcomes, Deserved, MachineState.Remembered;
      GrewFrom(reports, Outcomes(Some(forced)));
      Facts();
      ghost var m := host.s;
      var ok := host.Terminate(remaining[p]);
      if !ok {
        RefusalToDieKeepsCore(m, host.s, State(), p);
        CoreIsInterrupted(host.s, State());
        return true;
      }
      StillDeserved(m, host.s, history, p, forced);
      raised := Settle(p, Some(forced), keeps, m);
    }

    lemma StillDeserved(m: MachineState, n: MachineState, h: History, p: Provider, f: Forced)
      requires Deserved(m, h, p, f) && SameMemory(m, n) && m.clock <= n.clock
      ensures Deserved(n, h, p, f)
    {
    }

    lemma NowDeserved(p: Provider)
      requires Valid() && p in remaining && p in meta && meta[p].deadline <= host.s.clock
      ensures Deserved(host.s, history, p, Forced(LogFailed, ProviderTimeout))
    {
      hide HadItsTime;
      TimeIsUp(p);
    }

    /** One look at one child: it may have exited, or be past its deadline, or be left alone. */
    method PollChild(p: Provider) returns (raised: bool)
      requires Valid() && p in remaining && p in meta
      modifies this, host
      ensures !raised ==> Valid()
      ensures raised ==> Interrupted(host.s, State())
      ensures Onward(old(host.s), host.s, raised)
      ensures pending == old(pending)
      ensures (remaining == old(remaining) && meta == old(meta))
              || (remaining == old(remaining) - {p} && meta == old(meta) - {p})
      ensures !raised && p in remaining ==> old(host.s).clock < meta[p].deadline
      ensures p in reports && reports[p].error == Some(ProviderTimeout) ==> old(meta)[p].deadline <= host.s.clock
      ensures Grew(old(reports), reports, POLL_ERRORS)
    {
      hide Inv, Core, Interrupted, Grew, Outcomes, Deserved, Onward, Ended, Quiet;
      PollOutcomes();
      GrewFrom(reports, POLL_ERRORS);
      ghost var before := reports;
      Facts();
      ghost var m := host.s;
      var code := host.Poll(remaining[p]);
      ghost var polled := host.s;
      if code.Some? {
        HasEnded(m, host.s, remaining[p]);
        raised := Settle(p, None, false, m);
        OnwardInTime(m, host.s, raised);
        GrewWithin(before, reports, Outcomes(None), POLL_ERRORS);
        return;
      }
      var now := host.Now();
      QuietOn(m, polled, host.s);
      QuietIsOnward(m, host.s);
      DriftKeepsInv(m, host.s, State());
      if now < meta[p].deadline { return false; }
      var forced := Forced(LogFailed, ProviderTimeout);
      NowDeserved(p);
      ghost var k := host.s;
      raised := StopChild(p, forced, false);
      OnwardInTime(k, host.s, raised);
      OnwardOn(m, k, host.s, raised);
      GrewWithin(before, reports, Outcomes(Some(forced)), POLL_ERRORS);
    }

    /** Starts pending providers while there is room, the window is open and the worker is not told to stop. */
    method FillPool(windowOpen: bool) returns (raised: bool)
      requires Valid() && |origin.readings| < |host.s.readings|
      modifies this, host
      ensures Valid()
      ensures Starting(old(host.s), host.s, raised) && (!windowOpen ==> Onward(old(host.s), host.s, raised))
      ensures !raised && windowOpen && host.s.running && old(pending) != [] && |old(remaining)| < maxWorkers ==>
        Tried(host.s, old(pending)[0], |host.s.readings|)
      ensures |pending| <= |old(pending)|
      ensures |pending| == |old(pending)| ==>
        pending == old(pending) && remaining == old(remaining) && meta == old(meta)
      ensures !windowOpen ==> !raised && |pending| == |old(pending)| && reports == old(reports)
      ensures !raised && windowOpen && host.s.running ==> pending == [] || maxWorkers <= |remaining|
      ensures Grew(old(reports), reports, {Some(StartFailed)})
    {
      hide Inv, NewTries, Tried;
      raised := false;
      OnwardStarts(host.s, host.s, false);
      while pending != [] && |remaining| < maxWorkers && windowOpen && host.s.running
        invariant Valid()
        invariant Starting(old(host.s), host.s, false) && (!windowOpen ==> Onward(old(host.s), host.s, false))
        invariant |pending| < |old(pending)| ==> Tried(host.s, old(pending)[0], |host.s.readings|)
        invariant |pending| <= |old(pending)|
        invariant |pending| == |old(pending)| ==>
          pending == old(pending) && remaining == old(remaining) && meta == old(meta)
        invariant !windowOpen ==> |pending| == |old(pending)| && reports == old(reports)
        invariant Grew(old(reports), reports, {Some(StartFailed)})
        decreases |pending|
      {
        ghost var k := host.s;
        raised := SpawnNext();
        StartingOn(old(host.s), k, host.s, raised);
        if |pending| + 1 < |old(pending)| { TriedStays(k, host.s, old(pending)[0], |host.s.readings|); }
        if raised { return; }
      }
    }

    /** Looks at every child of the pool once, in any order. */
    method PollAll() returns (raised: bool)
      requires Valid()
      modifies this, host
      ensures !raised ==> Valid()
      ensures raised ==> Interrupted(host.s, State())
      ensures Onward(old(host.s), host.s, raised)
      ensures pending == old(pending)
      ensures remaining.Keys <= old(remaining).Keys
      ensures remaining.Keys == meta.Keys && forall p :: p in meta ==> p in old(meta) && meta[p] == old(meta)[p]
      ensures !raised ==> forall p :: p in meta ==> old(host.s).clock < meta[p].deadline
      ensures old(remaining) == map[] ==> !raised && reports == old(reports)
      ensures Grew(old(reports), reports, POLL_ERRORS)
    {
      hide Inv, Core, Interrupted, Grew, Onward;
      Facts();
      GrewFrom(reports, POLL_ERRORS);
      StandsStill(host.s);
      raised := false;
      var todo := remaining.Keys;
      while todo != {}
        invariant Valid()
        invariant Onward(old(host.s), host.s, false)
        invariant pending == old(pending)
        invariant todo <= remaining.Keys <= old(remaining).Keys
        invariant old(remaining) == map[] ==> reports == old(reports)
        invariant remaining.Keys == meta.Keys && forall p :: p in meta ==> p in old(meta) && meta[p] == old(meta)[p]
        invariant forall p :: p in meta && p !in todo ==> old(host.s).clock < meta[p].deadline
        invariant Grew(old(reports), reports, POLL_ERRORS)
        decreases todo
      {
        var p :| p in todo;
        label Poll:
        OnwardInTime(old(host.s), host.s, false);
        raised := PollChild(p);
        OnwardOn(old(host.s), old@Poll(host.s), host.s, raised);
        GrewOn(old(reports), old@Poll(reports), reports, POLL_ERRORS);
        if raised { return; }
        todo := todo - {p};
      }
    }

    /** Stops every child that is left. */
    method StopAll(error: ErrorType) returns (raised: bool)
      requires Valid() && error in STOPS
      modifies this, host
      ensures !raised ==> Valid() && remaining == map[]
      ensures raised ==> remaining != map[]
      ensures raised ==> Interrupted(host.s, State())
      ensures Onward(old(host.s), host.s, raised)
      ensures pending == old(pending)
      ensures Grew(old(reports), reports, {Some(error), Some(RunLogFinalizeError)})
    {
      hide Inv, Core, Interrupted, Grew, Outcomes, Deserved, Onward;
      StandsStill(host.s);
      ghost var errors := Outcomes(Some(Forced(LogStopped, error)));
      StopOutcomes(error);
      GrewFrom(reports, errors);
      raised := false;
      while remaining != map[]
        invariant Valid()
        invariant Onward(old(host.s), host.s, false)
        invariant pending == old(pending)
        invariant Grew(old(reports), reports, errors)
        decreases remaining.Keys
      {
        var p :| p in remaining;
        Facts();
        label Stop:
        StopIsDeserved(p, error);
        raised := StopChild(p, Forced(LogStopped, error), true);
        OnwardOn(old(host.s), old@Stop(host.s), host.s, raised);
        GrewOn(old(reports), old@Stop(reports), reports, errors);
        if raised { return; }
        assert old@Stop(remaining).Keys == remaining.Keys + {p};
      }
    }

    lemma StopOutcomes(error: ErrorType)
      ensures Outcomes(Some(Forced(LogStopped, error))) == {Some(error), Some(RunLogFinalizeError)}
    {
    }

    lemma StopIsDeserved(p: Provider, error: ErrorType)
      requires error in STOPS
      ensures Deserved(host.s, history, p, Forced(LogStopped, error))
    {
    }

    lemma StandingStill(p: Provider)
      requires host.s.Valid()
      ensures Refused(host.s, host.s, p, None)
    {
    }

    /** Reports the next provider that was never started. */
    method ReportNext(error: ErrorType) returns (raised: bool)
      requires Valid() && pending != [] && error in STOPS
      modifies this, host
      ensures Valid() && pending == old(pending)[1..] && remaining == old(remaining)
      ensures Onward(old(host.s), host.s, raised)
      ensures Grew(old(reports), reports, {Some(error)})
    {
      hide Inv, Refused;
      Facts();
      StandingStill(pending[0]);
      Refuse(error, None, host.s);
      raised := WriteProgress();
    }

    /** Reports every provider that was never started. */
    method ReportPending(error: ErrorType) returns (raised: bool)
      requires Valid() && remaining == map[] && error in STOPS
      modifies this, host
      ensures Valid() && remaining == map[]
      ensures !raised ==> pending == []
      ensures Onward(old(host.s), host.s, raised)
      ensures Grew(old(reports), reports, {Some(error)})
    {
      hide Inv;
      raised := false;
      while pending != []
        invariant Valid() && remaining == map[]
        invariant Onward(old(host.s), host.s, false)
        invariant Grew(old(reports), reports, {Some(error)})
        decreases |pending|
      {
        raised := ReportNext(error);
        if raised { return; }
      }
    }

    /** One pass of the main loop, up to its exit tests. */
    method Round(windowOpen: bool) returns (raised: bool)
      requires Valid() && |origin.readings| < |host.s.readings|
      modifies this, host
      ensures !raised ==> Valid()
      ensures raised ==> Interrupted(host.s, State())
      ensures Starting(old(host.s), host.s, raised) && (!windowOpen ==> Onward(old(host.s), host.s, raised))
      ensures !raised && windowOpen && host.s.running && old(pending) != [] && |old(remaining)| < maxWorkers ==>
        Tried(host.s, old(pending)[0], |host.s.readings|)
      ensures |pending| <= |old(pending)|
      ensures |pending| == |old(pending)| ==> pending == old(pending)
      ensures !windowOpen ==> pending == old(pending)
      ensures remaining.Keys == meta.Keys
      ensures |pending| == |old(pending)| ==>
        remaining.Keys <= old(remaining).Keys && forall p :: p in meta ==> p in old(meta) && meta[p] == old(meta)[p]
      ensures !raised ==> forall p :: p in meta ==> old(host.s).clock < meta[p].deadline
      ensures !raised && windowOpen && host.s.running && 0 < maxWorkers && |pending| == |old(pending)| ==>
        pending == [] || old(remaining) != map[]
      ensures !windowOpen && old(remaining) == map[] ==>
        !raised && remaining == map[] && reports == old(reports)
      ensures Grew(old(reports), reports, ROUND_ERRORS)
    {
      hide Inv, Core, Interrupted, NewTries, Tried, Onward, Starting, Grew;
      ghost var m, before, head := host.s, reports, if pending == [] then None else Some(pending[0]);
      raised := FillPool(windowOpen);
      Facts();
      GrewWithin(before, reports, {Some(StartFailed)}, ROUND_ERRORS);
      if raised {
        ValidIsInterrupted();
        return;
      }
      ghost var k, filled := host.s, reports;
      raised := PollAll();
      GrewWithin(filled, reports, POLL_ERRORS, ROUND_ERRORS);
      GrewOn(before, filled, reports, ROUND_ERRORS);
      PollsAfter(m, k, host.s, head, raised);
    }

    lemma PollsAfter(m: MachineState, k: MachineState, n: MachineState, head: Option<Provider>, raised: bool)
      requires Starting(m, k, false) && Onward(k, n, raised)
      ensures Starting(m, n, raised) && m.clock <= k.clock && (n.running ==> k.running)
      ensures Onward(m, k, false) ==> Onward(m, n, raised)
      ensures head.Some? && Tried(k, head.value, |k.readings|) ==> Tried(n, head.value, |n.readings|)
    {
    }

    lemma ValidIsInterrupted()
      requires Valid()
      ensures Interrupted(host.s, State())
    {
    }

    /** What one turn of the main loop, from m to n, brought if it was not the last. */
    ghost predicate Advanced(m: MachineState, n: MachineState, v: View, w: View, reading: int,
                             windowDeadline: Option<int>) {
      && m.clock <= reading - m.wallOffset && m.clock < n.clock
      && (windowDeadline.Some? ==> reading - m.wallOffset < windowDeadline.value)
      && (|w.pending| == |v.pending| ==>
            && (forall p :: p in w.meta ==> p in v.meta && w.meta[p] == v.meta[p] && m.clock < w.meta[p].deadline)
            && (Open(reading) ==> v.remaining != map[]))
    }

    /** Every child of the pool is past its deadline at the horizon. */
    ghost predicate Covers(horizon: int, meta: map<Provider, Meta>) {
      forall p :: p in meta ==> meta[p].deadline <= horizon
    }

    lemma AdvanceDrops(m: MachineState, n: MachineState, v: View, w: View, reading: int, windowDeadline: Option<int>,
                       horizon: int)
      requires Advanced(m, n, v, w, reading, windowDeadline) && Covers(horizon, v.meta)
      requires w.remaining.Keys == w.meta.Keys
      ensures m.clock < n.clock && m.clock <= reading - m.wallOffset
      ensures windowDeadline.Some? ==> m.clock < windowDeadline.value
      ensures |w.pending| == |v.pending| ==> Covers(horizon, w.meta)
      ensures |w.pending| == |v.pending| && w.remaining.Keys == v.remaining.Keys ==>
        if w.remaining == map[] then !Open(reading) else m.clock < horizon
    {
    }

    lemma HorizonCovers(meta: map<Provider, Meta>)
      ensures Covers(Horizon(meta), meta)
    {
    }

    /** The state of the machine, had the wall clock just been read. */
    ghost function Reading(m: MachineState, reading: int): MachineState {
      m.(readings := m.readings + [reading])
    }

    /**
      One turn of the main loop. It reads the wall clock once, first, and makes no attempt to start a provider outside
      the window. A turn that is not the last either starts a provider, or sees a child leave the pool, or sleeps
      while some child of the pool has time left or while the window is closed; and with a window deadline it sleeps
      before that deadline.
    */
    method Turn(windowDeadline: Option<int>) returns (raised: bool, done: bool, reading: int)
      requires Valid() && 1 <= maxWorkers && |origin.readings| <= |host.s.readings|
      requires pending != [] || remaining != map[]
      modifies this, host
      ensures !raised ==> Valid()
      ensures raised ==> Interrupted(host.s, State())
      ensures old(host.s).clock <= reading - host.s.wallOffset <= host.s.clock
      ensures Starting(Reading(old(host.s), reading), host.s, raised)
      ensures !Open(reading) ==> Onward(Reading(old(host.s), reading), host.s, raised)
      ensures !raised && host.s.running && Open(reading) && old(pending) != [] && old(remaining) == map[] ==>
        Tried(host.s, old(pending)[0], |host.s.readings|)
      ensures !raised && done ==>
        (pending == [] && remaining == map[])
        || (windowDeadline.Some? && windowDeadline.value <= host.s.clock)
      ensures remaining.Keys == meta.Keys
      ensures |pending| <= |old(pending)| && (|pending| == |old(pending)| ==> pending == old(pending))
      ensures |pending| == |old(pending)| ==> remaining.Keys <= old(remaining).Keys
      ensures !Open(reading) ==> pending == old(pending)
      ensures !raised && !done && host.s.running ==>
        Advanced(old(host.s), host.s, old(State()), State(), reading, windowDeadline)
      ensures Grew(old(reports), reports, ROUND_ERRORS)
    {
      hide Inv, Core, Interrupted, Grew, NewTries, Tried, Onward, Starting, Quiet;
      done := false;
      ghost var p := if pending == [] then None else Some(pending[0]);
      reading := ReadWall();
      ghost var m := host.s;
      raised := Round(Open(reading));
      ReadingIsQuiet(old(host.s), m, reading);
      StartingInTime(m, host.s, raised);
      StartingFrom(Reading(old(host.s), reading), m, host.s, raised);
      if raised { return; }
      if pending == [] && remaining == map[] { return false, true, reading; }
      ghost var k := host.s;
      done := Rest(windowDeadline);
      StartingLater(Reading(old(host.s), reading), k, host.s);
      if p.Some? && Tried(k, p.value, |k.readings|) { TriedLater(k, host.s, p.value, |k.readings|); }
    }

    /** The end of a turn: the deadline of the window has passed, or the worker sleeps. */
    method Rest(windowDeadline: Option<int>) returns (done: bool)
      requires Valid()
      modifies host
      ensures Valid() && Quiet(old(host.s), host.s) && host.s.raises == old(host.s).raises
      ensures done ==> windowDeadline.Some? && windowDeadline.value <= host.s.clock
      ensures !done && host.s.running ==> old(host.s).clock < host.s.clock
      ensures !done && windowDeadline.Some? ==> old(host.s).clock < windowDeadline.value
    {
      hide Inv, MachineState.Remembered;
      ghost var k := host.s;
      var t := Now();
      if windowDeadline.Some? && windowDeadline.value <= t { return true; }
      ghost var seen := host.s;
      Sleep();
      QuietOn(k, seen, host.s);
      done := false;
    }

    lemma ReadingIsQuiet(m: MachineState, n: MachineState, t: int)
      requires ReadsWall(m, n, t)
      ensures Quiet(Reading(m, t), n) && n.raises == m.raises && n.wallOffset == m.wallOffset
      ensures m.clock <= n.clock && t == n.wallOffset + n.clock
    {
    }

    lemma StartingFrom(m: MachineState, k: MachineState, n: MachineState, raised: bool)
      requires Quiet(m, k) && k.raises == m.raises
      ensures Starting(k, n, raised) ==> Starting(m, n, raised)
      ensures Onward(k, n, raised) ==> Onward(m, n, raised)
    {
    }

    lemma StartingLater(m: MachineState, k: MachineState, n: MachineState)
      requires Quiet(k, n) && n.raises == k.raises
      ensures Starting(m, k, false) ==> Starting(m, n, false)
      ensures Onward(m, k, false) ==> Onward(m, n, false)
      ensures k.clock <= n.clock && (n.running ==> k.running) && SameMemory(k, n)
    {
    }

    lemma TriedLater(m: MachineState, n: MachineState, p: Provider, pass: nat)
      requires Tried(m, p, pass) && SameMemory(m, n)
      ensures Tried(n, p, pass)
    {
    }

    // ---------- what the machine remembers of the passes ----------

    /** Every attempt made since the cycle began belongs to a pass that read the clock inside the window. */
    ghost predicate StartsInside(m: MachineState, base: nat) {
      && (forall pid :: pid in m.launched ==> WellTimed(m, base, m.launched[pid].pass))
      && (forall a :: a in m.refused ==> WellTimed(m, base, a.pass))
    }

    /** An attempt in this pass, if made since the cycle began, was made inside the window. */
    ghost predicate WellTimed(m: MachineState, base: nat, pass: nat) {
      |origin.readings| < pass ==> base < pass <= |m.readings| && Open(m.readings[pass - 1])
    }

    /** Time passed from m to n, and the wall clock may have been read. */
    ghost predicate Since(m: MachineState, n: MachineState) {
      && m.clock <= n.clock && n.wallOffset == m.wallOffset && m.readings <= n.readings
      && forall k :: |m.readings| <= k < |n.readings| ==> m.wallOffset + m.clock <= n.readings[k]
    }

    lemma SinceOn(k: MachineState, m: MachineState, n: MachineState)
      requires Since(k, m) && Since(m, n)
      ensures Since(k, n)
    {
    }

    ghost predicate AllClosed(m: MachineState, base: nat) {
      forall k :: base <= k < |m.readings| ==> !Open(m.readings[k])
    }

    /** This reading is the first of the passes inside the window. */
    ghost predicate FirstOpen(m: MachineState, base: nat, k: nat) {
      base <= k < |m.readings| && Open(m.readings[k]) && forall j :: base <= j < k ==> !Open(m.readings[j])
    }

    /** The first pass inside the window tried to start the provider, unless an error or a signal came. */
    ghost predicate HeadTried(m: MachineState, base: nat, p: Provider, well: bool) {
      forall k: nat :: FirstOpen(m, base, k) && (well || k + 1 < |m.readings|) ==> Tried(m, p, k + 1)
    }

    /** The readings up to `n` came before the window deadline. */
    ghost predicate BeforeDeadline(m: MachineState, base: nat, n: int, windowDeadline: Option<int>) {
      windowDeadline.Some? ==>
        forall k :: base <= k < n && k < |m.readings| ==> m.readings[k] < m.wallOffset + windowDeadline.value
    }

    /**
      The record of the passes so far, which are the readings from `base` on; `well` says that neither an error nor
      a signal came, and `goesOn` that the last pass did not end the loop.
    */
    ghost predicate Journal(m: MachineState, base: nat, before: View, now: View, windowDeadline: Option<int>,
                            well: bool, goesOn: bool)
    {
      && |origin.readings| <= base <= |m.readings|
      && StartsInside(m, base)
      && (AllClosed(m, base) ==> now.pending == before.pending && now.remaining.Keys <= before.remaining.Keys)
      && (before.remaining == map[] && before.pending != [] ==> HeadTried(m, base, before.pending[0], well))
      && Grew(before.reports, now.reports, ROUND_ERRORS)
      && BeforeDeadline(m, base, if goesOn then |m.readings| else |m.readings| - 1, windowDeadline)
    }

    lemma EmptyJournal(v: View, windowDeadline: Option<int>, well: bool)
      requires |origin.readings| <= |host.s.readings| && StartsInside(host.s, |host.s.readings|)
      ensures Journal(host.s, |host.s.readings|, v, v, windowDeadline, well, well)
    {
    }

    lemma StartsStayInside(m: MachineState, n: MachineState, base: nat, reading: int)
      requires StartsInside(m, base) && base <= |m.readings|
      requires Starting(Reading(m, reading), n, false) || Starting(Reading(m, reading), n, true)
      requires !Open(reading) ==> SameMemory(Reading(m, reading), n)
      ensures StartsInside(n, base)
    {
    }

    lemma ClosedSoFar(m: MachineState, n: MachineState, base: nat, reading: int)
      requires n.readings == m.readings + [reading] && base <= |m.readings|
      ensures AllClosed(n, base) <==> AllClosed(m, base) && !Open(reading)
      ensures forall k: nat :: FirstOpen(n, base, k) ==>
        FirstOpen(m, base, k) || (k == |m.readings| && AllClosed(m, base))
    {
      hide Open;
      assert n.readings[|m.readings|] == reading;
      assert forall k :: 0 <= k < |m.readings| ==> n.readings[k] == m.readings[k];
    }

    lemma HeadStaysTried(m: MachineState, n: MachineState, base: nat, p: Provider, reading: int, well: bool)
      requires HeadTried(m, base, p, true) && base <= |m.readings|
      requires Starting(Reading(m, reading), n, false) || Starting(Reading(m, reading), n, true)
      requires well && AllClosed(m, base) && Open(reading) ==> Tried(n, p, |n.readings|)
      ensures HeadTried(n, base, p, well)
    {
      hide Open, FirstOpen, Tried, AllClosed, NewTries;
      ClosedSoFar(m, n, base, reading);
      forall k: nat | FirstOpen(n, base, k) && (well || k + 1 < |n.readings|) ensures Tried(n, p, k + 1) {
        if FirstOpen(m, base, k) {
          TriedByThen(m, n, p, k + 1, reading);
        } else {
          OpenIsRead(n, base, k);
        }
      }
    }

    lemma TriedByThen(m: MachineState, n: MachineState, p: Provider, pass: nat, reading: int)
      requires Tried(m, p, pass)
      requires Starting(Reading(m, reading), n, false) || Starting(Reading(m, reading), n, true)
      ensures Tried(n, p, pass)
    {
    }

    lemma OpenIsRead(m: MachineState, base: nat, k: nat)
      requires FirstOpen(m, base, k)
      ensures k < |m.readings| && Open(m.readings[k])
    {
    }

    lemma DeadlineStaysAhead(m: MachineState, n: MachineState, base: nat, reading: int, windowDeadline: Option<int>,
                             goesOn: bool)
      requires BeforeDeadline(m, base, |m.readings|, windowDeadline)
      requires n.readings == m.readings + [reading] && n.wallOffset == m.wallOffset
      requires goesOn && windowDeadline.Some? ==> reading - m.wallOffset < windowDeadline.value
      ensures BeforeDeadline(n, base, if goesOn then |n.readings| else |n.readings| - 1, windowDeadline)
    {
    }

    /** A turn of the main loop, with its entry in the journal. */
    method Pass(windowDeadline: Option<int>, ghost base: nat, ghost before: View)
      returns (raised: bool, done: bool, reading: int)
      requires Valid() && 1 <= maxWorkers
      requires pending != [] || remaining != map[]
      requires Journal(host.s, base, before, State(), windowDeadline, true, true)
      modifies this, host
      ensures !raised ==> Valid()
      ensures raised ==> Interrupted(host.s, State())
      ensures host.s.readings == old(host.s).readings + [reading] && host.s.wallOffset == old(host.s).wallOffset
      ensures old(host.s).clock <= reading - host.s.wallOffset <= host.s.clock
      ensures host.s.raises == old(host.s).raises + (if raised then 1 else 0)
      ensures !raised && done ==>
        (pending == [] && remaining == map[])
        || (windowDeadline.Some? && windowDeadline.value <= host.s.clock)
      ensures remaining.Keys == meta.Keys && (host.s.running ==> old(host.s).running)
      ensures |pending| <= |old(pending)| && (|pending| == |old(pending)| ==> remaining.Keys <= old(remaining).Keys)
      ensures !raised && !done && host.s.running ==>
        Advanced(old(host.s), host.s, old(State()), State(), reading, windowDeadline)
      ensures Journal(host.s, base, before, State(), windowDeadline,
                      !raised && host.s.running, !raised && !done && host.s.running)
    {
      hide Inv, Core, Interrupted, Grew, Open, Advanced, Tried, Starting, Onward, Journal;
      ghost var now, m := State(), host.s;
      JournalSpans(m, base, before, now, windowDeadline);
      raised, done, reading := Turn(windowDeadline);
      ghost var goesOn := !raised && !done && host.s.running;
      StartingInTime(Reading(m, reading), host.s, raised);
      if !Open(reading) { OnwardInTime(Reading(m, reading), host.s, raised); }
      if goesOn { AdvanceIsTimely(m, host.s, now, State(), reading, windowDeadline); }
      JournalGoesOn(m, host.s, base, before, now, State(), windowDeadline, reading, raised,
                    !raised && host.s.running, goesOn);
    }

    /** The entry of one more pass. */
    lemma JournalGoesOn(m: MachineState, n: MachineState, base: nat, before: View, now: View, next: View,
                        windowDeadline: Option<int>, reading: int, raised: bool, well: bool, goesOn: bool)
      requires Journal(m, base, before, now, windowDeadline, true, true)
      requires Starting(Reading(m, reading), n, raised)
      requires n.readings == m.readings + [reading] && n.wallOffset == m.wallOffset
      requires !Open(reading) ==> SameMemory(Reading(m, reading), n) && next.pending == now.pending
      requires |next.pending| == |now.pending| ==> next.remaining.Keys <= now.remaining.Keys
      requires well && Open(reading) && now.pending != [] && now.remaining == map[] ==>
        Tried(n, now.pending[0], |n.readings|)
      requires Grew(now.reports, next.reports, ROUND_ERRORS)
      requires goesOn && windowDeadline.Some? ==> reading - m.wallOffset < windowDeadline.value
      ensures Journal(n, base, before, next, windowDeadline, well, goesOn)
    {
      hide Grew, Open, BeforeDeadline, StartsInside, AllClosed, HeadTried, Tried, Starting, SameMemory;
      StartsStayInside(m, n, base, reading);
      ClosedSoFar(m, n, base, reading);
      if before.remaining == map[] && before.pending != [] {
        HeadStaysTried(m, n, base, before.pending[0], reading, well);
      }
      GrewOn(before.reports, now.reports, next.reports, ROUND_ERRORS);
      DeadlineStaysAhead(m, n, base, reading, windowDeadline, goesOn);
    }

    lemma AdvanceIsTimely(m: MachineState, n: MachineState, v: View, w: View, reading: int, windowDeadline: Option<int>)
      requires Advanced(m, n, v, w, reading, windowDeadline)
      ensures windowDeadline.Some? ==> reading - m.wallOffset < windowDeadline.value
    {
    }

    lemma JournalEnds(m: MachineState, base: nat, before: View, now: View, windowDeadline: Option<int>,
                      well: bool, goesOn: bool)
      requires Journal(m, base, before, now, windowDeadline, well, goesOn)
      ensures Journal(m, base, before, now, windowDeadline, well, false)
    {
    }

    lemma JournalSays(m: MachineState, base: nat, before: View, now: View, windowDeadline: Option<int>, well: bool)
      requires Journal(m, base, before, now, windowDeadline, well, false)
      ensures StartsInside(m, base) && Grew(before.reports, now.reports, ROUND_ERRORS)
      ensures before.remaining == map[] && before.pending != [] ==> HeadTried(m, base, before.pending[0], well)
      ensures BeforeDeadline(m, base, |m.readings| - 1, windowDeadline)
      ensures base <= |m.readings|
      ensures |m.readings| == base ==> now.pending == before.pending && now.remaining.Keys <= before.remaining.Keys
    {
    }

    /**
      These readings, in the order in which they were made, each came after an opening that the pass before waited
      for: both passes were outside the window, and the opening lies between them.
    */
    ghost predicate AllMissed(readings: seq<int>, base: nat, missed: seq<nat>) {
      && (missed != [] ==> enforceWindow)
      && (forall i :: 0 <= i < |missed| ==>
            base < missed[i] < |readings| && Missed(readings[missed[i] - 1], readings[missed[i]], start, end))
      && (forall i, j :: 0 <= i < j < |missed| ==> missed[i] < missed[j])
    }

    ghost predicate Waits(w: Wait, readings: seq<int>, base: nat, patience: nat) {
      && (w.closedAt.Some? ==>
           base < |readings| && readings[|readings| - 1] == w.closedAt.value && !Open(w.closedAt.value))
      && AllMissed(readings, base, w.missed)
      && |w.missed| + w.budget == patience
    }

    /** An opening lies between the last pass, if it was waiting, and this reading. */
    predicate Late(w: Wait, reading: int) {
      w.closedAt.Some? && NextStart(w.closedAt.value, start) <= reading
    }

    /**
      Notes a pass that read the clock outside the window with nobody in the pool: either it waits for the same
      opening as the pass before it, or there was an opening between the two, and then the reading is noted.
    */
    method Note(w: Wait, readings: seq<int>, ghost base: nat, ghost patience: nat) returns (next: Wait, tooMany: bool)
      requires base < |readings| && !Open(readings[|readings| - 1])
      requires Waits(w, readings[..|readings| - 1], base, patience)
      requires w.closedAt.Some? ==> w.closedAt.value <= readings[|readings| - 1]
      ensures tooMany <==> Late(w, readings[|readings| - 1]) && w.budget == 0
      ensures next.missed == w.missed + if Late(w, readings[|readings| - 1]) then [|readings| - 1] else []
      ensures AllMissed(readings, base, next.missed) && next.closedAt == Some(readings[|readings| - 1])
      ensures tooMany ==> |next.missed| == patience + 1
      ensures !tooMany ==> Waits(next, readings, base, patience) && next.budget <= w.budget
      ensures !tooMany && next.budget == w.budget && w.closedAt.Some? ==>
        readings[|readings| - 1] < NextStart(w.closedAt.value, start)
        && NextStart(readings[|readings| - 1], start) == NextStart(w.closedAt.value, start)
    {
      var position := |readings| - 1;
      var reading := readings[position];
      assert w.closedAt.Some? ==> readings[position - 1] == w.closedAt.value;
      if Late(w, reading) {
        tooMany := w.budget == 0;
        next := Wait(Some(reading), w.missed + [position], if tooMany then 0 else w.budget - 1);
      } else {
        if w.closedAt.Some? { SameOpening(w.closedAt.value, reading, start); }
        next, tooMany := w.(closedAt := Some(reading)), false;
      }
    }

    /** Below the deadline, the lexicographic measure of the main loop. */
    ghost predicate Drops(v: View, w: View, a: Wait, b: Wait, before: nat, after: nat) {
      || b.budget < a.budget
      || (b.budget == a.budget
          && (|w.pending| < |v.pending|
              || (|w.pending| == |v.pending|
                  && (w.remaining.Keys < v.remaining.Keys
                      || (w.remaining.Keys == v.remaining.Keys
                          && ((a.closedAt.None? && b.closedAt.Some?)
                              || (a.closedAt.None? == b.closedAt.None? && after < before)))))))
    }

    ghost predicate Follows(w: Wait, base: nat, patience: nat, windowDeadline: Option<int>, horizon: int)
      reads this, host
    {
      && Waits(w, host.s.readings, base, patience) && remaining.Keys == meta.Keys && Covers(horizon, meta)
      && (w.closedAt.Some? ==>
            remaining == map[] && windowDeadline.None? && w.closedAt.value <= host.s.wallOffset + host.s.clock)
    }

    /** Time that is left until the opening that a reading outside the window waits for, or until the horizon. */
    ghost function TimeLeft(closedAt: Option<int>, horizon: int, m: MachineState): nat {
      Max0((if closedAt.Some? then NextStart(closedAt.value, start) - m.wallOffset else horizon) - m.clock)
    }

    /** A pass, with what it means for the wait. */
    method Step(windowDeadline: Option<int>, w: Wait, ghost patience: nat, ghost horizon: int,
                ghost base: nat, ghost before: View)
      returns (raised: bool, done: bool, tooMany: bool, next: Wait, ghost later: int)
      requires Valid() && 1 <= maxWorkers && host.s.running
      requires pending != [] || remaining != map[]
      requires Journal(host.s, base, before, State(), windowDeadline, true, true)
      requires Follows(w, base, patience, windowDeadline, horizon)
      modifies this, host
      ensures !raised ==> Valid()
      ensures raised ==> Interrupted(host.s, State())
      ensures Since(old(host.s), host.s)
      ensures host.s.raises == old(host.s).raises + (if raised then 1 else 0)
      ensures |old(host.s).readings| < |host.s.readings|
      ensures !raised && done ==>
        (pending == [] && remaining == map[])
        || (windowDeadline.Some? && windowDeadline.value <= host.s.clock)
      ensures Journal(host.s, base, before, State(), windowDeadline,
                      !raised && host.s.running, !raised && !done && host.s.running)
      ensures tooMany ==>
        && !raised && !done && windowDeadline.None?
        && |next.missed| == patience + 1 && AllMissed(host.s.readings, base, next.missed)
      ensures !raised && !done && !tooMany ==> Follows(next, base, patience, windowDeadline, later)
      ensures !raised && !done && !tooMany && host.s.running ==>
        && (windowDeadline.Some? ==> old(host.s).clock < windowDeadline.value && old(host.s).clock < host.s.clock)
        && (windowDeadline.None? ==>
              Drops(old(State()), State(), w, next, TimeLeft(w.closedAt, horizon, old(host.s)),
                    TimeLeft(next.closedAt, later, host.s)))
    {
      hide Inv, Interrupted, AllMissed, Waits, Journal, Open, NextStart, Advanced, Covers, Late, Drops, TimeLeft;
      ghost var now, m := State(), host.s;
      var reading;
      raised, done, reading := Pass(windowDeadline, base, before);
      next, tooMany, later := w, false, horizon;
      if raised || done { return; }
      JournalSpans(m, base, before, now, windowDeadline);
      if host.s.running { AdvanceDrops(m, host.s, now, State(), reading, windowDeadline, horizon); }
      next, tooMany, later := Judge(windowDeadline, w, reading, base, patience, horizon, m, now);
    }

    /** Whether the pass waited for the window to open, and whether it came too late for an opening once too often. */
    method Judge(windowDeadline: Option<int>, w: Wait, reading: int, ghost base: nat, ghost patience: nat,
                 ghost horizon: int, ghost m: MachineState, ghost v: View)
      returns (next: Wait, tooMany: bool, ghost later: int)
      requires base <= |m.readings| && host.s.readings == m.readings + [reading] && host.s.wallOffset == m.wallOffset
      requires m.clock <= reading - m.wallOffset && reading - m.wallOffset <= host.s.clock
      requires Waits(w, m.readings, base, patience) && remaining.Keys == meta.Keys && Covers(horizon, v.meta)
      requires w.closedAt.Some? ==>
        v.remaining == map[] && windowDeadline.None? && w.closedAt.value <= m.wallOffset + m.clock
      requires |pending| <= |v.pending| && (|pending| == |v.pending| ==> remaining.Keys <= v.remaining.Keys)
      requires host.s.running ==>
        && m.clock < host.s.clock
        && (|pending| == |v.pending| ==> Covers(horizon, meta))
        && (|pending| == |v.pending| && remaining.Keys == v.remaining.Keys ==>
              if remaining == map[] then !Open(reading) else m.clock < horizon)
      ensures tooMany ==>
        windowDeadline.None? && |next.missed| == patience + 1 && AllMissed(host.s.readings, base, next.missed)
      ensures !tooMany ==> Follows(next, base, patience, windowDeadline, later)
      ensures !tooMany && host.s.running && windowDeadline.None? ==>
        Drops(v, State(), w, next, TimeLeft(w.closedAt, horizon, m), TimeLeft(next.closedAt, later, host.s))
    {
      hide AllMissed, Waits, Open, NextStart, Covers, Late, Drops, TimeLeft;
      next, tooMany, later := w.(closedAt := None), false, horizon;
      if |pending| < |v.pending| || !host.s.running {
        later := Horizon(meta);
        HorizonCovers(meta);
      }
      var readings := host.s.readings;
      assert readings[..|readings| - 1] == m.readings && readings[|readings| - 1] == reading;
      NoLongerWaits(w, m.readings, reading, base, patience);
      if windowDeadline.None? && !Open(reading) && remaining == map[] {
        next, tooMany := Note(w, readings, base, patience);
        LateIsLate(w, reading);
      }
      if windowDeadline.None? && host.s.running && !tooMany {
        WaitDrops(v, State(), w, next, horizon, later, m, host.s, reading);
      }
    }

    /** What makes the measure smaller, from one pass to the next. */
    lemma WaitDrops(v: View, u: View, a: Wait, b: Wait, horizon: int, later: int, m: MachineState, n: MachineState,
                    reading: int)
      requires m.clock < n.clock && n.wallOffset == m.wallOffset && m.clock <= reading - m.wallOffset
      requires b.budget <= a.budget && |u.pending| <= |v.pending|
      requires |u.pending| == |v.pending| ==> u.remaining.Keys <= v.remaining.Keys && later == horizon
      requires a.closedAt.Some? ==> v.remaining == map[]
      requires b.closedAt.Some? ==> u.remaining == map[] && b.closedAt == Some(reading)
      requires |u.pending| == |v.pending| && u.remaining.Keys == v.remaining.Keys ==>
        if u.remaining == map[] then b.closedAt.Some? else m.clock < horizon
      requires a.closedAt.Some? && b.closedAt.Some? && b.budget == a.budget ==>
        reading < NextStart(a.closedAt.value, start) == NextStart(reading, start)
      ensures Drops(v, u, a, b, TimeLeft(a.closedAt, horizon, m), TimeLeft(b.closedAt, later, n))
    {
    }

    lemma LateIsLate(w: Wait, reading: int)
      ensures Late(w, reading) <==> w.closedAt.Some? && NextStart(w.closedAt.value, start) <= reading
    {
    }

    lemma JournalSpans(m: MachineState, base: nat, before: View, now: View, windowDeadline: Option<int>)
      requires Journal(m, base, before, now, windowDeadline, true, true)
      ensures base <= |m.readings| && |origin.readings| <= base
    {
    }

    lemma NoLongerWaits(w: Wait, readings: seq<int>, reading: int, base: nat, patience: nat)
      requires Waits(w, readings, base, patience)
      ensures Waits(w.(closedAt := None), readings + [reading], base, patience)
    {
    }

    lemma WaitsNot(m: MachineState, base: nat, patience: nat)
      ensures Waits(Wait(None, [], patience), m.readings, base, patience)
    {
    }

    /**
      The main loop: it ends even when no child ever exits. Without a window deadline it may have to wait for the
      window to open; it is then followed until its passes have slept through `patience` whole openings and one more.
    */
    method MainLoop(windowDeadline: Option<int>, patience: nat)
      returns (raised: bool, waiting: bool, missed: seq<nat>)
      requires Valid() && 1 <= maxWorkers
      requires |origin.readings| <= |host.s.readings| && StartsInside(host.s, |host.s.readings|)
      modifies this, host
      ensures !raised ==> Valid()
      ensures raised ==> Interrupted(host.s, State()) && !waiting
      ensures Since(old(host.s), host.s)
      ensures host.s.raises == old(host.s).raises + (if raised then 1 else 0)
      ensures !raised && !waiting && host.s.running ==>
        (pending == [] && remaining == map[])
        || (windowDeadline.Some? && windowDeadline.value <= host.s.clock)
      ensures host.s.running && (old(pending) != [] || old(remaining) != map[]) ==>
        |old(host.s).readings| < |host.s.readings|
      ensures waiting ==>
        windowDeadline.None? && |missed| == patience + 1
        && AllMissed(host.s.readings, |old(host.s).readings|, missed)
      ensures Journal(host.s, |old(host.s).readings|, old(State()), State(), windowDeadline,
                      !raised && host.s.running, false)
    {
      hide Inv, Interrupted, AllMissed, Journal, Covers, TimeLeft, StartsInside, Waits;
      raised, waiting, missed := false, false, [];
      Facts();
      ghost var base, before := |host.s.readings|, State();
      EmptyJournal(before, windowDeadline, host.s.running);
      ghost var horizon := Horizon(meta);
      HorizonCovers(meta);
      var w := Wait(None, [], patience);
      WaitsNot(host.s, base, patience);
      ghost var goesOn := host.s.running;
      while (pending != [] || remaining != map[]) && host.s.running
        invariant Valid() && !raised && !waiting
        invariant Since(old(host.s), host.s) && host.s.raises == old(host.s).raises
        invariant |host.s.readings| == base ==> pending == old(pending) && remaining == old(remaining)
        invariant Follows(w, base, patience, windowDeadline, horizon)
        invariant goesOn == host.s.running
        invariant Journal(host.s, base, before, State(), windowDeadline, goesOn, goesOn)
        decreases host.s.running,
                  if windowDeadline.Some? then Max0(windowDeadline.value - host.s.clock) else 0,
                  w.budget, |pending|, remaining.Keys, w.closedAt.None?, TimeLeft(w.closedAt, horizon, host.s)
      {
        var done;
        ghost var m := host.s;
        raised, done, waiting, w, horizon := Step(windowDeadline, w, patience, horizon, base, before);
        SinceOn(old(host.s), m, host.s);
        goesOn := !raised && !done && host.s.running;
        if raised || done || waiting { break; }
      }
      missed := w.missed;
      JournalEnds(host.s, base, before, State(), windowDeadline, !raised && host.s.running, goesOn);
    }

    /**
      The finally block: kills and finalises whatever is still in the pool. A provider without an entry in `meta` was
      finalised before, when an error was raised.
    */
    method CleanUp() returns (raised: bool)
      requires Interrupted(host.s, State())
      modifies this, host
      ensures history == old(history) && remaining == old(remaining) && meta == old(meta)
      ensures host.s.Valid() && AllTruthful(host.s, State()) && Traced(host.s, State())
      ensures NoneClosedTwice(host.s, origin) && (!raised ==> AllSettled(host.s, origin))
      ensures Onward(old(host.s), host.s, raised)
      ensures !raised ==> forall p :: p in meta ==> p in reports
      ensures remaining == map[] ==> !raised && reports == old(reports) && host.s == old(host.s)
      ensures Grew(old(reports), reports, CLEANUP_ERRORS)
    {
      hide Books, AllTruthful, Truthful, Grew, Onward, Traced;
      StandsStill(host.s);
      GrewFrom(reports, CLEANUP_ERRORS);
      raised := false;
      var todo := remaining.Keys;
      ghost var open := meta.Keys;
      MetaInPool();
      while todo != {}
        invariant Books(host.s, State(), open) && AllTruthful(host.s, State())
        invariant todo <= remaining.Keys && open == todo * meta.Keys && Onward(old(host.s), host.s, false)
        invariant history == old(history) && remaining == old(remaining) && meta == old(meta)
        invariant forall p :: p in todo ==> p !in reports
        invariant forall p :: p in meta && p !in todo ==> p in reports
        invariant Grew(old(reports), reports, CLEANUP_ERRORS)
        invariant remaining == map[] ==> host.s == old(host.s) && reports == old(reports)
        decreases |todo|
      {
        var p :| p in todo;
        label Clean:
        ghost var m := host.s;
        raised, open := CleanOne(p, open);
        OnwardOn(old(host.s), m, host.s, raised);
        GrewOn(old(reports), old@Clean(reports), reports, CLEANUP_ERRORS);
        if raised {
          OpenBooks(host.s, State(), open);
          return;
        }
        todo := todo - {p};
      }
      assert open == {};
      EmptyBooks(host.s, State());
      OpenBooks(host.s, State(), open);
    }

    lemma MetaInPool()
      requires Books(host.s, State(), meta.Keys)
      ensures meta.Keys <= remaining.Keys
    {
    }

    method CleanOne(p: Provider, ghost open: set<Provider>) returns (raised: bool, ghost left: set<Provider>)
      requires Books(host.s, State(), open) && AllTruthful(host.s, State())
      requires p in remaining && (p in open <==> p in meta) && p !in reports
      modifies this, host
      ensures history == old(history) && remaining == old(remaining) && meta == old(meta)
      ensures AllTruthful(host.s, State()) && Onward(old(host.s), host.s, raised)
      ensures Books(host.s, State(), left) && (!raised ==> left == open - {p})
      ensures reports.Keys == if !raised && p in meta then old(reports).Keys + {p} else old(reports).Keys
      ensures Grew(old(reports), reports, CLEANUP_ERRORS)
    {
      hide Books, AllTruthful, Truthful, Grew, Deserved, Ended, Settled, Onward, Outcomes, Quiet;
      GrewFrom(reports, CLEANUP_ERRORS);
      CleanFacts(p, open);
      ghost var m := host.s;
      var pid := remaining[p];
      left := open;
      raised := EndChild(host, pid);
      if raised || p !in meta {
        EndedIsQuiet(m, host.s, pid);
        RefusalToDieKeepsBooks(m, host.s, State(), p, open);
        return;
      }
      CleaningIsDeserved(p);
      EndedStays(m, host.s, pid);
      ghost var k := host.s;
      var report;
      report, raised := Finalize(host, p, history, pid, meta[p].runId, Some(Forced(LogStopped, WorkerCleanup)));
      EndedSettles(m, k, host.s, pid, meta[p].runId, raised);
      CleanKeepsBooks(m, host.s, State(), open, p, report);
      left := open - {p};
      if raised { return; }
      GrewByOne(reports, p, report, CLEANUP_ERRORS);
      reports := reports[p := report];
    }

    lemma EndedIsQuiet(m: MachineState, n: MachineState, pid: Pid)
      ensures Ended(m, n, pid) ==>
        n.Valid() && Quiet(m, n.(killed := m.killed)) && m.killed <= n.killed <= m.killed + {pid}
    {
    }

    lemma CleanFacts(p: Provider, open: set<Provider>)
      requires Books(host.s, State(), open) && p in remaining
      ensures Outcomes(Some(Forced(LogStopped, WorkerCleanup))) == CLEANUP_ERRORS
      ensures host.s.Valid() && remaining[p] in host.s.launched
      ensures p in history.pidOf && history.pidOf[p] == remaining[p] && p in history.runOf
      ensures p in meta ==> history.runOf[p] == meta[p].runId
      ensures p in open ==> history.runOf[p] !in host.s.confirmed
    {
    }

    lemma CleaningIsDeserved(p: Provider)
      ensures Deserved(host.s, history, p, Forced(LogStopped, WorkerCleanup))
    {
    }

    /** What is returned or raised at the end is complete and truthful, whatever happened. */
    ghost predicate Sound(outcome: Outcome, windowDeadline: Option<int>)
      reads this, host
    {
      && host.s.Valid() && AllTruthful(host.s, State()) && Traced(host.s, State())
      && match outcome
         case Returned(result) =>
           && AllSettled(host.s, origin) && Caused(host.s, reports, windowDeadline)
           && reports.Keys == ToSet(providers) && |result| == |providers|
           && (forall i :: 0 <= i < |providers| ==> result[i] == reports[providers[i]])
         case Raised(cleaned) =>
           && NoneClosedTwice(host.s, origin)
           && (cleaned ==> AllSettled(host.s, origin) && forall p :: p in meta ==> p in reports)
         case StillWaiting => Valid()
    }

    /** The cycle raises an error if some call of it did, and skips nothing of its clean-up unless a second one does. */
    function Raises(outcome: Outcome): nat {
      if outcome.Raised? then if outcome.cleaned then 1 else 2 else 0
    }

    /**
      What the machine remembers of the passes, which are its readings from `base` on: no attempt to start a provider
      was made outside the window, the first pass inside it made the first one, and all passes but the last came
      before the window deadline.
    */
    ghost predicate Observed(base: nat, windowDeadline: Option<int>, well: bool)
      reads this, host
    {
      && StartsInside(host.s, base)
      && (providers != [] ==> HeadTried(host.s, base, providers[0], well))
      && BeforeDeadline(host.s, base, |host.s.readings| - 1, windowDeadline)
      && (providers != [] && host.s.running ==> base < |host.s.readings|)
    }

    /** run_cycle_parallel from the main loop on, with its finally block. */
    method Run(windowDeadline: Option<int>, patience: nat) returns (outcome: Outcome, missed: seq<nat>)
      requires Valid() && 1 <= maxWorkers
      requires pending == providers && remaining == map[] && reports == map[]
      requires |origin.readings| <= |host.s.readings| && StartsInside(host.s, |host.s.readings|)
      modifies this, host
      ensures Sound(outcome, windowDeadline)
      ensures Observed(|old(host.s).readings|, windowDeadline, !outcome.Raised? && host.s.running)
      ensures Since(old(host.s), host.s) && host.s.raises == old(host.s).raises + Raises(outcome)
      ensures outcome.StillWaiting? ==>
        windowDeadline.None? && |missed| == patience + 1
        && AllMissed(host.s.readings, |old(host.s).readings|, missed)
    {
      hide Inv, Interrupted, Sound, Raises, Grew, AllMissed, StartsInside, BeforeDeadline, Journal;
      hide HeadTried, Since, SameMemory;
      var raised, waiting;
      ghost var base, before := |host.s.readings|, State();
      raised, waiting, missed := MainLoop(windowDeadline, patience);
      JournalSays(host.s, base, before, State(), windowDeadline, !raised && host.s.running);
      if waiting {
        ValidIsSound(windowDeadline);
        return StillWaiting, missed;
      }
      ghost var k, well := host.s, !raised && host.s.running;
      outcome := Finish(raised, windowDeadline);
      StillObserved(k, host.s, base, windowDeadline, well, !outcome.Raised? && host.s.running);
      SinceStill(old(host.s), k, host.s);
    }

    lemma SinceStill(m: MachineState, k: MachineState, n: MachineState)
      requires Since(m, k) && SameMemory(k, n) && k.clock <= n.clock
      ensures Since(m, n) && n.readings == k.readings
    {
    }

    /** The cycle from the end of its main loop on. */
    method Finish(failed: bool, windowDeadline: Option<int>) returns (outcome: Outcome)
      requires if failed then Interrupted(host.s, State()) else Valid()
      requires Grew(map[], reports, ROUND_ERRORS)
      requires !failed && host.s.running ==>
        (pending == [] && remaining == map[])
        || (windowDeadline.Some? && windowDeadline.value <= host.s.clock)
      modifies this, host
      ensures Sound(outcome, windowDeadline) && !outcome.StillWaiting? && (failed ==> outcome.Raised?)
      ensures old(host.s).clock <= host.s.clock && (host.s.running ==> old(host.s).running)
      ensures SameMemory(old(host.s), host.s)
      ensures host.s.raises + (if failed then 1 else 0) == old(host.s).raises + Raises(outcome)
    {
      hide Inv, Interrupted, Books, AllSettled, NoneClosedTwice, AllTruthful, Traced, Grew, Caused;
      LoopIsCaused(windowDeadline);
      var raised := failed;
      if !raised { raised := WindUp(windowDeadline); }
      if !raised { EveryoneReported(); }
      var again := CleanUp();
      if raised || again { return Raised(!again); }
      var byProvider := reports;
      outcome := Returned(seq(|providers|, i requires 0 <= i < |providers| => byProvider[providers[i]]));
    }

    lemma ValidIsSound(windowDeadline: Option<int>)
      requires Valid()
      ensures Sound(StillWaiting, windowDeadline) && Raises(StillWaiting) == 0
    {
    }

    lemma StillObserved(m: MachineState, n: MachineState, base: nat, windowDeadline: Option<int>,
                        before: bool, now: bool)
      requires SameMemory(m, n) && (now ==> before)
      requires StartsInside(m, base) && (providers != [] ==> HeadTried(m, base, providers[0], before))
      requires BeforeDeadline(m, base, |m.readings| - 1, windowDeadline)
      ensures StartsInside(n, base) && (providers != [] ==> HeadTried(n, base, providers[0], now))
      ensures BeforeDeadline(n, base, |n.readings| - 1, windowDeadline)
    {
      hide FirstOpen, Open;
      if providers != [] { HeadStillTried(m, n, base, providers[0], before, now); }
    }

    lemma HeadStillTried(m: MachineState, n: MachineState, base: nat, p: Provider, before: bool, now: bool)
      requires SameMemory(m, n) && HeadTried(m, base, p, before) && (now ==> before)
      ensures HeadTried(n, base, p, now)
    {
      forall k: nat | FirstOpen(n, base, k) && (now || k + 1 < |n.readings|) ensures Tried(n, p, k + 1) {
        assert FirstOpen(m, base, k);
        TriedLater(m, n, p, k + 1);
      }
    }

    lemma LoopIsCaused(windowDeadline: Option<int>)
      requires Grew(map[], reports, ROUND_ERRORS)
      ensures Caused(host.s, reports, windowDeadline)
    {
    }

    /** After the main loop: stops what is left, and reports what was never started. */
    method WindUp(windowDeadline: Option<int>) returns (raised: bool)
      requires Valid() && Caused(host.s, reports, windowDeadline)
      requires host.s.running ==>
        (pending == [] && remaining == map[])
        || (windowDeadline.Some? && windowDeadline.value <= host.s.clock)
      modifies this, host
      ensures Interrupted(host.s, State())
      ensures Onward(old(host.s), host.s, raised)
      ensures !raised ==> Valid() && pending == [] && remaining == map[] && Caused(host.s, reports, windowDeadline)
    {
      hide Inv, Core, Interrupted, Grew, Caused;
      var stop := if host.s.running then ActiveWindowExpired else WorkerStopped;
      ghost var m, before := host.s, reports;
      if remaining != map[] {
        raised := StopAll(stop);
        if raised { return; }
        GrowthIsCaused(m, host.s, before, reports, {Some(stop), Some(RunLogFinalizeError)}, windowDeadline);
      }
      ghost var k;
      k, before := host.s, reports;
      raised := false;
      if pending != [] {
        raised := ReportPending(stop);
        if !raised { GrowthIsCaused(k, host.s, before, reports, {Some(stop)}, windowDeadline); }
        OnwardOn(m, k, host.s, raised);
      }
      ValidIsInterrupted();
    }

    /** The window was open when the wall clock was read first, and closed when it was read again. */
    predicate ClosedBetween(first: int, second: int) {
      enforceWindow && Within(Clock(first), start, end) && !Within(Clock(second), start, end)
    }

    /** The passes, which are the readings from `base` on, follow each other within the time the window is open. */
    ghost predicate Timely(readings: seq<int>, base: nat) {
      forall k :: base < k < |readings| ==> readings[k] <= readings[k - 1] + OpenLength(start, end)
    }

    /** Such passes miss no opening. */
    lemma TimelyPassesMissNothing(readings: seq<int>, base: nat, missed: seq<nat>)
      requires Timely(readings, base) && AllMissed(readings, base, missed)
      ensures missed == []
    {
      if missed != [] { MissIsLong(readings[missed[0] - 1], readings[missed[0]], start, end); }
    }

    /**
      From the machine `m` on, the first two readings of the wall clock are `first` and `second`; the deadline follows
      from them and from the monotonic clock at `setAt`, before the first pass. With an enforced window there is none
      exactly when the window closed between them. Then nobody is started before the next opening, and nobody is
      stopped for the end of the window.
    */
    ghost predicate Enforced(m: MachineState, outcome: Outcome, first: int, second: int, setAt: int,
                             deadline: Option<int>)
      reads this, host
    {
      var n, base := host.s, |m.readings| + 2;
      && n.wallOffset == m.wallOffset && m.readings + [first, second] <= n.readings
      && m.wallOffset + m.clock <= first <= second <= m.wallOffset + setAt
      && setAt <= n.clock && (base < |n.readings| ==> m.wallOffset + setAt <= n.readings[base])
      && DeadlineFits(enforceWindow, first, second, setAt, start, end, deadline)
      && (enforceWindow ==> (deadline.None? <==> ClosedBetween(first, second)))
      && Observed(base, deadline, !outcome.Raised? && n.running)
      && (forall pid :: pid in n.launched && pid !in m.launched ==>
            && base < n.launched[pid].pass <= |n.readings| && Open(n.readings[n.launched[pid].pass - 1])
            && (ClosedBetween(first, second) ==> NextStart(second, start) <= n.readings[n.launched[pid].pass - 1]))
      && (deadline.None? && outcome.Returned? ==>
           forall r :: r in outcome.reports ==> r.error != Some(ActiveWindowExpired))
      && (enforceWindow && Within(Clock(first), start, end) && Within(Clock(second), start, end) ==>
           EndsInTime(m, outcome, second, setAt))
    }

    /**
      The window was open at both readings: nobody is stopped for its end more than a second before it, and all passes
      but the last came before it, but for the time that passed between the second reading and `setAt`. If the window
      was about to end, its end is taken to be one second after that reading.
    */
    ghost predicate EndsInTime(m: MachineState, outcome: Outcome, second: int, setAt: int)
      reads host
    {
      var n, base, ending := host.s, |m.readings| + 2, WindowEnd(second, start, end);
      && (outcome.Returned? && (exists r :: r in outcome.reports && r.error == Some(ActiveWindowExpired)) ==>
            ending - SECOND < n.wallOffset + n.clock)
      && (forall k :: base <= k < |n.readings| - 1 ==>
            || n.readings[k] < ending + (n.wallOffset + setAt - second)
            || n.readings[k] < n.wallOffset + setAt + SECOND)
    }

    /**
      An outcome is followed no further only after the window closed between the readings, and after more than
      `patience` passes came too late for the opening that the pass before waited for; passes that follow each other
      within the time the window is open never do.
    */
    ghost predicate Patient(m: MachineState, outcome: Outcome, first: int, second: int, missed: seq<nat>, patience: nat)
      reads this, host
    {
      outcome.StillWaiting? ==>
        && ClosedBetween(first, second)
        && |missed| == patience + 1 && AllMissed(host.s.readings, |m.readings| + 2, missed)
        && !Timely(host.s.readings, |m.readings| + 2)
    }

    /**
      run_cycle_parallel. Whatever happens, what it returns is complete and truthful and leaves nothing open. The end
      of the window is enforced unless it lies between the first two readings of the wall clock. Then the cycle waits
      for the next opening, nobody is started before, and it ends unless its passes sleep through more than
      `patience` whole openings.
    */
    method RunCycleParallel(patience: nat)
      returns (outcome: Outcome, first: int, second: int, setAt: int, deadline: Option<int>, missed: seq<nat>)
      requires Valid() && 1 <= maxWorkers && Unstarted()
      modifies this, host
      ensures Sound(outcome, deadline)
      ensures host.s.raises == old(host.s).raises + Raises(outcome)
      ensures Enforced(old(host.s), outcome, first, second, setAt, deadline)
      ensures Patient(old(host.s), outcome, first, second, missed, patience)
    {
      hide Inv, Sound, Observed, AllMissed, Timely, StartsInside, Unstarted, ActiveDeadline, Enforced;
      ghost var m := host.s;
      NothingTried();
      first, second, setAt := ReadClocks();
      deadline := ActiveDeadline(enforceWindow, first, second, setAt, start, end);
      DeadlineIsSet(first, second, setAt, start, end);
      ghost var k := host.s;
      outcome, missed := Run(deadline, patience);
      WindowIsEnforced(m, k, outcome, first, second, setAt, deadline);
      if outcome.StillWaiting? {
        MissedIsEnforced(host.s.readings, |k.readings|, missed);
        if Timely(host.s.readings, |k.readings|) { TimelyPassesMissNothing(host.s.readings, |k.readings|, missed); }
      }
    }

    method ReadClocks() returns (first: int, second: int, setAt: int)
      requires Valid()
      requires origin == host.s
      requires forall pid :: pid in host.s.launched ==> host.s.launched[pid].pass <= |origin.readings|
      requires forall a :: a in host.s.refused ==> a.pass <= |origin.readings|
      modifies host
      ensures Valid() && StartsInside(host.s, |host.s.readings|) && host.s.raises == old(host.s).raises
      ensures host.s.readings == old(host.s).readings + [first, second]
      ensures host.s.wallOffset == old(host.s).wallOffset && setAt == host.s.clock
      ensures host.s.wallOffset + old(host.s).clock <= first <= second <= host.s.wallOffset + setAt
    {
      hide Inv, StartsInside;
      first := ReadWall();
      second := ReadWall();
      setAt := Now();
      AllTriedBefore(host.s);
    }

    lemma MissedIsEnforced(readings: seq<int>, base: nat, missed: seq<nat>)
      requires AllMissed(readings, base, missed) && missed != []
      ensures enforceWindow
    {
    }

    lemma WindowIsEnforced(m: MachineState, k: MachineState, outcome: Outcome, first: int, second: int, setAt: int,
                           deadline: Option<int>)
      requires origin == m && Sound(outcome, deadline) && Since(k, host.s)
      requires k.readings == m.readings + [first, second] && k.wallOffset == m.wallOffset && setAt == k.clock
      requires m.wallOffset + m.clock <= first <= second <= m.wallOffset + setAt
      requires deadline == ActiveDeadline(enforceWindow, first, second, setAt, start, end)
      requires Observed(|k.readings|, deadline, !outcome.Raised? && host.s.running)
      ensures Enforced(m, outcome, first, second, setAt, deadline)
    {
      hide Sound, Open, NextStart, ActiveDeadline, DeadlineFits, EndsInTime, StartsInside, HeadTried, BeforeDeadline;
      DeadlineIsSet(first, second, setAt, start, end);
      StartedInside(outcome, deadline, |k.readings|, !outcome.Raised? && host.s.running);
      if ClosedBetween(first, second) { StartedLater(k, first, second); }
      if outcome.Returned? { ExpiredInTime(outcome, deadline); }
      DeadlineIsEnd(enforceWindow, first, second, setAt, start, end);
      if enforceWindow && Within(Clock(first), start, end) && Within(Clock(second), start, end) {
        DeadlineEndsInTime(m, outcome, first, second, setAt, deadline);
      }
    }

    lemma DeadlineEndsInTime(m: MachineState, outcome: Outcome, first: int, second: int, setAt: int,
                             deadline: Option<int>)
      requires DeadlineFits(enforceWindow, first, second, setAt, start, end, deadline) && deadline.Some?
      requires enforceWindow && Within(Clock(first), start, end) && Within(Clock(second), start, end)
      requires second <= host.s.wallOffset + setAt
      requires BeforeDeadline(host.s, |m.readings| + 2, |host.s.readings| - 1, deadline)
      requires outcome.Returned? ==>
        forall r :: r in outcome.reports && r.error == Some(ActiveWindowExpired) ==> deadline.value <= host.s.clock
      ensures EndsInTime(m, outcome, second, setAt)
    {
    }

    /** Whoever is reported as stopped for the end of the window was stopped when the deadline had passed. */
    lemma ExpiredInTime(outcome: Outcome, deadline: Option<int>)
      requires Sound(outcome, deadline) && outcome.Returned?
      ensures forall r :: r in outcome.reports && r.error == Some(ActiveWindowExpired) ==>
        deadline.Some? && deadline.value <= host.s.clock
    {
    }

    lemma NothingTried()
      requires Valid() && Unstarted()
      ensures origin == host.s && pending == providers && remaining == map[] && reports == map[]
      ensures forall pid :: pid in host.s.launched ==> host.s.launched[pid].pass <= |origin.readings|
      ensures forall a :: a in host.s.refused ==> a.pass <= |origin.readings|
    {
    }

    lemma AllTriedBefore(m: MachineState)
      requires forall pid :: pid in m.launched ==> m.launched[pid].pass <= |origin.readings|
      requires forall a :: a in m.refused ==> a.pass <= |origin.readings|
      ensures StartsInside(m, |m.readings|)
    {
    }

    lemma StartedInside(outcome: Outcome, deadline: Option<int>, base: nat, well: bool)
      requires Sound(outcome, deadline) && Observed(base, deadline, well)
      ensures forall pid :: pid in host.s.launched && pid !in origin.launched ==>
        base < host.s.launched[pid].pass <= |host.s.readings| && Open(host.s.readings[host.s.launched[pid].pass - 1])
    {
    }

    lemma StartedLater(k: MachineState, first: int, second: int)
      requires ClosedBetween(first, second) && Since(k, host.s) && second <= k.wallOffset + k.clock
      ensures forall i :: |k.readings| <= i < |host.s.readings| && Open(host.s.readings[i]) ==>
        NextStart(second, start) <= host.s.readings[i]
    {
      hide NextStart;
      forall i | |k.readings| <= i < |host.s.readings| && Open(host.s.readings[i])
        ensures NextStart(second, start) <= host.s.readings[i]
      {
        NextStartIsFirstActive(second, start, end, host.s.readings[i]);
      }
    }

    lemma EveryoneReported()
      requires Valid() && pending == [] && remaining == map[]
      ensures reports.Keys == ToSet(providers) && forall p :: p in providers ==> p in reports
    {
    }

    method Now() returns (t: int)
      requires Valid()
      modifies host
      ensures Valid() && Quiet(old(host.s), host.s) && host.s.raises == old(host.s).raises && t == host.s.clock
    {
      hide Inv;
      Facts();
      ghost var m := host.s;
      t := host.Now();
      DriftKeepsInv(m, host.s, State());
    }

    method ReadWall() returns (t: int)
      requires Valid()
      modifies host
      ensures Valid() && ReadsWall(old(host.s), host.s, t)
    {
      hide Inv;
      Facts();
      ghost var m := host.s;
      t := host.ReadWallClock();
      ReadingKeepsInv(m, host.s, State(), t);
    }

    method Sleep()
      requires Valid()
      modifies host
      ensures Valid() && Quiet(old(host.s), host.s) && host.s.raises == old(host.s).raises
      ensures host.s.running ==> old(host.s).clock + POLL_INTERVAL <= host.s.clock
    {
      hide Inv;
      Facts();
      ghost var m := host.s;
      host.InterruptibleSleep(POLL_INTERVAL, POLL_INTERVAL);
      DriftKeepsInv(m, host.s, State());
    }
  }

  /** A time by which every child of the pool is past its deadline. */
  ghost function Horizon(meta: map<Provider, Meta>): (h: int)
    ensures forall p :: p in meta ==> meta[p].deadline <= h
  {
    if meta == map[] then 0
    else
      var p :| p in meta;
      var rest := meta - {p};
      var h := Horizon(rest);
      assert forall q :: q in meta && q != p ==> q in rest && rest[q] == meta[q];
      if h < meta[p].deadline then meta[p].deadline else h
  }
}
