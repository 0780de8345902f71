/**
  The invariant of the parallel crawl cycle, stated on values: how the providers are partitioned, which
  children may be alive and which run-log records are open; and a lemma for every move of the cycle.
*/
module CycleBooks {
  import opened Prelude
  import opened Host

  datatype ErrorType =
    | StartFailed
    | CrawlerFailed
    | ProviderTimeout
    | WorkerStopped
    | ActiveWindowExpired
    | WorkerCleanup
    | RunLogFinalizeError

  datatype Report = Report(success: bool, error: Option<ErrorType>)

  datatype Meta = Meta(runId: RunId, deadline: int)

  datatype View = View(
    providers: seq<Provider>,
    maxWorkers: nat,
    pending: seq<Provider>,
    remaining: map<Provider, Pid>,
    meta: map<Provider, Meta>,          // process_report_meta
    reports: map<Provider, Report>,     // reports_by_provider
    history: History,
    origin: MachineState,               // the machine when the cycle began
    timeoutOf: Provider -> int)         // effective_provider_timeout_seconds, in microseconds

  /** The child and the run-log record every provider was given, and back; and the machine as it was before. */
  datatype History = History(
    pidOf: map<Provider, Pid>,
    childOf: map<Pid, Provider>,
    runOf: map<Provider, RunId>,
    recordOf: map<RunId, Provider>,
    origin: MachineState,
    timeoutOf: Provider -> int)
  {
    function AddRun(p: Provider, id: RunId): History {
      this.(runOf := runOf[p := id], recordOf := recordOf[id := p])
    }

    function AddChild(p: Provider, pid: Pid): History {
      this.(pidOf := pidOf[p := pid], childOf := childOf[pid := p])
    }
  }

  ghost predicate Inverse<A, B>(f: map<A, B>, g: map<B, A>) {
    && (forall a :: a in f ==> f[a] in g && g[f[a]] == a)
    && (forall b :: b in g ==> g[b] in f && f[g[b]] == b)
  }

  /** The children of the history are those that were started since the cycle began, each for its provider. */
  ghost predicate Launched(m: MachineState, h: History) {
    && Inverse(h.pidOf, h.childOf)
    && m.wallOffset == h.origin.wallOffset
    && m.launched.Keys == h.origin.launched.Keys + h.childOf.Keys && h.origin.launched.Keys !! h.childOf.Keys
    && (forall pid :: pid in h.childOf ==>
          m.launched[pid].provider == h.childOf[pid] && |h.origin.readings| < m.launched[pid].pass <= |m.readings|)
  }

  /** Every live child is the child of a provider in `open`. */
  ghost predicate Children(m: MachineState, h: History, open: set<Provider>) {
    Launched(m, h) && forall pid :: pid in m.alive ==> pid in h.childOf && h.childOf[pid] in open
  }

  /** At `clock` the child of the provider had had all its time since the pass in which it was started. */
  ghost predicate HadItsTime(m: MachineState, h: History, p: Provider, clock: int) {
    && p in h.pidOf && h.pidOf[p] in m.launched
    && var pass := m.launched[h.pidOf[p]].pass;
       1 <= pass <= |m.readings| && m.readings[pass - 1] + h.timeoutOf(p) <= m.wallOffset + clock
  }

  /** The records of the history are those that were opened since the cycle began. */
  ghost predicate Opened(m: MachineState, h: History) {
    Inverse(h.runOf, h.recordOf) && h.origin.begun !! h.recordOf.Keys && m.begun == h.origin.begun + h.recordOf.Keys
  }

  /** Each record of the cycle had one closing call, except those of `open`, which had none yet. */
  ghost predicate Records(m: MachineState, h: History, open: set<Provider>) {
    && Opened(m, h)
    && (forall id :: id in h.origin.closed ==> id in h.origin.begun)
    && (forall id :: id in h.recordOf ==> m.closed[id] == if h.recordOf[id] in open then 0 else 1)
    && (forall id :: id in h.recordOf && h.recordOf[id] in open ==> id !in m.confirmed)
    && (forall id :: id !in h.recordOf ==> m.closed[id] == h.origin.closed[id])
  }

  /** The pool agrees with the history, and a provider that still waits has none. */
  ghost predicate Linked(v: View) {
    && v.history.origin == v.origin && v.history.timeoutOf == v.timeoutOf
    && v.meta.Keys <= v.remaining.Keys
    && (forall p :: p in v.pending ==> p !in v.history.pidOf && p !in v.history.runOf)
    && (forall p :: p in v.remaining ==>
         && p in v.history.pidOf && v.remaining[p] == v.history.pidOf[p] && p in v.history.runOf
         && (p in v.meta ==> v.meta[p].runId == v.history.runOf[p]))
  }

  /** The deadline of a child in the pool leaves it its time. */
  ghost predicate Timed(m: MachineState, v: View) {
    forall p :: p in v.meta ==> HadItsTime(m, v.history, p, v.meta[p].deadline)
  }

  /** The books of the cycle while the providers `open` may still have a running child. */
  ghost predicate Books(m: MachineState, v: View, open: set<Provider>) {
    && m.Valid()
    && NoDuplicates(v.providers)
    && open <= v.remaining.Keys
    && Linked(v)
    && Timed(m, v)
    && Children(m, v.history, open)
    && Records(m, v.history, open)
  }

  ghost predicate Exited(m: MachineState, h: History, p: Provider) {
    p in h.pidOf && h.pidOf[p] in m.exits && p in h.runOf
  }

  /** The provider's child exited with 0 and left good evidence of its work. */
  ghost predicate Delivered(m: MachineState, h: History, p: Provider) {
    && p in h.pidOf && h.pidOf[p] in m.exits && m.exits[h.pidOf[p]] == 0
    && h.pidOf[p] in m.evidence && m.evidence[h.pidOf[p]]
  }

  /** The provider had a child, and the call that closed its record reported that it was written. */
  ghost predicate Confirmed(m: MachineState, h: History, p: Provider) {
    p in h.pidOf && p in h.runOf && h.runOf[p] in m.confirmed
  }

  /** An attempt to start the provider failed since the cycle began. */
  ghost predicate NotLaunched(m: MachineState, h: History, p: Provider) {
    exists pass: nat :: |h.origin.readings| < pass && Try(p, pass) in m.refused
  }

  /** What a stored report says about its provider's child and its run-log record. */
  ghost predicate Truthful(m: MachineState, h: History, p: Provider, r: Report) {
    && (r.success <==> r.error.None?)
    && (r.success ==>
         && Exited(m, h, p) && Delivered(m, h, p) && h.pidOf[p] !in m.killed
         && h.runOf[p] in m.closedAs && m.closedAs[h.runOf[p]] == LogSuccess)
    && (r.error == Some(StartFailed) ==> p !in h.pidOf && NotLaunched(m, h, p))
    && (r.error == Some(CrawlerFailed) ==> Exited(m, h, p) && !Delivered(m, h, p) && h.pidOf[p] !in m.killed)
    && (r.error == Some(ProviderTimeout) ==> Exited(m, h, p) && HadItsTime(m, h, p, m.clock))
    && (r.error in {Some(WorkerCleanup), Some(RunLogFinalizeError)} ==> Exited(m, h, p))
    && (p in h.pidOf ==> (r.error == Some(RunLogFinalizeError) <==> !Confirmed(m, h, p)))
    && (p in h.runOf && h.runOf[p] in m.closedAs && m.closedAs[h.runOf[p]] == LogSuccess ==>
         r.success || r.error == Some(RunLogFinalizeError))
  }

  /** The child was ended by the cycle: it was late, or the cycle was over. */
  predicate WasForced(r: Report) {
    r.error.Some? && r.error.value in {ProviderTimeout, WorkerStopped, ActiveWindowExpired, WorkerCleanup}
  }

  /** A truthful report is a success exactly when nothing stood in its way. */
  lemma SuccessIsDeserved(m: MachineState, h: History, p: Provider, r: Report)
    requires Truthful(m, h, p, r)
    ensures r.success <==> Delivered(m, h, p) && Confirmed(m, h, p) && !WasForced(r)
  {
    if r.error.Some? {
      match r.error.value {
        case StartFailed | CrawlerFailed | RunLogFinalizeError =>
        case _ => assert WasForced(r);
      }
    }
  }

  ghost predicate AllTruthful(m: MachineState, v: View) {
    forall p :: p in v.reports ==> Truthful(m, v.history, p, v.reports[p])
  }

  /** Pending, running and reported partition the providers, and the pool is bounded. */
  ghost predicate Partition(v: View) {
    && NoDuplicates(v.pending)
    && (forall p :: p in v.providers <==> p in v.pending || p in v.remaining || p in v.reports)
    && (forall p :: p in v.pending ==> p !in v.remaining && p !in v.reports)
    && v.remaining.Keys == v.meta.Keys && v.remaining.Keys !! v.reports.Keys
    && |v.remaining| <= v.maxWorkers
  }

  /** The state of the cycle between two moves, possibly after a child refused to die. */
  ghost predicate Core(m: MachineState, v: View) {
    Books(m, v, v.remaining.Keys) && Partition(v) && AllTruthful(m, v)
  }

  /**
    What is left of it after an error: children may still run for the providers in `meta`, and for no others, and no
    provider in the pool has been reported.
  */
  ghost predicate Interrupted(m: MachineState, v: View) {
    Books(m, v, v.meta.Keys) && AllTruthful(m, v) && v.remaining.Keys !! v.reports.Keys
  }

  lemma CoreIsInterrupted(m: MachineState, v: View)
    requires Core(m, v)
    ensures Interrupted(m, v)
  {
  }

  /** Core, and no child that is still in the pool has been signalled. */
  ghost predicate Inv(m: MachineState, v: View) {
    Core(m, v) && forall p :: p in v.remaining ==> v.remaining[p] !in m.killed
  }

  // ---------- what time alone leaves as it was ----------

  /** Nothing that was remembered in m is forgotten in n. */
  ghost predicate Later(m: MachineState, n: MachineState) {
    && m.clock <= n.clock && n.wallOffset == m.wallOffset
    && |m.readings| <= |n.readings| && (forall i :: 0 <= i < |m.readings| ==> n.readings[i] == m.readings[i])
    && (forall pid :: pid in m.launched ==> pid in n.launched && n.launched[pid] == m.launched[pid])
    && m.refused <= n.refused
    && (forall pid :: pid in m.exits ==> pid in n.exits && n.exits[pid] == m.exits[pid])
  }

  /** The provider has the same child and the same record. */
  ghost predicate SameFor(h: History, k: History, p: Provider) {
    && k.origin == h.origin && k.timeoutOf == h.timeoutOf
    && (p in k.pidOf <==> p in h.pidOf) && (p in h.pidOf ==> k.pidOf[p] == h.pidOf[p])
    && (p in k.runOf <==> p in h.runOf) && (p in h.runOf ==> k.runOf[p] == h.runOf[p])
  }

  /** The provider's child was not signalled in between, and its record not written. */
  ghost predicate Untouched(m: MachineState, n: MachineState, h: History, p: Provider) {
    && (p in h.pidOf && h.pidOf[p] in n.killed ==> h.pidOf[p] in m.killed)
    && (p in h.runOf ==>
         && (h.runOf[p] in n.closedAs <==> h.runOf[p] in m.closedAs)
         && (h.runOf[p] in m.closedAs ==> n.closedAs[h.runOf[p]] == m.closedAs[h.runOf[p]])
         && (h.runOf[p] in n.confirmed <==> h.runOf[p] in m.confirmed))
    && (p in h.pidOf ==>
         && (h.pidOf[p] in n.evidence <==> h.pidOf[p] in m.evidence)
         && (h.pidOf[p] in m.evidence ==> n.evidence[h.pidOf[p]] == m.evidence[h.pidOf[p]]))
  }

  lemma TimeStays(m: MachineState, n: MachineState, h: History, k: History, p: Provider, clock: int, later: int)
    requires HadItsTime(m, h, p, clock) && Later(m, n) && SameFor(h, k, p) && clock <= later
    ensures HadItsTime(n, k, p, later)
  {
  }

  lemma TruthStays(m: MachineState, n: MachineState, h: History, k: History, p: Provider, r: Report)
    requires Truthful(m, h, p, r) && Later(m, n) && SameFor(h, k, p) && Untouched(m, n, h, p)
    ensures Truthful(n, k, p, r)
  {
  }

  lemma TimesStay(m: MachineState, n: MachineState, v: View)
    requires Timed(m, v) && Later(m, n)
    ensures Timed(n, v)
  {
  }

  lemma DriftIsLater(m: MachineState, n: MachineState)
    requires Drift(m, n)
    ensures Later(m, n)
  {
  }

  lemma ReadingIsLater(m: MachineState, n: MachineState, t: int)
    requires ReadsWall(m, n, t)
    ensures Later(m, n)
  {
  }

  lemma QuietKeepsTruth(m: MachineState, n: MachineState, v: View)
    requires AllTruthful(m, v) && Later(m, n) && n.killed == m.killed && n.closedAs == m.closedAs
    requires n.confirmed == m.confirmed && n.evidence == m.evidence
    ensures AllTruthful(n, v)
  {
  }

  lemma ChildrenStay(m: MachineState, n: MachineState, h: History, open: set<Provider>)
    requires Children(m, h, open) && Later(m, n) && n.launched == m.launched && n.alive <= m.alive
    ensures Children(n, h, open)
  {
  }

  lemma RecordsStay(m: MachineState, n: MachineState, h: History, open: set<Provider>)
    requires Records(m, h, open) && n.begun == m.begun && n.closed == m.closed && n.confirmed == m.confirmed
    ensures Records(n, h, open)
  {
  }

  lemma DriftKeepsBooks(m: MachineState, n: MachineState, v: View, open: set<Provider>)
    requires Books(m, v, open) && n.Valid() && Later(m, n) && n.alive <= m.alive
    requires n.launched == m.launched && n.begun == m.begun && n.closed == m.closed && n.confirmed == m.confirmed
    ensures Books(n, v, open)
  {
    hide Timed, Linked, Children, Records, Later;
    TimesStay(m, n, v);
    ChildrenStay(m, n, v.history, open);
    RecordsStay(m, n, v.history, open);
  }

  lemma DriftKeepsInv(m: MachineState, n: MachineState, v: View)
    requires Inv(m, v) && n.Valid() && Quiet(m, n)
    ensures Inv(n, v)
  {
    hide Books, AllTruthful, Partition, Later;
    DriftIsLater(m, n);
    DriftKeepsBooks(m, n, v, v.remaining.Keys);
    QuietKeepsTruth(m, n, v);
  }

  lemma ReadingKeepsInv(m: MachineState, n: MachineState, v: View, t: int)
    requires Inv(m, v) && n.Valid() && ReadsWall(m, n, t)
    ensures Inv(n, v)
  {
    hide Books, AllTruthful, Partition, Later;
    ReadingIsLater(m, n, t);
    DriftKeepsBooks(m, n, v, v.remaining.Keys);
    QuietKeepsTruth(m, n, v);
  }

  // ---------- a provider leaves the queue ----------

  lemma PopPending<T>(s: seq<T>)
    requires NoDuplicates(s) && s != []
    ensures NoDuplicates(s[1..]) && s[0] !in s[1..]
    ensures forall x :: x in s <==> x == s[0] || x in s[1..]
  {
  }

  lemma AddInverse<A, B>(f: map<A, B>, g: map<B, A>, a: A, b: B)
    requires Inverse(f, g) && a !in f && b !in g
    ensures Inverse(f[a := b], g[b := a])
  {
  }

  /** What happens to the machine when a provider leaves the queue and no child starts. */
  ghost predicate Refused(m: MachineState, n: MachineState, p: Provider, logged: Option<RunId>) {
    && n.Valid() && Drift(m, n.(refused := m.refused)) && OnlyRefused(m, n, p)
    && n.killed == m.killed && n.evidence == m.evidence
    && match logged
       case None =>
         n.begun == m.begun && n.closed == m.closed && n.closedAs == m.closedAs && n.confirmed == m.confirmed
       case Some(id) =>
         && id !in m.begun && id !in m.closedAs && n.begun == m.begun + {id}
         && n.closed == m.closed + multiset{id}
         && n.confirmed <= m.confirmed + {id} && m.confirmed <= n.confirmed
         && (n.closedAs == m.closedAs || n.closedAs == m.closedAs[id := LogFailed])
  }

  /** What a provider that was never started may be reported with, unless its start failed. */
  const STOPS := {WorkerStopped, ActiveWindowExpired}

  ghost predicate Refuses(m: MachineState, n: MachineState, p: Provider) {
    Try(p, |m.readings|) in n.refused
  }

  function AfterRefusal(v: View, error: ErrorType, logged: Option<RunId>): View
    requires v.pending != []
  {
    var p := v.pending[0];
    v.(pending := v.pending[1..],
       reports := v.reports[p := Report(false, Some(error))],
       history := if logged.Some? then v.history.AddRun(p, logged.value) else v.history)
  }

  lemma DriftKeepsChildren(m: MachineState, n: MachineState, h: History, k: History, open: set<Provider>)
    requires Children(m, h, open) && Drift(m, n.(refused := m.refused))
    requires k.pidOf == h.pidOf && k.childOf == h.childOf && k.origin == h.origin
    ensures Children(n, k, open)
  {
  }

  /** A record that is opened and closed at once leaves every other record as it was. */
  lemma ClosedRunKeepsRecords(m: MachineState, n: MachineState, h: History, open: set<Provider>, p: Provider, id: RunId)
    requires Records(m, h, open) && p !in h.runOf && p !in open && id !in m.begun
    requires n.begun == m.begun + {id} && n.closed == m.closed + multiset{id} && n.confirmed <= m.confirmed + {id}
    ensures Records(n, h.AddRun(p, id), open)
  {
    AddInverse(h.runOf, h.recordOf, p, id);
  }

  lemma RefusalIsLater(m: MachineState, n: MachineState, p: Provider, logged: Option<RunId>)
    requires m.Valid() && Refused(m, n, p, logged)
    ensures Later(m, n)
  {
  }

  lemma RefuseKeepsTimes(m: MachineState, n: MachineState, v: View, error: ErrorType, logged: Option<RunId>)
    requires Timed(m, v) && v.pending != [] && v.pending[0] !in v.meta && Later(m, n)
    ensures Timed(n, AfterRefusal(v, error, logged))
  {
  }

  lemma RefuseKeepsRecords(m: MachineState, n: MachineState, v: View, open: set<Provider>, logged: Option<RunId>)
    requires Records(m, v.history, open) && v.pending != [] && Refused(m, n, v.pending[0], logged)
    requires v.pending[0] !in v.history.runOf && v.pending[0] !in open
    ensures Records(n, AfterRefusal(v, StartFailed, logged).history, open)
  {
    if logged.Some? { ClosedRunKeepsRecords(m, n, v.history, open, v.pending[0], logged.value); }
  }

  lemma RefuseKeepsBooks(m: MachineState, n: MachineState, v: View, error: ErrorType, logged: Option<RunId>)
    requires Books(m, v, v.remaining.Keys) && v.pending != [] && Refused(m, n, v.pending[0], logged)
    requires NoDuplicates(v.pending) && v.pending[0] !in v.remaining
    ensures Books(n, AfterRefusal(v, error, logged), v.remaining.Keys)
  {
    hide Children, Timed, Records, Later, Linked;
    var p, w := v.pending[0], AfterRefusal(v, error, logged);
    PopPending(v.pending);
    DriftKeepsChildren(m, n, v.history, w.history, v.remaining.Keys);
    RefusalIsLater(m, n, p, logged);
    WaitsUnseen(v);
    RefuseKeepsTimes(m, n, v, error, logged);
    RefuseKeepsRecords(m, n, v, v.remaining.Keys, logged);
    RefuseKeepsLinks(v, error, logged);
  }

  lemma WaitsUnseen(v: View)
    requires Linked(v) && v.pending != []
    ensures v.pending[0] !in v.history.pidOf && v.pending[0] !in v.history.runOf && v.pending[0] !in v.meta
  {
  }

  lemma RefuseKeepsLinks(v: View, error: ErrorType, logged: Option<RunId>)
    requires Linked(v) && v.pending != [] && NoDuplicates(v.pending) && v.pending[0] !in v.remaining
    ensures Linked(AfterRefusal(v, error, logged))
  {
  }

  lemma RefuseKeepsPartition(v: View, error: ErrorType, logged: Option<RunId>)
    requires Partition(v) && v.pending != []
    ensures Partition(AfterRefusal(v, error, logged))
  {
  }

  lemma RefuseKeepsTruth(m: MachineState, n: MachineState, v: View, error: ErrorType, logged: Option<RunId>)
    requires m.Valid() && AllTruthful(m, v) && v.pending != [] && v.pending[0] !in v.reports
    requires Refused(m, n, v.pending[0], logged)
    requires error in STOPS ||
      (error == StartFailed && Refuses(m, n, v.pending[0]) && |v.history.origin.readings| < |m.readings|)
    requires v.pending[0] !in v.history.runOf && v.pending[0] !in v.history.pidOf
    requires forall p :: p in v.history.runOf ==> v.history.runOf[p] in m.begun
    ensures AllTruthful(n, AfterRefusal(v, error, logged))
  {
    hide MachineState.Remembered, Drift;
    hide Later, Truthful;
    var p, w := v.pending[0], AfterRefusal(v, error, logged);
    RefusedTruth(m, n, w.history, p, error, logged);
    forall q | q in w.reports ensures Truthful(n, w.history, q, w.reports[q]) {
      if q != p {
        RefusalIsLater(m, n, p, logged);
        TruthStays(m, n, v.history, w.history, q, v.reports[q]);
      }
    }
  }

  lemma RefusedTruth(m: MachineState, n: MachineState, h: History, p: Provider, error: ErrorType, logged: Option<RunId>)
    requires Refused(m, n, p, logged) && p !in h.pidOf
    requires error in STOPS || (error == StartFailed && Refuses(m, n, p) && |h.origin.readings| < |m.readings|)
    requires p in h.runOf ==> logged == Some(h.runOf[p])
    ensures Truthful(n, h, p, Report(false, Some(error)))
  {
  }

  /** A provider leaves the queue without a child. */
  lemma RefuseKeepsInv(m: MachineState, n: MachineState, v: View, error: ErrorType, logged: Option<RunId>)
    requires Inv(m, v) && v.pending != [] && Refused(m, n, v.pending[0], logged)
    requires error in STOPS ||
      (error == StartFailed && Refuses(m, n, v.pending[0]) && |v.origin.readings| < |m.readings|)
    ensures Inv(n, AfterRefusal(v, error, logged))
  {
    RefuseKeepsBooks(m, n, v, error, logged);
    RefuseKeepsPartition(v, error, logged);
    RefuseKeepsTruth(m, n, v, error, logged);
  }

  /** What run_provider_process does to the machine when a child starts. */
  ghost predicate Admitted(m: MachineState, n: MachineState, p: Provider, pid: Pid, id: RunId) {
    && n.Valid() && Drift(m, n.(alive := n.alive - {pid}, launched := m.launched)) && pid in n.alive
    && n.launched == m.launched[pid := Try(p, |m.readings|)]
    && n.killed == m.killed && n.closed == m.closed && n.closedAs == m.closedAs
    && n.confirmed == m.confirmed && n.evidence == m.evidence
    && pid !in m.alive && pid !in m.exits && pid !in m.killed
    && id !in m.begun && id !in m.confirmed && n.begun == m.begun + {id}
  }

  function AfterAdmission(v: View, pid: Pid, id: RunId, deadline: int): View
    requires v.pending != []
  {
    var p := v.pending[0];
    v.(pending := v.pending[1..],
       remaining := v.remaining[p := pid],
       meta := v.meta[p := Meta(id, deadline)],
       history := v.history.AddRun(p, id).AddChild(p, pid))
  }

  lemma AdmitKeepsLaunched(m: MachineState, n: MachineState, h: History, p: Provider, pid: Pid, id: RunId)
    requires m.Valid() && Launched(m, h) && Admitted(m, n, p, pid, id) && p !in h.pidOf
    requires |h.origin.readings| < |m.readings|
    ensures Launched(n, h.AddRun(p, id).AddChild(p, pid))
  {
    hide Inverse, Drift, MachineState.Remembered;
    NewPid(m, n, p, pid, id);
    AddInverse(h.pidOf, h.childOf, p, pid);
    SameClocks(m, n, p, pid, id);
  }

  lemma SameClocks(m: MachineState, n: MachineState, p: Provider, pid: Pid, id: RunId)
    requires Admitted(m, n, p, pid, id)
    ensures n.wallOffset == m.wallOffset && n.readings == m.readings
  {
  }

  lemma NewPid(m: MachineState, n: MachineState, p: Provider, pid: Pid, id: RunId)
    requires m.Valid() && Admitted(m, n, p, pid, id)
    ensures pid !in m.launched
  {
  }

  lemma AdmitKeepsChildren(m: MachineState, n: MachineState, h: History, open: set<Provider>,
                           p: Provider, pid: Pid, id: RunId)
    requires m.Valid() && Children(m, h, open) && Admitted(m, n, p, pid, id) && p !in h.pidOf
    requires |h.origin.readings| < |m.readings|
    ensures Children(n, h.AddRun(p, id).AddChild(p, pid), open + {p})
  {
    hide Launched;
    AdmitKeepsLaunched(m, n, h, p, pid, id);
  }

  lemma AdmitKeepsRecords(m: MachineState, n: MachineState, h: History, open: set<Provider>,
                          p: Provider, pid: Pid, id: RunId)
    requires Records(m, h, open) && Admitted(m, n, p, pid, id) && p !in h.runOf && p !in open
    ensures Records(n, h.AddRun(p, id).AddChild(p, pid), open + {p})
  {
    var k := h.AddRun(p, id).AddChild(p, pid);
    AddInverse(h.runOf, h.recordOf, p, id);
    assert id !in h.recordOf && id !in h.origin.closed;
    assert k.recordOf == h.recordOf[id := p] && k.runOf == h.runOf[p := id];
  }

  lemma AdmitKeepsLinks(v: View, pid: Pid, id: RunId, deadline: int)
    requires v.pending != [] && NoDuplicates(v.pending) && v.pending[0] !in v.remaining && Linked(v)
    ensures Linked(AfterAdmission(v, pid, id, deadline))
  {
  }

  lemma AdmissionIsLater(m: MachineState, n: MachineState, p: Provider, pid: Pid, id: RunId)
    requires m.Valid() && Admitted(m, n, p, pid, id)
    ensures Later(m, n)
  {
  }

  lemma AdmitKeepsTimes(m: MachineState, n: MachineState, v: View, pid: Pid, id: RunId, deadline: int)
    requires Timed(m, v) && v.pending != [] && v.pending[0] !in v.history.pidOf && Admitted(m, n, v.pending[0], pid, id)
    requires m.Valid() && m.readings != [] && m.clock + v.history.timeoutOf(v.pending[0]) <= deadline
    ensures Timed(n, AfterAdmission(v, pid, id, deadline))
  {
    var w := AfterAdmission(v, pid, id, deadline);
    forall p | p in w.meta ensures HadItsTime(n, w.history, p, w.meta[p].deadline) {
      if p != v.pending[0] {
        AdmissionIsLater(m, n, v.pending[0], pid, id);
        TimeStays(m, n, v.history, w.history, p, v.meta[p].deadline, v.meta[p].deadline);
      }
    }
  }

  lemma AdmitKeepsBooks(m: MachineState, n: MachineState, v: View, pid: Pid, id: RunId, deadline: int)
    requires Books(m, v, v.remaining.Keys) && v.pending != [] && NoDuplicates(v.pending)
    requires v.pending[0] !in v.remaining && Admitted(m, n, v.pending[0], pid, id)
    requires m.Valid() && |v.origin.readings| < |m.readings| && m.clock + v.timeoutOf(v.pending[0]) <= deadline
    ensures var w := AfterAdmission(v, pid, id, deadline);
            Books(n, w, w.remaining.Keys)
  {
    hide MachineState.Remembered, Timed, Later;
    var p, w := v.pending[0], AfterAdmission(v, pid, id, deadline);
    PopPending(v.pending);
    assert w.remaining.Keys == v.remaining.Keys + {p};
    AdmitKeepsChildren(m, n, v.history, v.remaining.Keys, p, pid, id);
    AdmitKeepsRecords(m, n, v.history, v.remaining.Keys, p, pid, id);
    AdmitKeepsLinks(v, pid, id, deadline);
    AdmitKeepsTimes(m, n, v, pid, id, deadline);
  }

  lemma AdmitKeepsPartition(v: View, pid: Pid, id: RunId, deadline: int)
    requires Partition(v) && v.pending != [] && |v.remaining| < v.maxWorkers
    ensures Partition(AfterAdmission(v, pid, id, deadline))
  {
  }

  lemma AdmitKeepsTruth(m: MachineState, n: MachineState, v: View, pid: Pid, id: RunId, deadline: int)
    requires m.Valid() && AllTruthful(m, v) && v.pending != [] && v.pending[0] !in v.reports
    requires v.pending[0] !in v.history.pidOf && v.pending[0] !in v.history.runOf
    requires Admitted(m, n, v.pending[0], pid, id)
    ensures AllTruthful(n, AfterAdmission(v, pid, id, deadline))
  {
    hide MachineState.Remembered, Later;
    hide Truthful;
    var w := AfterAdmission(v, pid, id, deadline);
    forall q | q in w.reports ensures Truthful(n, w.history, q, w.reports[q]) {
      AdmissionIsLater(m, n, v.pending[0], pid, id);
      TruthStays(m, n, v.history, w.history, q, v.reports[q]);
    }
  }

  lemma AdmitKeepsPool(m: MachineState, n: MachineState, v: View, pid: Pid, id: RunId, deadline: int)
    requires Inv(m, v) && v.pending != [] && Admitted(m, n, v.pending[0], pid, id)
    ensures var w := AfterAdmission(v, pid, id, deadline);
            forall p :: p in w.remaining ==> w.remaining[p] !in n.killed
  {
    hide Core;
  }

  lemma FirstPending(m: MachineState, v: View)
    requires Core(m, v) && v.pending != []
    ensures Books(m, v, v.remaining.Keys) && Partition(v) && AllTruthful(m, v) && NoDuplicates(v.pending)
    ensures v.pending[0] !in v.remaining && v.pending[0] !in v.reports && m.Valid()
    ensures v.pending[0] !in v.history.pidOf && v.pending[0] !in v.history.runOf
  {
  }

  /** A provider leaves the queue and its child joins the pool. */
  lemma AdmitKeepsInv(m: MachineState, n: MachineState, v: View, pid: Pid, id: RunId, deadline: int)
    requires Inv(m, v) && v.pending != [] && |v.remaining| < v.maxWorkers && Admitted(m, n, v.pending[0], pid, id)
    requires |v.origin.readings| < |m.readings| && m.clock + v.timeoutOf(v.pending[0]) <= deadline
    ensures Inv(n, AfterAdmission(v, pid, id, deadline))
  {
    FirstPending(m, v);
    AdmitKeepsPool(m, n, v, pid, id, deadline);
    hide Books, Partition, AllTruthful, Admitted;
    AdmitKeepsBooks(m, n, v, pid, id, deadline);
    AdmitKeepsPartition(v, pid, id, deadline);
    AdmitKeepsTruth(m, n, v, pid, id, deadline);
  }

  /** What finalising one child does to the machine, whether or not the child had to be killed first. */
  ghost predicate Settled(m: MachineState, n: MachineState, pid: Pid, id: RunId) {
    && n.Valid() && Drift(m, n)
    && m.killed <= n.killed <= m.killed + {pid}
    && n.begun == m.begun
    && n.closed == m.closed + multiset{id}
    && (forall i :: i != id ==> (i in n.confirmed <==> i in m.confirmed))
    && (forall q :: q != pid ==>
         (q in n.evidence <==> q in m.evidence) && (q in m.evidence ==> n.evidence[q] == m.evidence[q]))
    && (forall i :: i != id ==>
         (i in n.closedAs <==> i in m.closedAs) && (i in m.closedAs ==> n.closedAs[i] == m.closedAs[i]))
    && pid !in n.alive
  }

  lemma SettleKeepsChildren(m: MachineState, n: MachineState, h: History, open: set<Provider>, p: Provider, id: RunId)
    requires Children(m, h, open) && p in h.pidOf && Settled(m, n, h.pidOf[p], id)
    ensures Children(n, h, open - {p})
  {
  }

  lemma SettleKeepsRecords(m: MachineState, n: MachineState, h: History, open: set<Provider>, p: Provider, pid: Pid)
    requires Records(m, h, open) && p in open && p in h.runOf && Settled(m, n, pid, h.runOf[p])
    ensures Records(n, h, open - {p})
  {
  }

  lemma SettleKeepsTruth(m: MachineState, n: MachineState, v: View, p: Provider)
    requires AllTruthful(m, v) && p in v.history.pidOf && p in v.history.runOf && p !in v.reports
    requires Inverse(v.history.pidOf, v.history.childOf) && Inverse(v.history.runOf, v.history.recordOf)
    requires Settled(m, n, v.history.pidOf[p], v.history.runOf[p])
    ensures AllTruthful(n, v)
  {
    hide Truthful;
    forall q | q in v.reports ensures Truthful(n, v.history, q, v.reports[q]) {
      DriftIsLater(m, n);
      TruthStays(m, n, v.history, v.history, q, v.reports[q]);
    }
  }

  function AfterSettling(v: View, p: Provider, r: Report): View {
    v.(remaining := v.remaining - {p}, meta := v.meta - {p}, reports := v.reports[p := r])
  }

  lemma SettleKeepsBooks(m: MachineState, n: MachineState, v: View, p: Provider, r: Report)
    requires Books(m, v, v.remaining.Keys) && p in v.remaining && p in v.meta
    requires Settled(m, n, v.remaining[p], v.meta[p].runId)
    ensures var w := AfterSettling(v, p, r);
            Books(n, w, w.remaining.Keys)
  {
    hide Children, Records, Timed, Later, Linked;
    var w := AfterSettling(v, p, r);
    assert w.remaining.Keys == v.remaining.Keys - {p};
    OpenIsKnown(m, v, v.remaining.Keys, p);
    SettleKeepsChildren(m, n, v.history, v.remaining.Keys, p, v.meta[p].runId);
    SettleKeepsRecords(m, n, v.history, v.remaining.Keys, p, v.remaining[p]);
    SettleKeepsLinks(v, p, r);
    DriftIsLater(m, n);
    TimesStay(m, n, v);
    FewerTimed(n, v, p, r);
  }

  lemma SettleKeepsLinks(v: View, p: Provider, r: Report)
    requires Linked(v) && p in v.remaining
    ensures Linked(AfterSettling(v, p, r))
  {
  }

  lemma FewerTimed(m: MachineState, v: View, p: Provider, r: Report)
    requires Timed(m, v)
    ensures Timed(m, AfterSettling(v, p, r))
  {
  }

  lemma SettleKeepsPartition(v: View, p: Provider, r: Report)
    requires Partition(v) && p in v.remaining
    ensures Partition(AfterSettling(v, p, r))
  {
  }

  lemma SettleKeepsPool(m: MachineState, n: MachineState, v: View, p: Provider)
    requires Inv(m, v) && p in v.remaining && p in v.meta && Settled(m, n, v.remaining[p], v.meta[p].runId)
    ensures forall q :: q in v.remaining && q != p ==> v.remaining[q] !in n.killed
  {
  }

  /** A child leaves the pool, and its provider is reported. */
  lemma SettleKeepsInv(m: MachineState, n: MachineState, v: View, p: Provider, r: Report)
    requires Inv(m, v) && p in v.remaining && p in v.meta
    requires Settled(m, n, v.remaining[p], v.meta[p].runId)
    requires Truthful(n, v.history, p, r)
    ensures Inv(n, AfterSettling(v, p, r))
  {
    SettleKeepsBooks(m, n, v, p, r);
    SettleKeepsPartition(v, p, r);
    SettleKeepsTruth(m, n, v, p);
    SettleKeepsPool(m, n, v, p);
  }

  /** A child is finalised while its provider stays in the pool. */
  lemma SettleClosesBooks(m: MachineState, n: MachineState, v: View, open: set<Provider>, p: Provider)
    requires Books(m, v, open) && AllTruthful(m, v) && p in open && p in v.meta && p !in v.reports
    requires Settled(m, n, v.remaining[p], v.meta[p].runId)
    ensures Books(n, v, open - {p}) && AllTruthful(n, v)
  {
    hide Children, Records, Timed, Later, Linked, Truthful;
    OpenIsKnown(m, v, open, p);
    SettleKeepsChildren(m, n, v.history, open, p, v.meta[p].runId);
    SettleKeepsRecords(m, n, v.history, open, p, v.remaining[p]);
    DriftIsLater(m, n);
    TimesStay(m, n, v);
    SettleKeepsTruth(m, n, v, p);
  }

  /** During clean-up its provider is reported, too. */
  lemma CleanKeepsBooks(m: MachineState, n: MachineState, v: View, open: set<Provider>, p: Provider, r: Report)
    requires Books(m, v, open) && AllTruthful(m, v) && p in open && p in v.meta && p !in v.reports
    requires Settled(m, n, v.remaining[p], v.meta[p].runId)
    requires Truthful(n, v.history, p, r)
    ensures var w := v.(reports := v.reports[p := r]);
            Books(n, w, open - {p}) && AllTruthful(n, w)
    ensures Books(n, v, open - {p}) && AllTruthful(n, v)
  {
    hide Settled, Children, Records, Timed, Linked, Truthful;
    SettleClosesBooks(m, n, v, open, p);
    ReportKeepsLinks(n, v, p, r);
  }

  lemma ReportKeepsLinks(m: MachineState, v: View, p: Provider, r: Report)
    requires Linked(v) && Timed(m, v)
    ensures Linked(v.(reports := v.reports[p := r])) && Timed(m, v.(reports := v.reports[p := r]))
  {
  }

  /**
    An error after a child was finalised: its provider has left `meta`, and perhaps the pool, and is not reported.
  */
  lemma SettleInterrupted(m: MachineState, n: MachineState, v: View, w: View, p: Provider)
    requires Inv(m, v) && p in v.remaining && p in v.meta && Settled(m, n, v.remaining[p], v.meta[p].runId)
    requires w == v.(meta := v.meta - {p}) || w == v.(remaining := v.remaining - {p}, meta := v.meta - {p})
    ensures Interrupted(n, w)
  {
    hide Settled, Children, Records, Timed, Linked, AllTruthful;
    var open := v.remaining.Keys;
    SettleClosesBooks(m, n, v, open, p);
    LeavesLinks(n, v, w, p);
    assert w.meta.Keys == open - {p};
    SameReports(n, v, w);
  }

  lemma SameReports(m: MachineState, v: View, w: View)
    requires AllTruthful(m, v) && w.reports == v.reports && w.history == v.history
    ensures AllTruthful(m, w)
  {
  }

  lemma LeavesLinks(m: MachineState, v: View, w: View, p: Provider)
    requires Linked(v) && Timed(m, v)
    requires w == v.(meta := v.meta - {p}) || w == v.(remaining := v.remaining - {p}, meta := v.meta - {p})
    ensures Linked(w) && Timed(m, w)
  {
  }

  lemma OpenIsKnown(m: MachineState, v: View, open: set<Provider>, p: Provider)
    requires Books(m, v, open) && p in v.remaining
    ensures p in v.history.pidOf && p in v.history.runOf && v.remaining[p] == v.history.pidOf[p]
    ensures p in v.meta ==> v.meta[p].runId == v.history.runOf[p]
    ensures p in open ==> v.history.runOf[p] !in m.confirmed
    ensures Inverse(v.history.pidOf, v.history.childOf) && Inverse(v.history.runOf, v.history.recordOf)
  {
  }

  /** A child that refuses to die leaves the cycle's books as they are. */
  lemma RefusalToDieKeepsBooks(m: MachineState, n: MachineState, v: View, p: Provider, open: set<Provider>)
    requires Books(m, v, open) && AllTruthful(m, v) && p in v.remaining && p !in v.reports
    requires n.Valid() && Quiet(m, n.(killed := m.killed)) && m.killed <= n.killed <= m.killed + {v.remaining[p]}
    ensures Books(n, v, open) && AllTruthful(n, v)
  {
    hide Books, Truthful, Later;
    StubbornIsLater(m, n);
    DriftKeepsBooks(m, n, v, open);
    OpenIsKnown(m, v, open, p);
    forall q | q in v.reports ensures Truthful(n, v.history, q, v.reports[q]) {
      TruthStays(m, n, v.history, v.history, q, v.reports[q]);
    }
  }

  lemma StubbornIsLater(m: MachineState, n: MachineState)
    requires Quiet(m, n.(killed := m.killed))
    ensures Later(m, n) && n.alive <= m.alive && n.closedAs == m.closedAs
    ensures n.confirmed == m.confirmed && n.evidence == m.evidence
  {
  }

  lemma RefusalToDieKeepsCore(m: MachineState, n: MachineState, v: View, p: Provider)
    requires Inv(m, v) && p in v.remaining
    requires n.Valid() && Quiet(m, n.(killed := m.killed)) && m.killed <= n.killed <= m.killed + {v.remaining[p]}
    ensures Core(n, v)
  {
    hide Books, AllTruthful, Partition;
    NotReported(m, v, p);
    RefusalToDieKeepsBooks(m, n, v, p, v.remaining.Keys);
  }

  lemma NotReported(m: MachineState, v: View, p: Provider)
    requires Core(m, v) && p in v.remaining
    ensures p !in v.reports
  {
  }

  /**
    Nobody is left open: no child runs, every record that was opened since the machine was in state `origin` had
    exactly one closing call, and no other record had one.
  */
  ghost predicate AllSettled(m: MachineState, origin: MachineState) {
    && m.alive == {}
    && origin.begun <= m.begun
    && (forall id :: id in m.begun && id !in origin.begun ==> m.closed[id] == 1)
    && (forall id :: id !in m.begun || id in origin.begun ==> m.closed[id] == origin.closed[id])
  }

  /** In any state of the cycle no record had two closing calls, and none that the cycle did not open had one. */
  ghost predicate NoneClosedTwice(m: MachineState, origin: MachineState) {
    && origin.begun <= m.begun
    && (forall id :: id in m.begun && id !in origin.begun ==> m.closed[id] <= 1)
    && (forall id :: id !in m.begun || id in origin.begun ==> m.closed[id] == origin.closed[id])
  }

  /** The history tells the children and the records of the cycle apart from all others. */
  ghost predicate Traced(m: MachineState, v: View) {
    v.history.origin == v.origin && v.history.timeoutOf == v.timeoutOf && Launched(m, v.history) && Opened(m, v.history)
  }

  lemma OpenBooks(m: MachineState, v: View, open: set<Provider>)
    requires Books(m, v, open)
    ensures m.Valid() && NoneClosedTwice(m, v.origin) && Traced(m, v)
  {
  }

  lemma EmptyBooks(m: MachineState, v: View)
    requires Books(m, v, {})
    ensures AllSettled(m, v.origin)
  {
  }

  /**
    What the state of the cycle says in plain words: each provider is in exactly one of three places, the pool and
    its metadata have the same keys and stay within bounds, and every child that runs is one of the pool's.
  */
  lemma StateOfTheCycle(m: MachineState, v: View, p: Provider)
    requires Core(m, v) && p in v.providers
    ensures p in v.pending ==> p !in v.remaining && p !in v.reports
    ensures p in v.remaining ==> p !in v.reports
    ensures p in v.pending || p in v.remaining || p in v.reports
    ensures v.remaining.Keys == v.meta.Keys && |v.remaining| <= v.maxWorkers
    ensures m.alive <= v.remaining.Values && |m.alive| <= v.maxWorkers
    ensures NoneClosedTwice(m, v.origin)
  {
    hide MachineState.Remembered, Timed;
    forall pid | pid in m.alive ensures pid in v.remaining.Values {
      var q := v.history.childOf[pid];
      assert v.remaining[q] == pid;
    }
    FewValues(v.remaining);
    SubsetCount(m.alive, v.remaining.Values);
    OpenBooks(m, v, v.remaining.Keys);
  }

  lemma {:induction false} FewValues<A, B>(f: map<A, B>)
    ensures |f.Values| <= |f|
    decreases |f|
  {
  }
}
