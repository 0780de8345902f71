/** A whole cycle, from the first process to the exit code. */
module CrawlCycle {
  import opened Prelude
  import opened Ownership
  import Host
  import CycleBooks
  import Scheduler
  import Outcome = CycleOutcome

  /** What the manifest of a provider's child holds, if it holds a list. */
  type Manifests = Provider -> Option<seq<Outcome.Entry>>

  /** The report of a child that was finalised, as the cycle's end sees it. */
  function Reported(p: Provider, r: CycleBooks.Report, manifests: Manifests): (e: Outcome.Report)
    ensures e.error.None? <==> e.success
  {
    Outcome.Report(p, r.success, if r.success then None else Some(Outcome.OtherError), manifests(p))
  }

  function AllReported(providers: seq<Provider>, reports: seq<CycleBooks.Report>, manifests: Manifests)
    : (r: seq<Outcome.Report>)
    requires |providers| == |reports|
    ensures |r| == |providers|
    ensures forall i :: 0 <= i < |r| ==> r[i] == Reported(providers[i], reports[i], manifests)
  {
    seq(|providers|, i requires 0 <= i < |providers| => Reported(providers[i], reports[i], manifests))
  }

  /** The provider's child ran, was never signalled and exited with 0, and its record was closed as a success. */
  ghost predicate RanClean(m: Host.MachineState, h: CycleBooks.History, p: Provider) {
    && p in h.pidOf && h.pidOf[p] in m.exits && m.exits[h.pidOf[p]] == 0 && h.pidOf[p] !in m.killed
    && p in h.runOf && h.runOf[p] in m.closedAs && m.closedAs[h.runOf[p]] == Host.LogSuccess
  }

  /**
    What exit code 0 takes: every provider's child exited with 0 and left good evidence, nobody had to end it, and its
    record was written; every aggregate's manifest names the providers it owns, and none of them failed; the batch was
    finished and no maintenance failed.
  */
  ghost predicate AllWell(m: Host.MachineState, v: CycleBooks.View, manifests: Manifests,
                          owners: map<Provider, Provider>, normalize: Outcome.Normalizer,
                          batchFinished: bool, maintenanceFailed: bool)
  {
    && v.providers != [] && batchFinished && !maintenanceFailed
    && forall p :: p in v.providers ==> WellAt(m, v, p, manifests, owners, normalize)
  }

  ghost predicate WellAt(m: Host.MachineState, v: CycleBooks.View, p: Provider, manifests: Manifests,
                         owners: map<Provider, Provider>, normalize: Outcome.Normalizer)
  {
    && CycleBooks.Delivered(m, v.history, p) && CycleBooks.Confirmed(m, v.history, p)
    && p in v.reports && !CycleBooks.WasForced(v.reports[p])
    && (IsAggregate(p) ==> VouchesForAll(p, manifests(p), owners, normalize))
  }

  /** The manifest is evidence of the aggregate's providers, and each of its entries is a success. */
  ghost predicate VouchesForAll(p: Provider, manifest: Option<seq<Outcome.Entry>>, owners: map<Provider, Provider>,
                                normalize: Outcome.Normalizer)
  {
    && Outcome.IsEvidence(Outcome.Report(p, true, None, manifest), owners, normalize)
    && forall i :: 0 <= i < |manifest.value| ==> manifest.value[i].Entry? && manifest.value[i].success == Some(true)
  }

  /** One provider's part in it. */
  lemma ReportedWell(m: Host.MachineState, h: CycleBooks.History, p: Provider, r: CycleBooks.Report,
                     manifests: Manifests, owners: map<Provider, Provider>, normalize: Outcome.Normalizer)
    requires CycleBooks.Truthful(m, h, p, r)
    ensures var e := Reported(p, r, manifests);
      (Outcome.Bound(e, owners, normalize).success
       && forall c :: c in Outcome.Evidence(e, owners, normalize) ==> c.success)
      <==>
      (CycleBooks.Delivered(m, h, p) && CycleBooks.Confirmed(m, h, p) && !CycleBooks.WasForced(r)
       && (IsAggregate(p) ==> VouchesForAll(p, manifests(p), owners, normalize)))
  {
    CycleBooks.SuccessIsDeserved(m, h, p, r);
    hide CycleBooks.Truthful, CycleBooks.Delivered, CycleBooks.Confirmed, CycleBooks.WasForced, IsAggregate;
    var e := Reported(p, r, manifests);
    SameEvidence(e, p, manifests, owners, normalize);
    if Outcome.IsEvidence(e, owners, normalize) { AllSucceed(e, owners, normalize); }
  }

  lemma SameEvidence(e: Outcome.Report, p: Provider, manifests: Manifests, owners: map<Provider, Provider>,
                     normalize: Outcome.Normalizer)
    requires e.provider == p && e.results == manifests(p)
    ensures Outcome.IsEvidence(e, owners, normalize) <==>
      Outcome.IsEvidence(Outcome.Report(p, true, None, manifests(p)), owners, normalize)
  {
  }

  lemma AllSucceed(e: Outcome.Report, owners: map<Provider, Provider>, normalize: Outcome.Normalizer)
    requires Outcome.IsEvidence(e, owners, normalize)
    ensures (forall c :: c in Outcome.Converted(e.results.value, e.provider, normalize) ==> c.success) <==>
      forall i :: 0 <= i < |e.results.value| ==> e.results.value[i].Entry? && e.results.value[i].success == Some(true)
  {
    var results := Outcome.Converted(e.results.value, e.provider, normalize);
    assert forall i :: 0 <= i < |results| ==>
      results[i] in results && Outcome.IsValidEntry(e.results.value[i], normalize)
      && results[i] == Outcome.ToConcrete(e.results.value[i], e.provider, normalize);
  }

  /** The exit code is 0 exactly when all went well. */
  lemma SuccessIsAllWell(m: Host.MachineState, v: CycleBooks.View, reports: seq<CycleBooks.Report>,
                         manifests: Manifests, owners: map<Provider, Provider>, normalize: Outcome.Normalizer,
                         batchFinished: bool, maintenanceFailed: bool)
    requires CycleBooks.AllTruthful(m, v) && |reports| == |v.providers|
    requires forall i :: 0 <= i < |reports| ==> v.providers[i] in v.reports && reports[i] == v.reports[v.providers[i]]
    ensures Outcome.CycleExit(v.providers, AllReported(v.providers, reports, manifests), owners, normalize,
                              batchFinished, maintenanceFailed) == Outcome.SUCCESS_CODE
      <==> AllWell(m, v, manifests, owners, normalize, batchFinished, maintenanceFailed)
  {
    hide Outcome.CycleExit, Outcome.Bound, Outcome.Evidence, VouchesForAll, IsAggregate, CycleBooks.Truthful;
    hide CycleBooks.Delivered, CycleBooks.Confirmed, CycleBooks.WasForced;
    var ended := AllReported(v.providers, reports, manifests);
    Outcome.SuccessExactly(v.providers, ended, owners, normalize, batchFinished, maintenanceFailed);
    forall i | 0 <= i < |reports|
      ensures v.providers[i] in v.providers
      ensures (Outcome.Bound(ended[i], owners, normalize).success
               && forall c :: c in Outcome.Evidence(ended[i], owners, normalize) ==> c.success)
        <==> WellAt(m, v, v.providers[i], manifests, owners, normalize)
    {
      ReportedWell(m, v.history, v.providers[i], reports[i], manifests, owners, normalize);
    }
    assert forall p :: p in v.providers ==> exists i :: 0 <= i < |reports| && v.providers[i] == p;
  }

  /** Exit code 0 vouches for every provider of the cycle. */
  lemma SuccessRanClean(m: Host.MachineState, v: CycleBooks.View, manifests: Manifests,
                        owners: map<Provider, Provider>, normalize: Outcome.Normalizer,
                        batchFinished: bool, maintenanceFailed: bool)
    requires CycleBooks.AllTruthful(m, v)
    requires AllWell(m, v, manifests, owners, normalize, batchFinished, maintenanceFailed)
    ensures forall p :: p in v.providers ==> RanClean(m, v.history, p)
  {
    forall p | p in v.providers ensures RanClean(m, v.history, p) {
      CycleBooks.SuccessIsDeserved(m, v.history, p, v.reports[p]);
    }
  }

  /** What main does with the reports of a cycle: bind, count, classify. */
  method Conclude(reports: seq<Outcome.Report>, providers: seq<Provider>, owners: map<Provider, Provider>,
                  normalize: Outcome.Normalizer, batchFinished: bool, maintenanceFailed: bool) returns (code: int)
    ensures code == Outcome.CycleExit(providers, reports, owners, normalize, batchFinished, maintenanceFailed)
  {
    hide Outcome.Bound, Outcome.AllEvidence, Outcome.Completed, Outcome.Classify;
    var bound := new Outcome.Report[|reports|](i requires 0 <= i < |reports| => reports[i]);
    assert bound[..] == reports;
    var results := Outcome.BuildConcreteProviderResults(bound, owners, normalize);
    var completed := CountCompleted(bound);
    assert bound[..] == Outcome.BoundAll(reports, owners, normalize);
    code := Outcome.ExitCode(
      Outcome.Classify(completed, |providers| - completed, results, batchFinished, maintenanceFailed));
  }

  /**
    Runs the cycle, binds what its aggregates wrote to the ownership snapshot and classifies the outcome. There is a
    code exactly when the cycle returns, and not when it raised an error or is still waiting for its window.
  */
  method RunToExit(cycle: Scheduler.ParallelCycle, patience: nat, manifests: Manifests,
                   owners: map<Provider, Provider>, normalize: Outcome.Normalizer,
                   batchFinished: bool, maintenanceFailed: bool)
    returns (code: Option<int>, outcome: Scheduler.Outcome,
             first: int, second: int, setAt: int, deadline: Option<int>, missed: seq<nat>)
    requires cycle.Valid() && 1 <= cycle.maxWorkers && cycle.Unstarted()
    modifies cycle, cycle.host
    ensures cycle.Sound(outcome, deadline)
    ensures cycle.host.s.raises == old(cycle.host.s).raises + cycle.Raises(outcome)
    ensures cycle.Enforced(old(cycle.host.s), outcome, first, second, setAt, deadline)
    ensures cycle.Patient(old(cycle.host.s), outcome, first, second, missed, patience)
    ensures code.Some? <==> outcome.Returned?
    ensures code.Some? ==>
      && |outcome.reports| == |cycle.providers|
      && code.value == Outcome.CycleExit(cycle.providers, AllReported(cycle.providers, outcome.reports, manifests),
                                         owners, normalize, batchFinished, maintenanceFailed)
    ensures code.Some? ==>
      (code.value == Outcome.SUCCESS_CODE <==>
        AllWell(cycle.host.s, cycle.State(), manifests, owners, normalize, batchFinished, maintenanceFailed))
    ensures code == Some(Outcome.SUCCESS_CODE) ==>
      forall p :: p in cycle.providers ==> RanClean(cycle.host.s, cycle.history, p)
  {
    hide Scheduler.ParallelCycle.Valid, Scheduler.ParallelCycle.Unstarted, Scheduler.ParallelCycle.Sound;
    hide Scheduler.ParallelCycle.Enforced, Scheduler.ParallelCycle.Patient, RanClean, Outcome.CycleExit;
    hide AllWell;
    outcome, first, second, setAt, deadline, missed := cycle.RunCycleParallel(patience);
    if !outcome.Returned? { return None, outcome, first, second, setAt, deadline, missed; }
    Results(cycle, outcome, deadline);
    var ended := AllReported(cycle.providers, outcome.reports, manifests);
    var exit := Conclude(ended, cycle.providers, owners, normalize, batchFinished, maintenanceFailed);
    code := Some(exit);
    SuccessIsAllWell(cycle.host.s, cycle.State(), outcome.reports, manifests, owners, normalize,
                     batchFinished, maintenanceFailed);
    if exit == Outcome.SUCCESS_CODE {
      SuccessRanClean(cycle.host.s, cycle.State(), manifests, owners, normalize, batchFinished, maintenanceFailed);
    }
  }

  lemma Results(cycle: Scheduler.ParallelCycle, outcome: Scheduler.Outcome, deadline: Option<int>)
    requires cycle.Sound(outcome, deadline) && outcome.Returned?
    ensures CycleBooks.AllTruthful(cycle.host.s, cycle.State()) && |outcome.reports| == |cycle.providers|
    ensures forall i :: 0 <= i < |outcome.reports| ==>
      cycle.providers[i] in cycle.reports && outcome.reports[i] == cycle.reports[cycle.providers[i]]
  {
  }

  /** sum(1 for report in provider_reports if report.get("success")) */
  method CountCompleted(reports: array<Outcome.Report>) returns (completed: nat)
    ensures completed == Outcome.Completed(reports[..])
  {
    completed := 0;
    for n := 0 to reports.Length
      invariant completed == Outcome.Completed(reports[..n])
    {
      assert reports[..n + 1][..n] == reports[..n];
      if reports[n].success { completed := completed + 1; }
    }
    assert reports[..reports.Length] == reports[..];
  }
}
