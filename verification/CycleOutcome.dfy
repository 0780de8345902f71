/**
  From the reports of a cycle to its exit code: an aggregate's manifest is bound to the ownership snapshot, and what
  is left of the reports and manifests is classified.
*/
module CycleOutcome {
  import opened Prelude
  import opened Ordering
  import opened Ownership
  import Host

  /** An entry of a child's manifest; None for a field that is missing or of another type. */
  datatype Entry =
    | NotAnObject
    | Entry(provider: string, success: Option<bool>, total: Option<int>, succeeded: Option<int>,
            collected: Option<int>, saved: Option<int>)

  datatype Concrete = Concrete(provider: Provider, owner: Provider, success: bool,
                               total: int, succeeded: int, collected: int, saved: int)

  datatype ReportError = ManifestError | OtherError

  /** A provider's report; `results` is None unless the manifest holds a list. */
  datatype Report = Report(provider: Provider, success: bool, error: Option<ReportError>, results: Option<seq<Entry>>)

  /** str(...).strip().upper() */
  type Normalizer = string -> string

  // ---------- binding ----------

  predicate IsCount(v: Option<int>) {
    v.Some? && v.value >= 0
  }

  predicate IsValidEntry(e: Entry, normalize: Normalizer) {
    && e.Entry?
    && IsProviderName(Host.Provider(normalize(e.provider)))
    && e.success.Some?
    && IsCount(e.total) && IsCount(e.succeeded) && IsCount(e.collected) && IsCount(e.saved)
    && e.total.value > 0 && e.succeeded.value <= e.total.value
    && (e.success.value ==> e.succeeded.value == e.total.value)
  }

  function ToConcrete(e: Entry, owner: Provider, normalize: Normalizer): Concrete
    requires IsValidEntry(e, normalize)
  {
    Concrete(Host.Provider(normalize(e.provider)), owner, e.success.value,
             e.total.value, e.succeeded.value, e.collected.value, e.saved.value)
  }

  function Owned(owners: map<Provider, Provider>, owner: Provider): set<Provider> {
    set p | p in owners && owners[p] == owner
  }

  function Names(results: seq<Concrete>): seq<Provider> {
    seq(|results|, i requires 0 <= i < |results| => results[i].provider)
  }

  ghost predicate AllValid(entries: seq<Entry>, normalize: Normalizer) {
    forall i :: 0 <= i < |entries| ==> IsValidEntry(entries[i], normalize)
  }

  function Converted(entries: seq<Entry>, owner: Provider, normalize: Normalizer): seq<Concrete>
    requires AllValid(entries, normalize)
  {
    seq(|entries|, i requires 0 <= i < |entries| => ToConcrete(entries[i], owner, normalize))
  }

  /** The manifest is evidence: valid entries that name the providers its owner owns, each once, and no others. */
  ghost predicate IsEvidence(r: Report, owners: map<Provider, Provider>, normalize: Normalizer) {
    && r.results.Some? && AllValid(r.results.value, normalize)
    && var names := Names(Converted(r.results.value, r.provider, normalize));
       NoDuplicates(names) && ToSet(names) == Owned(owners, r.provider) && names != []
  }

  /** _manifest_failure */
  function ManifestFailure(r: Report): Report {
    if r.success then r.(success := false, error := Some(ManifestError)) else r
  }

  /** The report after binding. */
  ghost function Bound(r: Report, owners: map<Provider, Provider>, normalize: Normalizer): Report {
    if !IsAggregate(r.provider) || IsEvidence(r, owners, normalize) then r
    else ManifestFailure(r.(results := None))
  }

  /** What a report contributes to the concrete results. */
  ghost function Evidence(r: Report, owners: map<Provider, Provider>, normalize: Normalizer): seq<Concrete> {
    if IsAggregate(r.provider) && IsEvidence(r, owners, normalize)
    then Converted(r.results.value, r.provider, normalize)
    else []
  }

  ghost function AllEvidence(reports: seq<Report>, owners: map<Provider, Provider>, normalize: Normalizer)
    : seq<Concrete>
  {
    if reports == [] then []
    else AllEvidence(reports[..|reports| - 1], owners, normalize)
         + Evidence(reports[|reports| - 1], owners, normalize)
  }

  /** By owner, then by provider. */
  predicate InOrder(a: Concrete, b: Concrete) {
    if a.owner == b.owner then StringLe(a.provider.name, b.provider.name) else StringLe(a.owner.name, b.owner.name)
  }

  lemma InOrderIsOrder()
    ensures TotalPreorder(InOrder)
  {
    StringOrder();
    forall a: Concrete, b: Concrete
      ensures a.owner == b.owner <==> StringLe(a.owner.name, b.owner.name) && StringLe(b.owner.name, a.owner.name)
    {
      StringLeTotal(a.owner.name, b.owner.name);
    }
  }

  /** The loop over the entries of one manifest; it gives up, with nothing, at the first invalid entry. */
  method ReadManifest(entries: seq<Entry>, owner: Provider, normalize: Normalizer) returns (results: seq<Concrete>)
    ensures AllValid(entries, normalize) ==> results == Converted(entries, owner, normalize)
    ensures !AllValid(entries, normalize) ==> results == []
  {
    hide IsValidEntry;
    results := [];
    for i := 0 to |entries|
      invariant AllValid(entries[..i], normalize) && results == Converted(entries[..i], owner, normalize)
    {
      if !IsValidEntry(entries[i], normalize) { return []; }
      results := results + [ToConcrete(entries[i], owner, normalize)];
      assert entries[..i + 1] == entries[..i] + [entries[i]];
    }
    assert entries[..|entries|] == entries;
  }

  /** One round of build_concrete_provider_results. */
  method BindReport(report: Report, owners: map<Provider, Provider>, normalize: Normalizer)
    returns (after: Report, contributed: seq<Concrete>)
    ensures after == Bound(report, owners, normalize)
    ensures contributed == Evidence(report, owners, normalize)
  {
    hide IsEvidence, AllValid, IsAggregate;
    after, contributed := report, [];
    if !IsAggregate(report.provider) { return; }
    var expected := Owned(owners, report.provider);
    if report.results.None? {
      NoManifest(report, owners, normalize);
      after := ManifestFailure(report);
      return;
    }
    var normalized := ReadManifest(report.results.value, report.provider, normalize);
    var actual := ToSet(Names(normalized));
    EvidenceBySight(report, owners, normalize, normalized);
    if expected == {} || |normalized| != |report.results.value| || |actual| != |normalized| || actual != expected {
      after := ManifestFailure(report.(results := None));
      return;
    }
    contributed := normalized;
  }

  /** build_concrete_provider_results, which also marks the reports whose manifest is no evidence. */
  method BuildConcreteProviderResults(reports: array<Report>, owners: map<Provider, Provider>, normalize: Normalizer)
    returns (results: seq<Concrete>)
    modifies reports
    ensures forall i :: 0 <= i < reports.Length ==> reports[i] == Bound(old(reports[i]), owners, normalize)
    ensures results == Sort(AllEvidence(old(reports[..]), owners, normalize), InOrder) && IsSorted(results, InOrder)
  {
    hide Bound, Evidence;
    ghost var given := reports[..];
    results := [];
    for n := 0 to reports.Length
      invariant forall i :: 0 <= i < n ==> reports[i] == Bound(given[i], owners, normalize)
      invariant forall i :: n <= i < reports.Length ==> reports[i] == given[i]
      invariant results == AllEvidence(given[..n], owners, normalize)
    {
      var after, contributed := BindReport(reports[n], owners, normalize);
      assert given[..n + 1][..n] == given[..n];
      reports[n] := after;
      results := results + contributed;
    }
    assert given[..reports.Length] == given;
    InOrderIsOrder();
    SortSorts(results, InOrder);
    results := Sort(results, InOrder);
  }

  lemma NoManifest(r: Report, owners: map<Provider, Provider>, normalize: Normalizer)
    requires r.results.None?
    ensures !IsEvidence(r, owners, normalize) && r.(results := None) == r
  {
  }

  /** The four tests of the code tell evidence from other manifests. */
  lemma EvidenceBySight(r: Report, owners: map<Provider, Provider>, normalize: Normalizer, normalized: seq<Concrete>)
    requires r.results.Some?
    requires AllValid(r.results.value, normalize) ==> normalized == Converted(r.results.value, r.provider, normalize)
    requires !AllValid(r.results.value, normalize) ==> normalized == []
    ensures var actual, expected := ToSet(Names(normalized)), Owned(owners, r.provider);
            IsEvidence(r, owners, normalize) <==>
              expected != {} && |normalized| == |r.results.value| && |actual| == |normalized| && actual == expected
  {
    CountDistinct(Names(normalized));
    if normalized != [] { assert Names(normalized)[0] in ToSet(Names(normalized)); }
  }

  // ---------- classification ----------

  datatype Outcome = Success | PartialSuccess | ZeroProvider | Failed

  const SUCCESS_CODE := 0
  const FAILED_CODE := 1
  const PARTIAL_CODE := 3
  const ZERO_CODE := 4

  /** classify_cycle_outcome */
  function Classify(completed: int, failed: int, results: seq<Concrete>, batchFinished: bool, maintenanceFailed: bool)
    : Outcome
  {
    if !batchFinished || maintenanceFailed then Failed
    else
      var persisted := completed > 0 || exists r :: r in results && r.success;
      var collectionFailed := failed > 0 || exists r :: r in results && !r.success;
      if collectionFailed then (if persisted then PartialSuccess else ZeroProvider)
      else if !persisted then ZeroProvider
      else Success
  }

  /** exit_code_for_cycle_outcome */
  function ExitCode(o: Outcome): int {
    match o
    case Success => SUCCESS_CODE
    case PartialSuccess => PARTIAL_CODE
    case ZeroProvider => ZERO_CODE
    case Failed => FAILED_CODE
  }

  function Completed(reports: seq<Report>): nat {
    if reports == [] then 0
    else Completed(reports[..|reports| - 1]) + if reports[|reports| - 1].success then 1 else 0
  }

  ghost function BoundAll(reports: seq<Report>, owners: map<Provider, Provider>, normalize: Normalizer): seq<Report> {
    seq(|reports|, i requires 0 <= i < |reports| => Bound(reports[i], owners, normalize))
  }

  /** The exit code of a cycle over `providers` that ended with `reports`. */
  ghost function CycleExit(providers: seq<Provider>, reports: seq<Report>, owners: map<Provider, Provider>,
                           normalize: Normalizer, batchFinished: bool, maintenanceFailed: bool): int {
    var completed := Completed(BoundAll(reports, owners, normalize));
    ExitCode(Classify(completed, |providers| - completed,
                      Sort(AllEvidence(reports, owners, normalize), InOrder), batchFinished, maintenanceFailed))
  }

  lemma {:induction false} CompletedAll(reports: seq<Report>)
    ensures Completed(reports) <= |reports|
    ensures Completed(reports) == |reports| <==> forall i :: 0 <= i < |reports| ==> reports[i].success
  {
    if reports != [] { CompletedAll(reports[..|reports| - 1]); }
  }

  lemma {:induction false} EvidenceOfSome(reports: seq<Report>, owners: map<Provider, Provider>, normalize: Normalizer)
    ensures forall c :: c in AllEvidence(reports, owners, normalize) <==>
      exists i :: 0 <= i < |reports| && c in Evidence(reports[i], owners, normalize)
  {
    hide Evidence;
    if reports != [] {
      var init := reports[..|reports| - 1];
      EvidenceOfSome(init, owners, normalize);
      assert forall i :: 0 <= i < |init| ==> reports[i] == init[i];
    }
  }

  /**
    The cycle's exit code is 0 exactly when there were providers, every one of them reported success and still does
    after binding, no concrete result failed, the batch was finished and no maintenance failed.
  */
  lemma SuccessExactly(providers: seq<Provider>, reports: seq<Report>, owners: map<Provider, Provider>,
                       normalize: Normalizer, batchFinished: bool, maintenanceFailed: bool)
    requires |reports| <= |providers|
    ensures CycleExit(providers, reports, owners, normalize, batchFinished, maintenanceFailed) == 0 <==>
      && providers != [] && |reports| == |providers|
      && (forall i :: 0 <= i < |reports| ==> Bound(reports[i], owners, normalize).success)
      && (forall i, c :: 0 <= i < |reports| && c in Evidence(reports[i], owners, normalize) ==> c.success)
      && batchFinished && !maintenanceFailed
  {
    hide Bound, Evidence, AllEvidence, BoundAll, Completed, Sort;
    PersistedSomewhere(reports, owners, normalize);
    FailedSomewhere(reports, owners, normalize);
  }

  /**
    Without success, the code tells why: 1 for the batch or the maintenance, 4 when nothing was persisted, 3 when
    something was and something else failed.
  */
  lemma OtherCodesExactly(providers: seq<Provider>, reports: seq<Report>, owners: map<Provider, Provider>,
                          normalize: Normalizer, batchFinished: bool, maintenanceFailed: bool)
    requires |reports| <= |providers|
    ensures var code := CycleExit(providers, reports, owners, normalize, batchFinished, maintenanceFailed);
            var persisted :=
              (exists i :: 0 <= i < |reports| && Bound(reports[i], owners, normalize).success)
              || (exists i, c :: 0 <= i < |reports| && c in Evidence(reports[i], owners, normalize) && c.success);
            var lacking :=
              |reports| < |providers|
              || (exists i :: 0 <= i < |reports| && !Bound(reports[i], owners, normalize).success)
              || (exists i, c :: 0 <= i < |reports| && c in Evidence(reports[i], owners, normalize) && !c.success);
            && (code == 1 <==> !batchFinished || maintenanceFailed)
            && (code == 4 <==> batchFinished && !maintenanceFailed && !persisted)
            && (code == 3 <==> batchFinished && !maintenanceFailed && persisted && lacking)
  {
    hide Bound, Evidence, AllEvidence, BoundAll, Completed, Sort;
    PersistedSomewhere(reports, owners, normalize);
    FailedSomewhere(reports, owners, normalize);
  }

  lemma FailedSomewhere(reports: seq<Report>, owners: map<Provider, Provider>, normalize: Normalizer)
    ensures Completed(BoundAll(reports, owners, normalize)) < |reports| <==>
      exists i :: 0 <= i < |reports| && !Bound(reports[i], owners, normalize).success
    ensures Completed(BoundAll(reports, owners, normalize)) <= |reports|
    ensures (exists r :: r in Sort(AllEvidence(reports, owners, normalize), InOrder) && !r.success) <==>
      exists i, c :: 0 <= i < |reports| && c in Evidence(reports[i], owners, normalize) && !c.success
  {
    hide Bound, Evidence;
    var bound := BoundAll(reports, owners, normalize);
    CompletedAll(bound);
    EvidenceOfSome(reports, owners, normalize);
    SortPermutes(AllEvidence(reports, owners, normalize), InOrder);
    assert |bound| == |reports| && forall i :: 0 <= i < |reports| ==> bound[i] == Bound(reports[i], owners, normalize);
  }

  lemma PersistedSomewhere(reports: seq<Report>, owners: map<Provider, Provider>, normalize: Normalizer)
    ensures Completed(BoundAll(reports, owners, normalize)) > 0 <==>
      exists i :: 0 <= i < |reports| && Bound(reports[i], owners, normalize).success
    ensures (exists r :: r in Sort(AllEvidence(reports, owners, normalize), InOrder) && r.success) <==>
      exists i, c :: 0 <= i < |reports| && c in Evidence(reports[i], owners, normalize) && c.success
  {
    hide Bound, Evidence;
    var bound := BoundAll(reports, owners, normalize);
    CompletedSome(bound);
    EvidenceOfSome(reports, owners, normalize);
    SortPermutes(AllEvidence(reports, owners, normalize), InOrder);
    assert |bound| == |reports| && forall i :: 0 <= i < |reports| ==> bound[i] == Bound(reports[i], owners, normalize);
  }

  lemma {:induction false} CompletedSome(reports: seq<Report>)
    ensures Completed(reports) > 0 <==> exists i :: 0 <= i < |reports| && reports[i].success
  {
    if reports != [] {
      var init := reports[..|reports| - 1];
      CompletedSome(init);
      assert forall i :: 0 <= i < |init| ==> reports[i] == init[i];
    }
  }

  /**
    After a cycle that exits with 0, each aggregate's concrete results name exactly the providers it owns, each of
    them once, and all targets of each succeeded.
  */
  lemma SuccessIsComplete(providers: seq<Provider>, reports: seq<Report>, owners: map<Provider, Provider>,
                          normalize: Normalizer, maintenanceFailed: bool, batchFinished: bool, i: nat)
    requires |reports| <= |providers| && i < |reports| && IsAggregate(reports[i].provider)
    requires CycleExit(providers, reports, owners, normalize, batchFinished, maintenanceFailed) == SUCCESS_CODE
    ensures var results := Evidence(reports[i], owners, normalize);
            && NoDuplicates(Names(results)) && results != []
            && ToSet(Names(results)) == Owned(owners, reports[i].provider)
            && forall c :: c in results ==>
                 c.owner == reports[i].provider && c.success && c.succeeded == c.total > 0
  {
    SuccessExactly(providers, reports, owners, normalize, batchFinished, maintenanceFailed);
    var r := reports[i];
    assert Bound(r, owners, normalize).success;
    assert IsEvidence(r, owners, normalize);
    var results := Evidence(r, owners, normalize);
    forall c | c in results ensures c.owner == r.provider && c.success && c.succeeded == c.total > 0 {
      var k :| 0 <= k < |results| && results[k] == c;
      assert IsValidEntry(r.results.value[k], normalize);
      assert c == ToConcrete(r.results.value[k], r.provider, normalize);
    }
  }

  /** An entry counts exactly if it has a valid name and four counts; at most all targets succeeded, all if it did. */
  lemma WhichEntriesCount(e: Entry, normalize: Normalizer)
    ensures IsValidEntry(e, normalize) <==>
      e.Entry? && exists success, total: nat, succeeded: nat, collected: nat, saved: nat ::
        && e == Entry(e.provider, Some(success), Some(total), Some(succeeded), Some(collected), Some(saved))
        && IsProviderName(Host.Provider(normalize(e.provider)))
        && total != 0 && succeeded <= total && (success ==> succeeded == total)
  {
    hide IsProviderName;
    if IsValidEntry(e, normalize) {
      assert e == Entry(e.provider, Some(e.success.value), Some(e.total.value), Some(e.succeeded.value),
                        Some(e.collected.value), Some(e.saved.value));
    }
  }

  /** The evidence is the manifest, entry by entry: who, of whom, how it went, and the four counts. */
  lemma EvidenceIsManifest(r: Report, owners: map<Provider, Provider>, normalize: Normalizer, k: nat)
    requires IsAggregate(r.provider) && IsEvidence(r, owners, normalize) && k < |r.results.value|
    ensures var e, results := r.results.value[k], Evidence(r, owners, normalize);
      && |results| == |r.results.value| && e.Entry?
      && results[k].provider.name == normalize(e.provider) && results[k].owner == r.provider
      && e.success == Some(results[k].success) && e.total == Some(results[k].total)
      && e.succeeded == Some(results[k].succeeded) && e.collected == Some(results[k].collected)
      && e.saved == Some(results[k].saved)
      && results[k].total >= 1 && results[k].saved >= 0 && results[k].collected >= 0
      && 0 <= results[k].succeeded <= results[k].total
      && (results[k].success ==> results[k].succeeded == results[k].total)
  {
    assert IsValidEntry(r.results.value[k], normalize);
  }

  /** An invalid entry, a missing list, or other names than the owned ones: nothing is taken, and success is lost. */
  lemma WithoutEvidence(r: Report, owners: map<Provider, Provider>, normalize: Normalizer)
    requires IsAggregate(r.provider) && !IsEvidence(r, owners, normalize)
    ensures Evidence(r, owners, normalize) == []
    ensures var b := Bound(r, owners, normalize);
      && !b.success && b.provider == r.provider && b.results.None?
      && b.error == if r.success then Some(ManifestError) else r.error
  {
  }

  /** Owners are a function, so no two aggregates vouch for the same provider. */
  lemma NoProviderTwice(r: Report, s: Report, owners: map<Provider, Provider>, normalize: Normalizer,
                        c: Concrete, d: Concrete)
    requires r.provider != s.provider
    requires c in Evidence(r, owners, normalize) && d in Evidence(s, owners, normalize)
    ensures c.provider != d.provider
  {
    var a, b := Evidence(r, owners, normalize), Evidence(s, owners, normalize);
    var i :| 0 <= i < |a| && a[i] == c;
    var j :| 0 <= j < |b| && b[j] == d;
    assert Names(a)[i] in ToSet(Names(a)) && Names(b)[j] in ToSet(Names(b));
  }
}
