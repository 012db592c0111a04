/** The conformance suite: internal/conformance/check.go, catalog.go, runner.go and result.go. */
module Conformance {
  import opened Common

  datatype CheckId =
    | S001 | S002 | S003 | S004
    | P001 | P002 | P003 | P004
    | E001 | E002 | E003 | E004 | E005
    | Fs001 | Fs002 | Fs003 | Fs004 | Fs005 | Fs006 | Fs007
    | L001 | L002 | L003
    | H001 | H002
    | OtherCheck(text: string)

  datatype Severity = Blocking | Degrading

  datatype Category = SystemState | Process | Endpoint | Filesystem | Log

  datatype Check = Check(id: CheckId, category: Category, severity: Severity)

  datatype CheckResult = CheckResult(check: Check, passed: bool, dependent: bool)

  datatype Classification = ClassConformant | ClassDegradedConformant | ClassNonConformant {
    predicate IsConformant() {
      this == ClassConformant || this == ClassDegradedConformant
    }
  }

  datatype SuiteResult = SuiteResult(
    results: seq<CheckResult>,
    classification: Classification,
    passed: nat,
    total: nat,
    failingBlocking: seq<CheckId>,
    failingDegraded: seq<CheckId>)
  {
    function ExitCode(): nat {
      if |failingBlocking| > 0 then 1 else 0
    }
  }

  const CATALOG: seq<Check> := [
    Check(S001, SystemState, Blocking),
    Check(S002, SystemState, Blocking),
    Check(S003, SystemState, Blocking),
    Check(S004, SystemState, Blocking),
    Check(P001, Process, Blocking),
    Check(P002, Process, Blocking),
    Check(P003, Process, Blocking),
    Check(P004, Process, Blocking),
    Check(E001, Endpoint, Blocking),
    Check(E002, Endpoint, Blocking),
    Check(E003, Endpoint, Blocking),
    Check(E004, Endpoint, Blocking),
    Check(E005, Endpoint, Blocking),
    Check(Fs001, Filesystem, Blocking),
    Check(Fs002, Filesystem, Blocking),
    Check(Fs003, Filesystem, Blocking),
    Check(Fs004, Filesystem, Blocking),
    Check(Fs005, Filesystem, Blocking),
    Check(Fs006, Filesystem, Degrading),
    Check(Fs007, Filesystem, Blocking),
    Check(L001, Log, Degrading),
    Check(L002, Log, Degrading),
    Check(L003, Log, Degrading),
    Check(H001, Endpoint, Blocking),
    Check(H002, Endpoint, Blocking)
  ]

  /** The checks of the catalog whose failure blocks. */
  predicate BlockingId(id: CheckId) {
    match id
    case Fs006 | L001 | L002 | L003 | OtherCheck(_) => false
    case _ => true
  }

  function CatalogIndex(id: CheckId): (i: nat)
    requires BlockingId(id)
    ensures i < |CATALOG| && CATALOG[i].id == id && CATALOG[i].severity == Blocking
  {
    match id
    case S001 => 0 case S002 => 1 case S003 => 2 case S004 => 3
    case P001 => 4 case P002 => 5 case P003 => 6 case P004 => 7
    case E001 => 8 case E002 => 9 case E003 => 10 case E004 => 11 case E005 => 12
    case Fs001 => 13 case Fs002 => 14 case Fs003 => 15 case Fs004 => 16 case Fs005 => 17
    case Fs007 => 19 case H001 => 23 case H002 => 24
  }

  lemma CatalogBlocks(i: nat)
    requires i < |CATALOG|
    ensures CATALOG[i].severity == Blocking <==> BlockingId(CATALOG[i].id)
  {
  }

  // ---- classification ----

  /** A failure that Classify counts. */
  predicate Counts(r: CheckResult) {
    !r.passed && !r.dependent
  }

  function FailingIds(results: seq<CheckResult>, severity: Severity): seq<CheckId> {
    if results == [] then []
    else
      var last := results[|results| - 1];
      FailingIds(results[..|results| - 1], severity) +
      if Counts(last) && last.check.severity == severity then [last.check.id] else []
  }

  function PassedCount(results: seq<CheckResult>): nat {
    if results == [] then 0
    else PassedCount(results[..|results| - 1]) + if results[|results| - 1].passed then 1 else 0
  }

  function DependentFailures(results: seq<CheckResult>): nat {
    if results == [] then 0
    else
      var last := results[|results| - 1];
      DependentFailures(results[..|results| - 1]) + if !last.passed && last.dependent then 1 else 0
  }

  function Classified(results: seq<CheckResult>, total: nat): SuiteResult {
    var blocking := FailingIds(results, Blocking);
    var degraded := FailingIds(results, Degrading);
    SuiteResult(
      results,
      if |blocking| > 0 then ClassNonConformant
      else if |degraded| > 0 then ClassDegradedConformant
      else ClassConformant,
      PassedCount(results), total, blocking, degraded)
  }

  method Classify(results: seq<CheckResult>, total: nat) returns (sr: SuiteResult)
    ensures sr == Classified(results, total)
  {
    var passed := 0;
    var blocking: seq<CheckId> := [];
    var degraded: seq<CheckId> := [];
    for i := 0 to |results|
      invariant passed == PassedCount(results[..i])
      invariant blocking == FailingIds(results[..i], Blocking)
      invariant degraded == FailingIds(results[..i], Degrading)
    {
      assert results[..i + 1][..i] == results[..i];
      var res := results[i];
      if res.passed {
        passed := passed + 1;
        continue;
      }
      if res.dependent {
        continue;
      }
      match res.check.severity {
        case Blocking => blocking := blocking + [res.check.id];
        case Degrading => degraded := degraded + [res.check.id];
      }
    }
    assert results[..|results|] == results;
    var classification := ClassConformant;
    if |blocking| > 0 {
      classification := ClassNonConformant;
    } else if |degraded| > 0 {
      classification := ClassDegradedConformant;
    }
    sr := SuiteResult(results, classification, passed, total, blocking, degraded);
  }

  /** The list of counted failures of one severity is empty exactly when there is no such failure. */
  lemma {:induction false} FailingIdsEmpty(results: seq<CheckResult>, severity: Severity)
    ensures FailingIds(results, severity) == [] <==>
            forall i | 0 <= i < |results| :: Counts(results[i]) ==> results[i].check.severity != severity
  {
    if results != [] {
      var front := results[..|results| - 1];
      FailingIdsEmpty(front, severity);
      assert forall i | 0 <= i < |front| :: front[i] == results[i];
    }
  }

  predicate CountsAs(r: CheckResult, severity: Severity) {
    Counts(r) && r.check.severity == severity
  }

  /** The reported IDs are those of the counted failures of that severity, all of them, in the order of the results. */
  lemma {:induction false} FailingIdsPositions(results: seq<CheckResult>, severity: Severity) returns (at: seq<nat>)
    ensures |at| == |FailingIds(results, severity)|
    ensures forall k | 0 <= k < |at| ::
              && at[k] < |results| && CountsAs(results[at[k]], severity)
              && FailingIds(results, severity)[k] == results[at[k]].check.id
    ensures forall j, k | 0 <= j < k < |at| :: at[j] < at[k]
    ensures forall i | 0 <= i < |results| && CountsAs(results[i], severity) :: i in at
  {
    if results == [] {
      at := [];
    } else {
      var n := |results| - 1;
      at := FailingIdsPositions(results[..n], severity);
      if CountsAs(results[n], severity) {
        at := at + [n];
      }
    }
  }

  /** A check is reported exactly when it failed, is not marked dependent and has that severity. */
  lemma FailingIdsMeaning(results: seq<CheckResult>, severity: Severity, id: CheckId)
    ensures id in FailingIds(results, severity) <==>
              exists r | r in results :: CountsAs(r, severity) && r.check.id == id
  {
    var at := FailingIdsPositions(results, severity);
    var ids := FailingIds(results, severity);
    if id in ids {
      var k :| 0 <= k < |ids| && ids[k] == id;
      assert results[at[k]] in results;
    }
    if r :| r in results && CountsAs(r, severity) && r.check.id == id {
      var i :| 0 <= i < |results| && results[i] == r;
      var k :| 0 <= k < |at| && at[k] == i;
      assert ids[k] == id;
    }
  }

  /** The three classes apart: nothing counted, only degrading failures counted, a blocking one counted. */
  lemma ClassificationMeaning(results: seq<CheckResult>, total: nat)
    ensures var c := Classified(results, total).classification;
            && (c == ClassConformant <==> forall r | r in results :: r.passed || r.dependent)
            && (c == ClassNonConformant <==> exists r | r in results :: CountsAs(r, Blocking))
            && (c == ClassDegradedConformant <==>
                  && (exists r | r in results :: CountsAs(r, Degrading))
                  && (forall r | r in results :: !CountsAs(r, Blocking)))
  {
    FailingIdsEmpty(results, Blocking);
    FailingIdsEmpty(results, Degrading);
    forall r | r in results ensures exists i | 0 <= i < |results| :: results[i] == r {
    }
    assert forall i | 0 <= i < |results| :: results[i] in results;
  }

  lemma NonConformantMeaning(results: seq<CheckResult>, total: nat)
    ensures !Classified(results, total).classification.IsConformant() <==>
            exists i | 0 <= i < |results| :: Counts(results[i]) && results[i].check.severity == Blocking
    ensures Classified(results, total).ExitCode() == 1 <==>
            !Classified(results, total).classification.IsConformant()
  {
    FailingIdsEmpty(results, Blocking);
  }

  /** Every result falls into exactly one of the four classes the suite reports. */
  lemma {:induction false} EveryResultCountedOnce(results: seq<CheckResult>, total: nat)
    ensures var sr := Classified(results, total);
            sr.passed + |sr.failingBlocking| + |sr.failingDegraded| + DependentFailures(results) == |results|
  {
    if results != [] {
      EveryResultCountedOnce(results[..|results| - 1], total);
    }
  }

  // ---- the runner ----

  /** A check with the ID S-001 has failed among the first n. */
  predicate S001FailedBefore(checks: seq<Check>, outcomes: seq<bool>, n: nat)
    requires n <= |checks| == |outcomes|
  {
    exists j | 0 <= j < n :: checks[j].id == S001 && !outcomes[j]
  }

  /** What the runner records for position i, for any list of checks and any list of outcomes. */
  function ResultAt(checks: seq<Check>, outcomes: seq<bool>, i: nat): CheckResult
    requires i < |checks| == |outcomes|
  {
    CheckResult(checks[i], outcomes[i],
                checks[i].category == Endpoint && S001FailedBefore(checks, outcomes, i))
  }

  function RunResults(checks: seq<Check>, outcomes: seq<bool>): (results: seq<CheckResult>)
    requires |checks| == |outcomes|
    ensures |results| == |checks|
    ensures forall i | 0 <= i < |checks| :: results[i] == ResultAt(checks, outcomes, i)
  {
    seq(|checks|, i requires 0 <= i < |checks| => ResultAt(checks, outcomes, i))
  }

  /** The full suite over a list of checks; a check that panics is a failed outcome. */
  function FullRun(checks: seq<Check>, outcomes: seq<bool>): SuiteResult
    requires |checks| == |outcomes|
  {
    Classified(RunResults(checks, outcomes), |checks|)
  }

  method RunOne(check: Check, outcome: bool, s001Passed: bool) returns (res: CheckResult)
    ensures res == CheckResult(check, outcome, check.category == Endpoint && !s001Passed)
  {
    var dependent := false;
    if check.category == Endpoint && !s001Passed {
      dependent := true;
    }
    res := CheckResult(check, outcome, dependent);
  }

  method Run(checks: seq<Check>, outcomes: seq<bool>) returns (sr: SuiteResult)
    requires |checks| == |outcomes|
    ensures sr == FullRun(checks, outcomes)
  {
    var results: seq<CheckResult> := [];
    var s001Passed := true;
    for i := 0 to |checks|
      invariant |results| == i
      invariant s001Passed == !S001FailedBefore(checks, outcomes, i)
      invariant forall k | 0 <= k < i :: results[k] == ResultAt(checks, outcomes, k)
    {
      var res := RunOne(checks[i], outcomes[i], s001Passed);
      results := results + [res];
      if checks[i].id == S001 && !res.passed {
        s001Passed := false;
      }
    }
    assert results == RunResults(checks, outcomes);
    sr := Classify(results, |checks|);
  }

  // ---- dependent marking ----

  /** A verdict that suppresses nothing: some blocking check failed. */
  predicate SomeBlockingFailed(checks: seq<Check>, outcomes: seq<bool>)
    requires |checks| == |outcomes|
  {
    exists i | 0 <= i < |checks| :: checks[i].severity == Blocking && !outcomes[i]
  }

  /** An S-001 entry that does not block stands before a blocking endpoint check. */
  predicate CanHideFailure(checks: seq<Check>, i: nat, j: nat) {
    && i < j < |checks|
    && checks[i].id == S001 && checks[i].severity != Blocking
    && checks[j].category == Endpoint && checks[j].severity == Blocking
  }

  ghost predicate CannotHide(checks: seq<Check>) {
    forall i: nat, j: nat :: !CanHideFailure(checks, i, j)
  }

  ghost predicate VerdictUnchanged(checks: seq<Check>, outcomes: seq<bool>)
    requires |checks| == |outcomes|
  {
    var sr := FullRun(checks, outcomes);
    && (!sr.classification.IsConformant() <==> SomeBlockingFailed(checks, outcomes))
    && (sr.ExitCode() == 1 <==> SomeBlockingFailed(checks, outcomes))
  }

  /** The first failing S-001 is itself never marked dependent. */
  lemma FirstS001Failure(checks: seq<Check>, outcomes: seq<bool>, n: nat) returns (j: nat)
    requires n <= |checks| == |outcomes|
    requires S001FailedBefore(checks, outcomes, n)
    ensures j < n && checks[j].id == S001 && !outcomes[j]
    ensures !ResultAt(checks, outcomes, j).dependent
  {
    j :| j < n && checks[j].id == S001 && !outcomes[j];
    if S001FailedBefore(checks, outcomes, j) {
      j := FirstS001Failure(checks, outcomes, j);
    }
  }

  lemma MarkingKeepsVerdict(checks: seq<Check>, outcomes: seq<bool>)
    requires |checks| == |outcomes|
    requires CannotHide(checks)
    ensures VerdictUnchanged(checks, outcomes)
  {
    var results := RunResults(checks, outcomes);
    NonConformantMeaning(results, |checks|);
    if SomeBlockingFailed(checks, outcomes) {
      var i :| 0 <= i < |checks| && checks[i].severity == Blocking && !outcomes[i];
      if results[i].dependent {
        var j := FirstS001Failure(checks, outcomes, i);
        assert !CanHideFailure(checks, j, i);
        assert Counts(results[j]);
      } else {
        assert Counts(results[i]);
      }
    }
  }

  /** When an entry can hide a failure, failing just those two checks does hide it. */
  lemma MarkingHides(checks: seq<Check>, i: nat, j: nat) returns (outcomes: seq<bool>)
    requires CanHideFailure(checks, i, j)
    ensures |outcomes| == |checks|
    ensures FullRun(checks, outcomes).classification.IsConformant()
    ensures SomeBlockingFailed(checks, outcomes)
  {
    outcomes := seq(|checks|, k => k != i && k != j);
    var results := RunResults(checks, outcomes);
    NonConformantMeaning(results, |checks|);
    assert !outcomes[i] && !outcomes[j];
    assert S001FailedBefore(checks, outcomes, j);
    assert results[j].dependent;
  }

  /**
   * Dependent marking never changes the verdict of a list of checks, whatever their outcomes,
   * exactly when no S-001 that does not block precedes a blocking endpoint check.
   */
  lemma MarkingNeverChangesVerdict(checks: seq<Check>)
    ensures CannotHide(checks) <==>
            forall outcomes: seq<bool> | |outcomes| == |checks| :: VerdictUnchanged(checks, outcomes)
  {
    if CannotHide(checks) {
      forall outcomes: seq<bool> | |outcomes| == |checks| ensures VerdictUnchanged(checks, outcomes) {
        MarkingKeepsVerdict(checks, outcomes);
      }
    } else {
      var i: nat, j: nat :| CanHideFailure(checks, i, j);
      var outcomes := MarkingHides(checks, i, j);
      assert !VerdictUnchanged(checks, outcomes);
    }
  }

  lemma CatalogCannotHide()
    ensures CannotHide(CATALOG)
  {
    assert forall i | 0 <= i < |CATALOG| :: CATALOG[i].id == S001 ==> CATALOG[i].severity == Blocking;
  }

  // ---- observations ----

  /** One set of observer answers: the checks that pass, and the status of GET / if it could be asked. */
  datatype Answers = Answers(passing: set<CheckId>, root: Option<int>)

  predicate Passes(a: Answers, id: CheckId) {
    if id == E002 then a.root == Some(200) else id in a.passing
  }

  function Outcomes(checks: seq<Check>, a: Answers): (outcomes: seq<bool>)
    ensures |outcomes| == |checks|
    ensures forall i | 0 <= i < |checks| :: outcomes[i] == Passes(a, checks[i].id)
  {
    seq(|checks|, i requires 0 <= i < |checks| => Passes(a, checks[i].id))
  }

  function Suite(a: Answers): SuiteResult {
    FullRun(CATALOG, Outcomes(CATALOG, a))
  }

  method RunSuite(a: Answers) returns (sr: SuiteResult)
    ensures sr == Suite(a)
  {
    sr := Run(CATALOG, Outcomes(CATALOG, a));
  }

  predicate EndpointId(id: CheckId) {
    id in {E001, E002, E003, E004, E005, H001, H002}
  }

  /** Severities and categories go by the ID, S-001 comes first, and every blocking check is there. */
  ghost predicate GoesById(checks: seq<Check>) {
    && (forall i | 0 <= i < |checks| ::
          && (checks[i].severity == Blocking <==> BlockingId(checks[i].id))
          && (checks[i].category == Endpoint <==> EndpointId(checks[i].id))
          && (checks[i].id == S001 <==> i == 0))
    && (forall id | BlockingId(id) :: exists i | 0 <= i < |checks| :: checks[i].id == id)
  }

  lemma CatalogGoesById()
    ensures GoesById(CATALOG)
  {
    hide BlockingId, EndpointId, CATALOG;
    forall i: nat | i < |CATALOG|
      ensures CATALOG[i].severity == Blocking <==> BlockingId(CATALOG[i].id)
      ensures CATALOG[i].category == Endpoint <==> EndpointId(CATALOG[i].id)
      ensures CATALOG[i].id == S001 <==> i == 0
    {
      CatalogBlocks(i);
      CatalogEndpoints(i);
    }
    forall id | BlockingId(id) ensures exists i | 0 <= i < |CATALOG| :: CATALOG[i].id == id {
      assert CATALOG[CatalogIndex(id)].id == id;
    }
  }

  lemma CatalogEndpoints(i: nat)
    requires i < |CATALOG|
    ensures CATALOG[i].category == Endpoint <==> EndpointId(CATALOG[i].id)
    ensures CATALOG[i].id == S001 <==> i == 0
  {
  }

  /**
   * What the full suite reports: one result for each check of the catalog, and as failing exactly the
   * blocking checks that do not pass, but no endpoint check when S-001 does not.
   */
  lemma SuiteReports(a: Answers, id: CheckId)
    ensures Suite(a).total == |CATALOG| == |Suite(a).results|
    ensures forall i | 0 <= i < |CATALOG| ::
              Suite(a).results[i].check == CATALOG[i] && Suite(a).results[i].passed == Passes(a, CATALOG[i].id)
    ensures id in Suite(a).failingBlocking <==>
            BlockingId(id) && !Passes(a, id) && (EndpointId(id) ==> Passes(a, S001))
  {
    CatalogGoesById();
    RunReports(CATALOG, a, id);
  }

  lemma RunReports(checks: seq<Check>, a: Answers, id: CheckId)
    requires GoesById(checks)
    ensures id in FullRun(checks, Outcomes(checks, a)).failingBlocking <==>
            BlockingId(id) && !Passes(a, id) && (EndpointId(id) ==> Passes(a, S001))
  {
    hide BlockingId, EndpointId, Passes, FailingIds, PassedCount, CountsAs;
    var outcomes := Outcomes(checks, a);
    var results := RunResults(checks, outcomes);
    forall i: nat | i < |checks|
      ensures CountsAs(results[i], Blocking) <==>
              && BlockingId(checks[i].id) && !Passes(a, checks[i].id)
              && (EndpointId(checks[i].id) ==> Passes(a, S001))
    {
      ReportedAt(checks, a, i);
    }
    FailingIdsMeaning(results, Blocking, id);
    if BlockingId(id) {
      var i :| 0 <= i < |checks| && checks[i].id == id;
      assert results[i] in results;
    }
    if r :| r in results && r.check.id == id {
      var i :| 0 <= i < |results| && results[i] == r;
      assert checks[i].id == id;
    }
  }

  lemma ReportedAt(checks: seq<Check>, a: Answers, i: nat)
    requires GoesById(checks) && i < |checks|
    ensures CountsAs(RunResults(checks, Outcomes(checks, a))[i], Blocking) <==>
            && BlockingId(checks[i].id) && !Passes(a, checks[i].id)
            && (EndpointId(checks[i].id) ==> Passes(a, S001))
  {
    hide BlockingId, Passes;
    var outcomes := Outcomes(checks, a);
    assert checks[0].id == S001 && outcomes[0] == Passes(a, S001);
    assert S001FailedBefore(checks, outcomes, i) <==> i > 0 && !outcomes[0];
  }

  const LIGHTWEIGHT: seq<CheckId> := [P001, P002, S003, E001]

  /** The results RunIDs keeps: the wanted checks, in catalog order, none marked dependent. */
  function IdResults(checks: seq<Check>, ids: seq<CheckId>, a: Answers): seq<CheckResult> {
    if checks == [] then []
    else
      var last := checks[|checks| - 1];
      IdResults(checks[..|checks| - 1], ids, a) +
      if last.id in ids then [CheckResult(last, Passes(a, last.id), false)] else []
  }

  method RunIds(checks: seq<Check>, ids: seq<CheckId>, a: Answers) returns (results: seq<CheckResult>)
    ensures results == IdResults(checks, ids, a)
  {
    results := [];
    for i := 0 to |checks|
      invariant results == IdResults(checks[..i], ids, a)
    {
      assert checks[..i + 1][..i] == checks[..i];
      if checks[i].id !in ids {
        continue;
      }
      var res := RunOne(checks[i], Passes(a, checks[i].id), true);
      results := results + [res];
    }
    assert checks[..|checks|] == checks;
  }

  /** The selected checks come in the order of the list they are selected from, each exactly once. */
  lemma {:induction false} IdResultsInOrder(checks: seq<Check>, ids: seq<CheckId>, a: Answers) returns (at: seq<nat>)
    ensures |at| == |IdResults(checks, ids, a)|
    ensures forall k | 0 <= k < |at| ::
              at[k] < |checks| && checks[at[k]].id in ids && IdResults(checks, ids, a)[k].check == checks[at[k]]
    ensures forall j, k | 0 <= j < k < |at| :: at[j] < at[k]
    ensures forall i | 0 <= i < |checks| && checks[i].id in ids :: i in at
  {
    if checks == [] {
      at := [];
    } else {
      var n := |checks| - 1;
      at := IdResultsInOrder(checks[..n], ids, a);
      if checks[n].id in ids {
        at := at + [n];
      }
    }
  }

  lemma {:induction false} IdResultsMeaning(checks: seq<Check>, ids: seq<CheckId>, a: Answers)
    ensures forall r | r in IdResults(checks, ids, a) ::
              r.check in checks && r.check.id in ids && r.passed == Passes(a, r.check.id) && !r.dependent
    ensures forall c | c in checks && c.id in ids ::
              CheckResult(c, Passes(a, c.id), false) in IdResults(checks, ids, a)
  {
    if checks != [] {
      IdResultsMeaning(checks[..|checks| - 1], ids, a);
    }
  }

  function SyntheticE002(a: Answers): seq<CheckResult> {
    if a.root.Some? && a.root.value != 200 then [CheckResult(Check(E002, Endpoint, Blocking), false, false)]
    else []
  }

  /** What lab status detects from: the lightweight run, plus a failed E-002 when GET / is not 200. */
  function StatusEvidence(a: Answers): SuiteResult {
    var results := IdResults(CATALOG, LIGHTWEIGHT, a);
    Classified(results + SyntheticE002(a), |results|)
  }

  method ObserveStatus(a: Answers) returns (sr: SuiteResult)
    ensures sr == StatusEvidence(a)
  {
    var results := RunIds(CATALOG, LIGHTWEIGHT, a);
    var lightweight := Classify(results, |results|);
    if a.root.Some? && a.root.value != 200 {
      sr := Classify(lightweight.results + [CheckResult(Check(E002, Endpoint, Blocking), false, false)],
                     lightweight.total);
    } else {
      assert results + [] == results;
      sr := lightweight;
    }
  }

  /** The full suite of the catalog is conformant exactly when every blocking check passes. */
  lemma SuiteConformantMeaning(a: Answers)
    ensures Suite(a).classification.IsConformant() <==> forall id | BlockingId(id) :: Passes(a, id)
  {
    var outcomes := Outcomes(CATALOG, a);
    CatalogCannotHide();
    MarkingKeepsVerdict(CATALOG, outcomes);
    if Suite(a).classification.IsConformant() {
      forall id | BlockingId(id) ensures Passes(a, id) {
        assert outcomes[CatalogIndex(id)];
      }
    } else {
      var i: nat :| i < |CATALOG| && CATALOG[i].severity == Blocking && !outcomes[i];
      CatalogBlocks(i);
      assert !Passes(a, CATALOG[i].id);
    }
  }

  /** Every result behind the status evidence is blocking and unmarked, and each of the four is there. */
  lemma LightweightBlocks(a: Answers)
    ensures BlockingResults(IdResults(CATALOG, LIGHTWEIGHT, a), a)
  {
    forall i: nat | i < |CATALOG| && CATALOG[i].id in LIGHTWEIGHT ensures CATALOG[i].severity == Blocking {
      CatalogBlocks(i);
    }
    forall id | id in LIGHTWEIGHT ensures exists i | 0 <= i < |CATALOG| :: CATALOG[i].id == id {
      assert CATALOG[CatalogIndex(id)].id == id;
    }
    SelectedBlock(CATALOG, a);
  }

  predicate BlockingResults(light: seq<CheckResult>, a: Answers) {
    && (forall r | r in light :: r.check.id in LIGHTWEIGHT && r.check.severity == Blocking &&
                                 !r.dependent && r.passed == Passes(a, r.check.id))
    && (forall id | id in LIGHTWEIGHT :: exists r | r in light :: r.check.id == id)
  }

  lemma {:induction false} SelectedBlock(checks: seq<Check>, a: Answers)
    requires forall i | 0 <= i < |checks| && checks[i].id in LIGHTWEIGHT :: checks[i].severity == Blocking
    requires forall id | id in LIGHTWEIGHT :: exists i | 0 <= i < |checks| :: checks[i].id == id
    ensures BlockingResults(IdResults(checks, LIGHTWEIGHT, a), a)
  {
    IdResultsMeaning(checks, LIGHTWEIGHT, a);
    forall id | id in LIGHTWEIGHT ensures exists r | r in IdResults(checks, LIGHTWEIGHT, a) :: r.check.id == id {
      var i :| 0 <= i < |checks| && checks[i].id == id;
      assert checks[i] in checks;
      assert CheckResult(checks[i], Passes(a, id), false) in IdResults(checks, LIGHTWEIGHT, a);
    }
  }

  /** The status evidence is healthy exactly when the four checks pass and GET / is 200 or unasked. */
  lemma StatusHealthyMeaning(a: Answers)
    ensures StatusEvidence(a).classification.IsConformant() <==>
            && Passes(a, P001) && Passes(a, P002) && Passes(a, S003) && Passes(a, E001)
            && (a.root == None || a.root == Some(200))
  {
    LightweightBlocks(a);
    EvidenceHealthy(IdResults(CATALOG, LIGHTWEIGHT, a), a);
    assert forall id :: id in LIGHTWEIGHT <==> id in {P001, P002, S003, E001};
  }

  lemma EvidenceHealthy(light: seq<CheckResult>, a: Answers)
    requires BlockingResults(light, a)
    ensures Classified(light + SyntheticE002(a), |light|).classification.IsConformant() <==>
            && (forall id | id in LIGHTWEIGHT :: Passes(a, id))
            && (a.root == None || a.root == Some(200))
  {
    var results := light + SyntheticE002(a);
    NonConformantMeaning(results, |light|);
    if a.root.Some? && a.root.value != 200 {
      assert Counts(results[|light|]);
    } else {
      assert results == light;
      forall id | id in LIGHTWEIGHT && !Passes(a, id)
        ensures exists i | 0 <= i < |results| :: Counts(results[i]) && results[i].check.severity == Blocking
      {
        var r :| r in light && r.check.id == id;
        var i :| 0 <= i < |light| && light[i] == r;
        assert Counts(results[i]);
      }
    }
  }

  /** On the same answers, lab status never sees failures where lab validate sees none. */
  lemma ConformantSuiteLooksHealthy(a: Answers)
    requires Suite(a).classification.IsConformant()
    ensures StatusEvidence(a).classification.IsConformant()
  {
    SuiteConformantMeaning(a);
    StatusHealthyMeaning(a);
    assert Passes(a, E002);
  }

  /** The converse fails: when only H-001 fails, status looks healthy and validate does not. */
  lemma HealthyStatusMayHideFailure(a: Answers)
    requires a.root == Some(200)
    requires forall id | BlockingId(id) :: id in a.passing <==> id != H001
    ensures StatusEvidence(a).classification.IsConformant()
    ensures !Suite(a).classification.IsConformant()
  {
    SuiteConformantMeaning(a);
    StatusHealthyMeaning(a);
    assert !Passes(a, H001);
  }
}
