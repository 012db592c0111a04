/** lab provision: cmd/reset_provision_history.go. */
module Provision {
  import opened Common
  import opened Conformance
  import opened Record
  import opened Status
  import opened Environment
  import opened Executor
  import opened Reset

  datatype ProvisionOutcome = Busy | StepFailed | Finished(clean: bool) {
    function ExitCode(): nat {
      if this == Finished(true) then 0 else 1
    }
  }

  /** The record starts over; the failing checks of the run are not kept in it. */
  function ProvisionedRecord(sr: SuiteResult, now: nat): File {
    Fresh(Verdict(sr), now).(
      lastProvision := Some(ProvisionRecord(now, Verdict(sr))),
      lastValidate := Some(ValidateRecord(now, sr.passed, sr.total, [])),
      history := [HistoryEntry(now, Unprovisioned, Verdict(sr), ByProvision, None, false)])
  }

  method RunProvision(exec: Executor, store: Store, acquired: bool, now: nat) returns (outcome: ProvisionOutcome)
    requires exec.Valid()
    modifies exec, store`disk, store`writes
    ensures exec.Valid() && old(exec.trace) <= exec.trace
    ensures acquired <==> outcome != Busy
    ensures outcome == Busy ==> exec.env == old(exec.env) && exec.trace == old(exec.trace)
    ensures !outcome.Finished? ==> store.disk == old(store.disk)
    ensures Reliable(exec.host) ==> outcome != StepFailed
    ensures outcome == StepFailed ==> FailedFrom(exec.host, old(exec.env), exec.env)
    ensures outcome.ExitCode() <= 1
    ensures outcome.ExitCode() == 0 <==>
              && acquired && outcome != StepFailed
              && forall id | BlockingId(id) :: Passes(exec.host.observe(exec.env), id)
    ensures outcome.Finished? ==>
              && exec.env == exec.host.bootstrap(old(exec.env))
              && outcome.clean == Suite(exec.host.observe(exec.env)).classification.IsConformant()
              && store.disk == if store.succeeds(old(store.writes))
                               then Readable(ProvisionedRecord(Suite(exec.host.observe(exec.env)), now))
                               else old(store.disk)
  {
    hide Audited, FailedFrom, Suite, ProvisionedRecord;
    if !acquired {
      return Busy;
    }
    var ok := exec.RunMutation(Bootstrap);
    if !ok {
      return StepFailed;
    }
    var sr := RunSuite(exec.host.observe(exec.env));
    var exit := RecordProvision(store, sr, now);
    outcome := Finished(exit == 0);
    SuiteConformantMeaning(exec.host.observe(exec.env));
  }

  method RecordProvision(store: Store, sr: SuiteResult, now: nat) returns (exit: nat)
    modifies store`disk, store`writes
    ensures exit == if sr.classification.IsConformant() then 0 else 1
    ensures store.disk == if store.succeeds(old(store.writes)) then Readable(ProvisionedRecord(sr, now))
                          else old(store.disk)
  {
    var toState := Conformant;
    exit := 0;
    if !sr.classification.IsConformant() {
      toState, exit := Broken, 1;
    }
    var sf := Fresh(toState, now);
    sf := sf.(lastProvision := Some(ProvisionRecord(now, toState)));
    sf := sf.(lastValidate := Some(ValidateRecord(now, sr.passed, sr.total, [])));
    var entry := HistoryEntry(now, Unprovisioned, toState, ByProvision, None, false);
    sf := AppendHistory(entry, sf);
    assert [] + [entry] == [entry];
    var _ := store.Write(sf);
  }

  /**
   * What provisioning records: CONFORMANT or BROKEN as the blocking checks pass, a history of one entry
   * from UNPROVISIONED, the counts of the suite without its failing checks, and nothing from before.
   */
  lemma ProvisionedRecordMeaning(a: Answers, now: nat)
    ensures var g := ProvisionedRecord(Suite(a), now);
            && g.state == (if forall id | BlockingId(id) :: Passes(a, id) then Conformant else Broken)
            && g.classificationValid && FaultMatchesState(g) && Accounted(g)
            && g.history == [HistoryEntry(now, Unprovisioned, g.state, ByProvision, None, false)]
            && g.lastProvision == Some(ProvisionRecord(now, g.state))
            && g.lastValidate == Some(ValidateRecord(now, PassedCount(Suite(a).results), |CATALOG|, []))
            && g.lastReset.None? && g.lastStatusAt == Some(now)
  {
    SuiteConformantMeaning(a);
    SuiteReports(a, S001);
  }
}
