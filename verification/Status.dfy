/** lab status and lab validate: cmd/status.go and cmd/validate.go. */
module Status {
  import opened Common
  import opened Conformance
  import opened Record
  import opened Detection
  import opened Executor

  /** Whether a status run on this record and these answers has something to write. */
  predicate StatusWrites(d: Disk, a: Answers) {
    match d
    case Readable(f) =>
      DetectForStatus(Some(f), a).reconciled || !f.classificationValid
    case _ => true
  }

  /** The record after a status run whose lock and write succeed. */
  function StatusRecord(d: Disk, a: Answers, now: nat): Disk {
    match d
    case Readable(f) =>
      var detection := DetectForStatus(Some(f), a);
      if detection.reconciled then
        Readable(f.(state := detection.state.value, classificationValid := true, lastStatusAt := Some(now)))
      else if !f.classificationValid then
        Readable(f.(classificationValid := true, lastStatusAt := Some(now)))
      else d
    case _ => Readable(Fresh(DetectForStatus(None, a).state.value, now))
  }

  /** Everything a status leaves alone in a record it could read. */
  predicate KeepsRest(f: File, g: File) {
    && g.history == f.history && g.activeFault == f.activeFault
    && g.lastValidate == f.lastValidate && g.lastReset == f.lastReset && g.lastProvision == f.lastProvision
  }

  /** A record that tells of nothing but its state. */
  predicate TellsNothing(g: File) {
    && g.history == [] && g.activeFault.None?
    && g.lastValidate.None? && g.lastReset.None? && g.lastProvision.None?
  }

  /** lab status. `acquired` is the answer of the lock, asked only when there is something to reconcile. */
  method RunStatus(store: Store, a: Answers, acquired: bool, now: nat) returns (exit: int)
    modifies store`disk, store`writes
    ensures exit == 0
    ensures store.disk == old(store.disk) || store.disk == StatusRecord(old(store.disk), a, now)
    ensures (acquired || !old(store.disk).Readable?) && store.succeeds(old(store.writes)) ==>
              store.disk == StatusRecord(old(store.disk), a, now)
    ensures !acquired && old(store.disk).Readable? ==>
              store.disk == old(store.disk) && store.writes == old(store.writes)
    ensures !StatusWrites(old(store.disk), a) ==> store.writes == old(store.writes)
    ensures old(store.disk).Readable? ==> store.disk.Readable? && KeepsRest(old(store.disk).file, store.disk.file)
    ensures !old(store.disk).Readable? && store.disk.Readable? ==>
              && TellsNothing(store.disk.file)
              && store.disk.file.state == RuntimeState(None, a)
  {
    var sf := store.Read();
    var evidence := ObserveStatus(a);
    var detection := Detect(DetectInput(sf, None, Some(evidence)));

    if sf.None? && !IsUnknown(detection) {
      var newFile := Fresh(detection.state.value, now);
      sf := Some(newFile);
      var _ := store.Write(newFile);
    }

    var needsWrite := (detection.reconciled && sf.Some?) ||
                      (sf.Some? && !sf.value.classificationValid && !IsUnknown(detection));
    if needsWrite && sf.Some? && acquired {
      if detection.reconciled {
        var f := sf.value.(state := detection.state.value, classificationValid := true, lastStatusAt := Some(now));
        var _ := store.Write(f);
      } else if !sf.value.classificationValid && !IsUnknown(detection) {
        var f := sf.value.(classificationValid := true, lastStatusAt := Some(now));
        var _ := store.Write(f);
      }
    }
    exit := if IsUnknown(detection) then 5 else 0;
  }

  // ---- self-stabilisation ----

  /** Valid, equal to what runtime evidence says, and I-2 correct. */
  predicate Settled(d: Disk, a: Answers) {
    && d.Readable?
    && d.file.classificationValid
    && d.file.state == RuntimeState(d.file.activeFault, a)
    && FaultMatchesState(d.file)
  }

  /** A run has nothing to write exactly on a settled record. */
  lemma SettledMeansQuiet(d: Disk, a: Answers)
    ensures Settled(d, a) <==> !StatusWrites(d, a)
  {
  }

  /** The record after a series of status runs under the same answers. */
  function StatusRuns(d: Disk, a: Answers, times: seq<nat>): Disk {
    if times == [] then d
    else StatusRecord(StatusRuns(d, a, times[..|times| - 1]), a, times[|times| - 1])
  }

  /** One run settles every record but a distrusted one that is also wrong: it only gets its flag back. */
  lemma OneRunSettles(d: Disk, a: Answers, now: nat)
    ensures Settled(StatusRecord(d, a, now), a) <==>
            !(d.Readable? && !d.file.classificationValid && d.file.state != RuntimeState(d.file.activeFault, a))
  {
  }

  /** From any record, corrupt and missing ones included, two runs settle it and no later run changes it. */
  lemma {:induction false} StatusStabilises(d: Disk, a: Answers, times: seq<nat>)
    requires |times| >= 2
    ensures Settled(StatusRuns(d, a, times), a)
    ensures StatusRuns(d, a, times) == StatusRuns(d, a, times[..2])
  {
    var front := times[..|times| - 1];
    if |times| == 2 {
      assert times[..2] == times;
      OneRunSettles(StatusRuns(d, a, front), a, times[1]);
      assert StatusRuns(d, a, front[..0]) == d;
    } else {
      assert front[..2] == times[..2];
      StatusStabilises(d, a, front);
      SettledMeansQuiet(StatusRuns(d, a, front), a);
    }
  }

  /** Through any number of status runs, a record that could be read keeps its history and all it observed. */
  lemma {:induction false} StatusRunsKeepRest(f: File, a: Answers, times: seq<nat>)
    ensures var d := StatusRuns(Readable(f), a, times);
            && d.Readable? && KeepsRest(f, d.file)
            && (d.file.lastStatusAt == f.lastStatusAt ||
                exists i | 0 <= i < |times| :: d.file.lastStatusAt == Some(times[i]))
  {
    if times != [] {
      var front := times[..|times| - 1];
      StatusRunsKeepRest(f, a, front);
      var d := StatusRuns(Readable(f), a, front);
      StatusMoment(d, a, times[|times| - 1]);
      if i :| 0 <= i < |front| && d.file.lastStatusAt == Some(front[i]) {
        assert times[i] == front[i];
      }
    }
  }

  /** A status that writes leaves its own time, whatever it found; one that does not leaves the record. */
  lemma StatusMoment(d: Disk, a: Answers, now: nat)
    ensures if StatusWrites(d, a) then
              StatusRecord(d, a, now).Readable? && StatusRecord(d, a, now).file.lastStatusAt == Some(now)
            else StatusRecord(d, a, now) == d
  {
  }

  /** From a record that could not be read, all runs of status know only the state they detect. */
  lemma {:induction false} StatusRunsFromNothing(d: Disk, a: Answers, times: seq<nat>)
    requires !d.Readable? && times != []
    ensures var r := StatusRuns(d, a, times);
            && r.Readable? && r.file.classificationValid && TellsNothing(r.file)
            && r.file.state == RuntimeState(None, a)
  {
    hide StatusRecord, StatusWrites;
    var front, now := times[..|times| - 1], times[|times| - 1];
    if front == [] {
      assert StatusRuns(d, a, front) == d;
      StatusFromNothing(d, a, now);
    } else {
      StatusRunsFromNothing(d, a, front);
      SettledMeansQuiet(StatusRuns(d, a, front), a);
      StatusMoment(StatusRuns(d, a, front), a, now);
    }
  }

  lemma StatusFromNothing(d: Disk, a: Answers, now: nat)
    requires !d.Readable?
    ensures var r := StatusRecord(d, a, now);
            && r.Readable? && r.file.classificationValid && TellsNothing(r.file)
            && r.file.state == RuntimeState(None, a)
  {
  }

  // ---- lab validate ----

  function Observation(sr: SuiteResult, now: nat): ValidateRecord {
    ValidateRecord(now, sr.passed, sr.total, sr.failingBlocking)
  }

  /** The record after lab validate: only the last observation is new. */
  function ValidateRecordOf(d: Disk, a: Answers, now: nat): Disk {
    match d
    case Readable(f) => Readable(f.(lastValidate := Some(Observation(Suite(a), now))))
    case _ => d
  }

  /** lab validate. It reads and writes the record without taking the lock. */
  method RunValidate(exec: Executor, store: Store, a: Answers, now: nat) returns (exit: nat)
    requires exec.Valid()
    modifies exec`trace, store`disk, store`writes
    ensures exec.Valid() && exec.trace == old(exec.trace) + [ValidateOp(exit == 0)]
    ensures exit == 0 <==> forall id | BlockingId(id) :: Passes(a, id)
    ensures exit <= 1
    ensures store.disk == if store.succeeds(old(store.writes)) then ValidateRecordOf(old(store.disk), a, now)
                          else old(store.disk)
  {
    var sr := RunSuite(a);
    var sf := store.Read();
    if sf.Some? {
      var _ := store.Write(sf.value.(lastValidate := Some(Observation(sr, now))));
    }
    exit := sr.ExitCode();
    exec.LogValidation(exit == 0);
    SuiteConformantMeaning(a);
    NonConformantMeaning(sr.results, sr.total);
  }

  /** Validate observes: everything but the last observation is as before, so the account of the history is too. */
  lemma ValidateKeepsClassification(d: Disk, a: Answers, now: nat)
    requires d.Readable?
    ensures var f, g := d.file, ValidateRecordOf(d, a, now).file;
            && g.state == f.state && g.classificationValid == f.classificationValid
            && g.activeFault == f.activeFault && g.history == f.history
            && g.lastReset == f.lastReset && g.lastProvision == f.lastProvision && g.lastStatusAt == f.lastStatusAt
            && (Accounted(g) <==> Accounted(f))
  {
  }

  /** What an observation of the full suite says. */
  ghost predicate ObservesSuite(v: ValidateRecord, a: Answers, now: nat) {
    && v.at == now && v.total == |CATALOG|
    && v.passed == PassedCount(Suite(a).results)
    && forall id :: id in v.failing <==>
                      BlockingId(id) && !Passes(a, id) && (EndpointId(id) ==> Passes(a, S001))
  }

  /** The observation names exactly the blocking checks that fail, but no endpoint check when S-001 does. */
  lemma ValidateObserves(d: Disk, a: Answers, now: nat)
    requires d.Readable?
    ensures var v := ValidateRecordOf(d, a, now).file.lastValidate;
            v.Some? && ObservesSuite(v.value, a, now)
  {
    SuiteObserved(a, now);
  }

  lemma SuiteObserved(a: Answers, now: nat)
    ensures ObservesSuite(Observation(Suite(a), now), a, now)
  {
    SuiteReports(a, S001);
    forall id ensures id in Suite(a).failingBlocking <==>
                      BlockingId(id) && !Passes(a, id) && (EndpointId(id) ==> Passes(a, S001)) {
      SuiteReports(a, id);
    }
  }

  /** Status writes no history entry, so it keeps the account exactly when it leaves the recorded state. */
  lemma StatusKeepsAccount(f: File, a: Answers, now: nat)
    requires Accounted(f)
    ensures var g := StatusRecord(Readable(f), a, now).file;
            Accounted(g) <==> f.history == [] || !DetectForStatus(Some(f), a).reconciled
  {
  }
}
