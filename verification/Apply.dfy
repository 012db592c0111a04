/** lab fault apply: cmd/fault.go. */
module Apply {
  import opened Common
  import opened Conformance
  import opened Record
  import opened Environment
  import opened Executor
  import opened Faults

  datatype ApplyOutcome =
    | UnknownFaultID
    | LockHeld
    | Unreadable
    | PreconditionNotMet
    | FaultAlreadyActive
    | StateNotAllowed
    | CheckNotPassing
    | Aborted
    | ApplyFailed
    | NotRecorded
    | Applied
  {
    function ExitCode(): nat {
      match this
      case UnknownFaultID => 2
      case LockHeld | Unreadable | ApplyFailed => 1
      case PreconditionNotMet | FaultAlreadyActive | StateNotAllowed | CheckNotPassing => 3
      case Aborted | Applied => 0
      case NotRecorded => 4
    }

    /** Apply was run on the environment. */
    predicate Mutated() {
      this == ApplyFailed || this == NotRecorded || this == Applied
    }
  }

  /** What an unforced apply asks of the record and of the observer. */
  predicate Allowed(f: FaultId, sf: File, a: Answers) {
    && sf.state == Conformant
    && sf.activeFault.None?
    && forall id | id in PreconditionChecks(f) :: Passes(a, id)
  }

  /** The whole guard of the mutation. */
  predicate Guard(name: FaultName, d: Disk, a: Answers, force: bool, yes: bool, acquired: bool) {
    && name.Known? && acquired && d.Readable?
    && (force || Allowed(name.fault, d.file, a))
    && (RequiresConfirmation(name.fault) ==> yes)
  }

  /**
   * Apply asks for what CanApplyFault asks for and more, except that a forced apply from RECOVERING,
   * which CanApplyFault forbids, passes the guard like any other forced one.
   */
  lemma GuardAgainstCanApplyFault(name: FaultName, d: Disk, a: Answers, force: bool, yes: bool, acquired: bool)
    ensures Guard(name, d, a, force, yes, acquired) <==>
            && name.Known? && acquired && d.Readable?
            && (RequiresConfirmation(name.fault) ==> yes)
            && (d.file.state.CanApplyFault(force) || (force && d.file.state == Recovering))
            && (force || (&& d.file.activeFault.None?
                          && forall id | id in PreconditionChecks(name.fault) :: Passes(a, id)))
    ensures Guard(name, d, a, force, yes, acquired) ==>
              (d.file.state.CanApplyFault(force) <==> !(force && d.file.state == Recovering))
  {
  }

  /** So a record that says RECOVERING takes a forced apply, for every fault of the catalog. */
  lemma ForcedApplyFromRecovering(f: FaultId, sf: File, a: Answers)
    requires sf.state == Recovering
    ensures Guard(Known(f), Readable(sf), a, true, true, true) && !sf.state.CanApplyFault(true)
  {
    GuardAgainstCanApplyFault(Known(f), Readable(sf), a, true, true, true);
  }

  /**
   * Only F-010 looks at the observer: an unforced apply of it is refused exactly for a P-001 that fails,
   * one of any other fault for nothing but the record. Only the two faults that R3 alone restores ask for
   * confirmation, forced or not.
   */
  lemma GuardByFault(f: FaultId, d: Disk, a: Answers, force: bool, yes: bool)
    ensures Guard(Known(f), d, a, force, yes, true) <==>
            && d.Readable?
            && (force || (d.file.state == Conformant && d.file.activeFault.None? && (f == F010 ==> Passes(a, P001))))
            && (yes || ResetTier(f) != R3)
  {
    FaultsByTier(f);
  }

  function AppliedRecord(sf: File, f: FaultId, force: bool, now: nat): File {
    sf.(state := Degraded,
        classificationValid := true,
        activeFault := Some(ActiveFault(Known(f), now, force)),
        history := Remember(sf.history, HistoryEntry(now, sf.state, Degraded, ByApply, Some(Known(f)), force)))
  }

  /** The state is looked at before the recorded fault, and both before any live check. */
  predicate RightRefusal(outcome: ApplyOutcome, sf: File) {
    match outcome
    case PreconditionNotMet => sf.state != Conformant
    case FaultAlreadyActive => sf.state == Conformant && sf.activeFault.Some?
    case CheckNotPassing => sf.state == Conformant && sf.activeFault.None?
    case _ => false
  }

  method CheckPreconditions(f: FaultId, sf: File, a: Answers) returns (refusal: Option<ApplyOutcome>)
    ensures refusal.None? <==> Allowed(f, sf, a)
    ensures refusal.Some? ==> RightRefusal(refusal.value, sf)
  {
    if sf.state != Conformant {
      return Some(PreconditionNotMet);
    }
    if sf.activeFault.Some? {
      return Some(FaultAlreadyActive);
    }
    var states := Preconditions(f);
    var met := false;
    for i := 0 to |states|
      invariant !met && forall k | 0 <= k < i :: states[k] != sf.state
    {
      if states[i] == sf.state {
        met := true;
        break;
      }
    }
    assert states[0] == Conformant;
    if !met {
      return Some(StateNotAllowed);
    }
    var ids := PreconditionChecks(f);
    for i := 0 to |ids|
      invariant forall k | 0 <= k < i :: Passes(a, ids[k])
    {
      if !Passes(a, ids[i]) {
        return Some(CheckNotPassing);
      }
    }
    refusal := None;
  }

  lemma OtherEntryAttemptsNothing(trace: seq<Event>)
    ensures Attempts(trace + [OtherEntry]) == Attempts(trace)
  {
    assert (trace + [OtherEntry])[..|trace|] == trace;
  }

  /** Logs the refusal; nothing is attempted. */
  method Refuse(exec: Executor)
    requires exec.Valid()
    modifies exec`trace
    ensures exec.Valid() && old(exec.trace) <= exec.trace
    ensures Attempts(exec.trace) == Attempts(old(exec.trace))
  {
    OtherEntryAttemptsNothing(exec.trace);
    exec.LogOther();
  }

  /** Mutate, then record; a failed write of the record invalidates the classification instead. */
  method ApplyAndRecord(exec: Executor, store: Store, f: FaultId, sf: File, force: bool, now: nat)
    returns (outcome: ApplyOutcome)
    requires exec.Valid() && store.disk == Readable(sf)
    modifies exec, store`disk, store`writes
    ensures exec.Valid() && old(exec.trace) <= exec.trace
    ensures outcome.Mutated()
    ensures outcome == ApplyFailed ==>
              store.disk == old(store.disk) && ApplyStopsAt(exec.host, f, old(exec.env), exec.env)
    ensures outcome == NotRecorded ==>
              && !store.succeeds(old(store.writes))
              && store.disk == if store.succeeds(old(store.writes) + 1)
                               then Readable(sf.(classificationValid := false)) else old(store.disk)
    ensures outcome == Applied ==>
              store.succeeds(old(store.writes)) && store.disk == Readable(AppliedRecord(sf, f, force, now))
    ensures outcome != ApplyFailed && f != F015 ==> ApplyEffect(exec.host, f, old(exec.env)) == Some(exec.env)
    ensures Reliable(exec.host) ==>
              && (outcome == ApplyFailed <==> ApplyEffect(exec.host, f, old(exec.env)).None?)
              && exec.env == ApplyLeaves(exec.host, f, old(exec.env))
  {
    hide Audited, ApplyEffect, ApplyLeaves, ApplyStopsAt, FailedFrom;
    var ok := Faults.Apply(exec, f);
    if !ok {
      exec.LogOther();
      return ApplyFailed;
    }
    var g := sf.(state := Degraded, classificationValid := true,
                 activeFault := Some(ActiveFault(Known(f), now, force)));
    g := AppendHistory(HistoryEntry(now, sf.state, Degraded, ByApply, Some(Known(f)), force), g);
    var written := store.Write(g);
    exec.LogOther();
    if !written {
      var _ := store.InvalidateClassification();
      return NotRecorded;
    }
    outcome := Applied;
  }

  /**
   * lab fault apply. The exit code tells which part of the guard failed, the mutation runs exactly
   * when all of it holds, and the record changes only as the outcome says.
   */
  method RunApply(exec: Executor, store: Store, name: FaultName, force: bool, yes: bool, acquired: bool, now: nat)
    returns (outcome: ApplyOutcome)
    requires exec.Valid()
    modifies exec, store`disk, store`writes
    ensures exec.Valid() && old(exec.trace) <= exec.trace
    ensures var a := exec.host.observe(old(exec.env));
            && (outcome.Mutated() <==> Guard(name, old(store.disk), a, force, yes, acquired))
            && (outcome == UnknownFaultID <==> name.Unknown?)
            && (outcome == LockHeld <==> name.Known? && !acquired)
            && (outcome == Unreadable <==> name.Known? && acquired && !old(store.disk).Readable?)
            && (outcome.ExitCode() == 3 <==>
                  && name.Known? && acquired && old(store.disk).Readable?
                  && !force && !Allowed(name.fault, old(store.disk).file, a))
            && (outcome.ExitCode() == 3 ==> RightRefusal(outcome, old(store.disk).file))
    ensures name.Known? && acquired && old(store.disk).Readable? && force && !yes ==>
              (outcome == Aborted <==> !IsReversible(name.fault))
    ensures outcome == Aborted ==> !yes && ResetTier(name.fault) == R3
    ensures outcome.ExitCode() == 2 <==> name.Unknown?
    ensures outcome.ExitCode() == 1 <==>
              name.Known? && (!acquired || !old(store.disk).Readable? || outcome == ApplyFailed)
    ensures outcome.ExitCode() == 4 <==>
              outcome.Mutated() && outcome != ApplyFailed && !store.succeeds(old(store.writes))
    ensures outcome.ExitCode() == 0 <==>
              outcome == Aborted || (outcome.Mutated() && outcome != ApplyFailed && store.succeeds(old(store.writes)))
    ensures !outcome.Mutated() ==>
              && exec.env == old(exec.env) && Attempts(exec.trace) == Attempts(old(exec.trace))
              && store.disk == old(store.disk) && store.writes == old(store.writes)
    ensures outcome == ApplyFailed ==>
              store.disk == old(store.disk) && ApplyStopsAt(exec.host, name.fault, old(exec.env), exec.env)
    ensures outcome == NotRecorded ==>
              store.disk == if store.succeeds(old(store.writes) + 1)
                            then Readable(old(store.disk).file.(classificationValid := false))
                            else old(store.disk)
    ensures outcome == Applied ==>
              store.disk == Readable(AppliedRecord(old(store.disk).file, name.fault, force, now))
    ensures (forall n :: store.succeeds(n)) ==> outcome != NotRecorded
    ensures Reliable(exec.host) && outcome.Mutated() ==>
              && (outcome == ApplyFailed <==> ApplyEffect(exec.host, name.fault, old(exec.env)).None?)
              && exec.env == ApplyLeaves(exec.host, name.fault, old(exec.env))
  {
    hide Audited, ApplyEffect, ApplyLeaves, ApplyStopsAt, AppliedRecord;
    if name.Unknown? {
      Refuse(exec);
      return UnknownFaultID;
    }
    FaultsByTier(name.fault);
    if !acquired {
      Refuse(exec);
      return LockHeld;
    }
    var read := store.Read();
    if read.None? {
      Refuse(exec);
      return Unreadable;
    }
    var sf := read.value;
    if !force {
      var refusal := CheckPreconditions(name.fault, sf, exec.host.observe(exec.env));
      if refusal.Some? {
        Refuse(exec);
        return refusal.value;
      }
    }
    if RequiresConfirmation(name.fault) && !yes {
      return Aborted;
    }
    outcome := ApplyAndRecord(exec, store, name.fault, sf, force, now);
  }

  /** A recorded apply is DEGRADED, valid and I-2 correct with that fault, and adds one entry within the ring. */
  lemma AppliedRecordMeaning(sf: File, f: FaultId, force: bool, now: nat)
    ensures var g := AppliedRecord(sf, f, force, now);
            && g.state == Degraded && g.classificationValid && FaultMatchesState(g)
            && g.activeFault == Some(ActiveFault(Known(f), now, force))
            && g.lastValidate == sf.lastValidate && g.lastReset == sf.lastReset
            && g.lastProvision == sf.lastProvision && g.lastStatusAt == sf.lastStatusAt
            && |g.history| == (if |sf.history| < HISTORY_MAX_ENTRIES then |sf.history| + 1 else HISTORY_MAX_ENTRIES)
            && |g.history| > 0
            && g.history[|g.history| - 1] == HistoryEntry(now, sf.state, Degraded, ByApply, Some(Known(f)), force)
            && (|sf.history| <= HISTORY_MAX_ENTRIES ==>
                  g.history[..|g.history| - 1] == LastN(sf.history, |g.history| - 1))
    ensures Accounted(sf) ==> Accounted(AppliedRecord(sf, f, force, now))
  {
    if Accounted(sf) {
      RememberKeepsAccount(sf, HistoryEntry(now, sf.state, Degraded, ByApply, Some(Known(f)), force),
                           AppliedRecord(sf, f, force, now));
    }
  }
}
