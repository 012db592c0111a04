/**
 * Every command as the store sees it: a read of state.json, a computation on the copy, a write of the
 * whole file. The processes below interleave these without any lock, as validate, the reading part of
 * status and the interrupt handler do.
 */
module Interleaving {
  import opened Common
  import opened Conformance
  import opened Record
  import opened Detection
  import opened Status
  import opened Reset
  import opened Apply
  import opened Provision

  /** What a command makes of the copy it read; suites and answers are whatever they are. */
  datatype Change =
    | ApplyChange(fault: FaultId, force: bool, now: nat)
    | ResetChange(tier: Tier, suite: SuiteResult, now: nat)
    | ProvisionChange(suite: SuiteResult, now: nat)
    | StatusChange(answers: Answers, now: nat)
    | ValidateChange(answers: Answers, now: nat)
    | InvalidateChange

  /** The file a command writes after reading d; None when it writes none. */
  function Changed(change: Change, d: Disk): Option<File> {
    match change
    case ApplyChange(f, force, now) => if d.Readable? then Some(AppliedRecord(d.file, f, force, now)) else None
    case ResetChange(tier, sr, now) => Some(ResetRecordOf(Starting(d, now), tier, sr, now))
    case ProvisionChange(sr, now) => Some(ProvisionedRecord(sr, now))
    case StatusChange(a, now) => if StatusWrites(d, a) then Some(StatusRecord(d, a, now).file) else None
    case ValidateChange(a, now) => if d.Readable? then Some(ValidateRecordOf(d, a, now).file) else None
    case InvalidateChange => if d.Readable? then Some(d.file.(classificationValid := false)) else None
  }

  // ---- one after the other ----

  /** A command run alone; its write may fail. */
  function Alone(d: Disk, change: Change, written: bool): Disk {
    var g := Changed(change, d);
    if g.Some? && written then Readable(g.value) else d
  }

  function OneByOne(d: Disk, changes: seq<(Change, bool)>): Disk {
    if changes == [] then d
    else
      var last := changes[|changes| - 1];
      Alone(OneByOne(d, changes[..|changes| - 1]), last.0, last.1)
  }

  /** Status moves the recorded state without a history entry when it reconciles. */
  predicate Reconciles(d: Disk, change: Change) {
    change.StatusChange? && d.Readable? && DetectForStatus(Some(d.file), change.answers).reconciled
  }

  lemma AloneKeepsAccount(d: Disk, change: Change, written: bool)
    requires d.Readable? ==> Accounted(d.file)
    requires !Reconciles(d, change)
    ensures var d' := Alone(d, change, written); d'.Readable? ==> Accounted(d'.file)
  {
    hide Suite, StatusEvidence, Verdict;
    match change
    case ApplyChange(f, force, now) =>
      if d.Readable? {
        AppliedRecordMeaning(d.file, f, force, now);
      }
    case ResetChange(tier, sr, now) => ResetKeepsAccount(d, tier, sr, now);
    case _ =>
  }

  /** The entry a change adds to the history of a record in state `from`, if it adds one. */
  function EntryOf(change: Change, from: State, fault: Option<FaultName>): Option<HistoryEntry> {
    match change
    case ApplyChange(f, force, now) => Some(HistoryEntry(now, from, Degraded, ByApply, Some(Known(f)), force))
    case ResetChange(tier, sr, now) =>
      Some(HistoryEntry(now, from, if sr.classification.IsConformant() then Conformant else Broken,
                        ByReset(tier), fault, false))
    case ProvisionChange(sr, now) =>
      Some(HistoryEntry(now, Unprovisioned, if sr.classification.IsConformant() then Conformant else Broken,
                        ByProvision, None, false))
    case _ => None
  }

  /** The change starts the history over: a provision, or a reset or status that found no record. */
  predicate StartsOver(d: Disk, change: Change) {
    change.ProvisionChange? || !d.Readable?
  }

  /**
   * The whole story of a run from d, entry by entry and without a bound, since the record was last
   * started over.
   */
  function Story(d: Disk, before: seq<HistoryEntry>, changes: seq<(Change, bool)>): seq<HistoryEntry> {
    if changes == [] then before
    else
      var (change, written) := changes[|changes| - 1];
      var found := OneByOne(d, changes[..|changes| - 1]);
      var told := Story(d, before, changes[..|changes| - 1]);
      if !written || Changed(change, found).None? then told
      else
        var entry := EntryOf(change, if found.Readable? then found.file.state else Broken,
                             if found.Readable? then FaultOf(found.file) else None);
        (if StartsOver(found, change) then [] else told) + (if entry.Some? then [entry.value] else [])
  }

  /**
   * After any sequential run, with any writes failing, the history is the last fifty entries of the
   * story: every apply, reset and provision whose write went through is told, in order, with the state it
   * started from, and no status, validate or invalidation adds or loses anything.
   */
  lemma {:induction false} HistoryTellsStory(d: Disk, before: seq<HistoryEntry>, changes: seq<(Change, bool)>)
    requires d.Readable? ==> d.file.history == LastN(before, HISTORY_MAX_ENTRIES)
    ensures var d' := OneByOne(d, changes);
            d'.Readable? ==> d'.file.history == LastN(Story(d, before, changes), HISTORY_MAX_ENTRIES)
  {
    if changes != [] {
      var front := changes[..|changes| - 1];
      var (change, written) := changes[|changes| - 1];
      HistoryTellsStory(d, before, front);
      if written && Changed(change, OneByOne(d, front)).Some? {
        ChangeTellsEntry(OneByOne(d, front), Story(d, before, front), change);
      }
    }
  }

  lemma ChangeTellsEntry(d: Disk, told: seq<HistoryEntry>, change: Change)
    requires d.Readable? ==> d.file.history == LastN(told, HISTORY_MAX_ENTRIES)
    requires Changed(change, d).Some?
    ensures var entry := EntryOf(change, if d.Readable? then d.file.state else Broken,
                                 if d.Readable? then FaultOf(d.file) else None);
            Changed(change, d).value.history ==
            LastN((if StartsOver(d, change) then [] else told) + (if entry.Some? then [entry.value] else []),
                  HISTORY_MAX_ENTRIES)
  {
    hide Suite, StatusEvidence;
    var entry := EntryOf(change, if d.Readable? then d.file.state else Broken,
                         if d.Readable? then FaultOf(d.file) else None);
    if entry.Some? {
      RememberTells(told, entry.value);
      assert [] + [entry.value] == [entry.value];
    } else {
      assert told + [] == told;
    }
  }

  lemma RememberTells(told: seq<HistoryEntry>, entry: HistoryEntry)
    ensures Remember(LastN(told, HISTORY_MAX_ENTRIES), entry) == LastN(told + [entry], HISTORY_MAX_ENTRIES)
  {
    if |told| > HISTORY_MAX_ENTRIES {
      var kept := LastN(told, HISTORY_MAX_ENTRIES);
      assert (kept + [entry])[1..] == (told + [entry])[|told| + 1 - HISTORY_MAX_ENTRIES..];
    }
  }

  predicate NoneReconciles(d: Disk, changes: seq<(Change, bool)>) {
    forall i | 0 <= i < |changes| :: !Reconciles(OneByOne(d, changes[..i]), changes[i].0)
  }

  /**
   * In sequential runs from a fresh record, of any length and with any writes failing, the history is
   * chained and ends in the recorded state, as long as no status reconciles.
   */
  lemma {:induction false} HistoryStaysChained(st: State, now: nat, changes: seq<(Change, bool)>)
    requires NoneReconciles(Readable(Fresh(st, now)), changes)
    ensures var d := OneByOne(Readable(Fresh(st, now)), changes); d.Readable? && Accounted(d.file)
  {
    if changes != [] {
      var front := changes[..|changes| - 1];
      forall i | 0 <= i < |front| ensures !Reconciles(OneByOne(Readable(Fresh(st, now)), front[..i]), front[i].0) {
        assert front[..i] == changes[..i];
      }
      HistoryStaysChained(st, now, front);
      assert changes[..|changes| - 1] == front;
      AloneKeepsAccount(OneByOne(Readable(Fresh(st, now)), front), changes[|changes| - 1].0, changes[|changes| - 1].1);
    }
  }

  /** A reconciliation under a history that is not empty breaks the account: no entry tells of the new state. */
  lemma ReconciliationBreaksAccount(f: File, a: Answers, now: nat)
    requires Accounted(f) && f.history != [] && Reconciles(Readable(f), StatusChange(a, now))
    ensures !Accounted(Alone(Readable(f), StatusChange(a, now), true).file)
  {
    StatusKeepsAccount(f, a, now);
  }

  // ---- all at once ----

  type Pid = nat

  /**
   * A process between its file operations: it holds what it read, or what it is about to write. How
   * many writes it has seen, and which change it makes, is kept for the statements below.
   */
  datatype Local = HasRead(copy: Disk, seen: nat) | HasReady(file: File, change: Change, seen: nat)

  /** The file, the processes, and the changes in the order their writes succeeded. */
  datatype System = System(disk: Disk, locals: map<Pid, Local>, writes: seq<(Change, bool)>)

  datatype Step =
    | Read(p: Pid)
    | Compute(p: Pid, change: Change)
    | Write(p: Pid)
    | WriteFails(p: Pid)
    | Crash(p: Pid)

  function Next(s: System, step: Step): Option<System> {
    match step
    case Read(p) => Some(s.(locals := s.locals[p := HasRead(s.disk, |s.writes|)]))
    case Compute(p, change) =>
      if p in s.locals && s.locals[p].HasRead? && Changed(change, s.locals[p].copy).Some?
      then
        var file := Changed(change, s.locals[p].copy).value;
        Some(s.(locals := s.locals[p := HasReady(file, change, s.locals[p].seen)]))
      else None
    case Write(p) =>
      if p in s.locals && s.locals[p].HasReady?
      then
        Some(System(Readable(s.locals[p].file), s.locals - {p}, s.writes + [(s.locals[p].change, true)]))
      else None
    case WriteFails(p) =>
      if p in s.locals && s.locals[p].HasReady? then Some(s.(locals := s.locals - {p})) else None
    case Crash(p) => Some(s.(locals := s.locals - {p}))
  }

  function After(s: System, steps: seq<Step>): Option<System> {
    if steps == [] then Some(s)
    else
      var before :- After(s, steps[..|steps| - 1]);
      Next(before, steps[|steps| - 1])
  }

  predicate LocalMatches(l: Local) {
    match l
    case HasRead(copy, _) => DiskFaultMatchesState(copy)
    case HasReady(file, _, _) => FaultMatchesState(file)
  }

  /** I-2 on the disk and in every copy in flight. */
  predicate MatchesEverywhere(s: System) {
    DiskFaultMatchesState(s.disk) && forall p | p in s.locals :: LocalMatches(s.locals[p])
  }

  /** No command breaks I-2 in the copy it works on. */
  lemma ChangeKeepsMatch(change: Change, d: Disk)
    requires DiskFaultMatchesState(d) && Changed(change, d).Some?
    ensures FaultMatchesState(Changed(change, d).value)
  {
  }

  /**
   * However any number of processes interleave their reads, computations and writes, locked or not,
   * with failing writes and crashes: a fault stays recorded exactly in state DEGRADED, on the disk and
   * in every copy in flight.
   */
  lemma {:induction false} FaultMatchesStateAlways(s: System, steps: seq<Step>, s': System)
    requires MatchesEverywhere(s) && After(s, steps) == Some(s')
    ensures MatchesEverywhere(s')
  {
    if steps != [] {
      var before := After(s, steps[..|steps| - 1]).value;
      FaultMatchesStateAlways(s, steps[..|steps| - 1], before);
      var step := steps[|steps| - 1];
      if step.Compute? {
        ChangeKeepsMatch(step.change, before.locals[step.p].copy);
      }
    }
  }

  // ---- lost updates ----

  /** No write fell between the read of the process that now writes and its own write. */
  predicate Undisturbed(s: System, step: Step) {
    step.Write? && step.p in s.locals && s.locals[step.p].HasReady? ==> s.locals[step.p].seen == |s.writes|
  }

  predicate NoneDisturbed(s: System, steps: seq<Step>) {
    steps == [] || (
      var front := steps[..|steps| - 1];
      && NoneDisturbed(s, front)
      && (After(s, front).Some? ==> Undisturbed(After(s, front).value, steps[|steps| - 1])))
  }

  /** A process that has seen every write holds the file as it is, or its own change of it. */
  predicate UpToDate(l: Local, s: System) {
    && l.seen <= |s.writes|
    && (l.seen == |s.writes| ==>
          match l
          case HasRead(copy, _) => copy == s.disk
          case HasReady(file, change, _) => Changed(change, s.disk) == Some(file))
  }

  predicate Serialised(d: Disk, s: System) {
    s.disk == OneByOne(d, s.writes) && forall p | p in s.locals :: UpToDate(s.locals[p], s)
  }

  lemma StepKeepsSerialised(d: Disk, s: System, step: Step, s': System)
    requires Serialised(d, s) && Next(s, step) == Some(s') && Undisturbed(s, step)
    ensures Serialised(d, s')
  {
    hide Changed, OneByOne;
    if step.Write? {
      OneMoreWrite(d, s.writes, s.locals[step.p].change);
    }
    forall p | p in s'.locals ensures UpToDate(s'.locals[p], s') {
      assert p != step.p ==> UpToDate(s.locals[p], s);
    }
  }

  lemma OneMoreWrite(d: Disk, writes: seq<(Change, bool)>, change: Change)
    ensures OneByOne(d, writes + [(change, true)]) == Alone(OneByOne(d, writes), change, true)
  {
    assert (writes + [(change, true)])[..|writes|] == writes;
  }

  /**
   * With processes, crashes and failing writes interleaved in any way: as long as no write falls between
   * a command's read and its own write, the file is that of running the writers one after the other, in
   * the order of their writes.
   */
  lemma {:induction false} UndisturbedWritesSerialise(d: Disk, steps: seq<Step>, s': System)
    requires After(System(d, map[], []), steps) == Some(s')
    requires NoneDisturbed(System(d, map[], []), steps)
    ensures Serialised(d, s') && s'.disk == OneByOne(d, s'.writes)
  {
    hide Next;
    var s := System(d, map[], []);
    if steps != [] {
      var before := After(s, steps[..|steps| - 1]).value;
      UndisturbedWritesSerialise(d, steps[..|steps| - 1], before);
      StepKeepsSerialised(d, before, steps[|steps| - 1], s');
    }
  }

  lemma AfterOneMore(s: System, steps: seq<Step>, step: Step)
    requires After(s, steps).Some?
    ensures After(s, steps + [step]) == Next(After(s, steps).value, step)
  {
    assert (steps + [step])[..|steps|] == steps;
  }

  function Overlapped(p: Pid, q: Pid, slow: Change, fast: Change): seq<Step> {
    [Read(p), Read(q), Compute(q, fast), Write(q), Compute(p, slow), Write(p)]
  }

  /** Two processes read the same record, and the fast one has computed and written. */
  lemma FastFirst(d: Disk, p: Pid, q: Pid, fast: Change, fastFile: File)
    requires p != q && Changed(fast, d) == Some(fastFile)
    ensures After(System(d, map[], []), [Read(p), Read(q), Compute(q, fast), Write(q)]) ==
            Some(System(Readable(fastFile), map[p := HasRead(d, 0)], [(fast, true)]))
  {
    hide Changed;
    var s := System(d, map[], []);
    assert After(s, []) == Some(s);
    AfterOneMore(s, [], Read(p));
    assert [] + [Read(p)] == [Read(p)];
    AfterOneMore(s, [Read(p)], Read(q));
    assert [Read(p)] + [Read(q)] == [Read(p), Read(q)];
    AfterOneMore(s, [Read(p), Read(q)], Compute(q, fast));
    assert [Read(p), Read(q)] + [Compute(q, fast)] == [Read(p), Read(q), Compute(q, fast)];
    AfterOneMore(s, [Read(p), Read(q), Compute(q, fast)], Write(q));
    assert [Read(p), Read(q), Compute(q, fast)] + [Write(q)] == [Read(p), Read(q), Compute(q, fast), Write(q)];
    assert s.writes + [(fast, true)] == [(fast, true)];
    var none: map<Pid, Local> := map[];
    var both := none[p := HasRead(d, 0)][q := HasRead(d, 0)];
    assert both[q := HasReady(fastFile, fast, 0)] - {q} == map[p := HasRead(d, 0)];
  }

  /** A write that falls in between is lost: of two commands that read the same record, only the later write remains. */
  lemma LaterWriteWins(d: Disk, p: Pid, q: Pid, slow: Change, fast: Change, slowFile: File, fastFile: File)
    requires p != q && Changed(slow, d) == Some(slowFile) && Changed(fast, d) == Some(fastFile)
    ensures After(System(d, map[], []), Overlapped(p, q, slow, fast)) ==
            Some(System(Readable(slowFile), map[], [(fast, true), (slow, true)]))
  {
    hide Changed, After;
    var s := System(d, map[], []);
    FastFirst(d, p, q, fast, fastFile);
    var first := [Read(p), Read(q), Compute(q, fast), Write(q)];
    AfterOneMore(s, first, Compute(p, slow));
    AfterOneMore(s, first + [Compute(p, slow)], Write(p));
    assert first + [Compute(p, slow)] + [Write(p)] == Overlapped(p, q, slow, fast);
    assert [(fast, true)] + [(slow, true)] == [(fast, true), (slow, true)];
    var one: map<Pid, Local> := map[p := HasRead(d, 0)];
    assert one[p := HasReady(slowFile, slow, 0)] - {p} == map[];
  }

  /** So a validate that read before an apply takes the applied fault off the record again. */
  lemma ValidateCanLoseApply(f: File, p: Pid, q: Pid, fault: FaultId, a: Answers, now: nat)
    requires p != q && f.activeFault.None?
    ensures var end := After(System(Readable(f), map[], []),
                             Overlapped(p, q, ValidateChange(a, now), ApplyChange(fault, false, now)));
            end.Some? && end.value.disk.Readable? && end.value.disk.file.activeFault.None?
  {
    hide After, Suite;
    LaterWriteWins(Readable(f), p, q, ValidateChange(a, now), ApplyChange(fault, false, now),
                   ValidateRecordOf(Readable(f), a, now).file, AppliedRecord(f, fault, false, now));
  }

  /** PROVISIONED and RECOVERING, defined as states, are written by no command. */
  lemma TransitionalStatesNotWritten(change: Change, d: Disk)
    requires Changed(change, d).Some?
    ensures var g := Changed(change, d).value;
            g.state in {Conformant, Degraded, Broken} || (d.Readable? && g.state == d.file.state)
  {
  }
}
