/** The control-plane record: internal/state/state.go and internal/state/store.go. */
module Record {
  import opened Common
  import opened Conformance

  datatype State = Unprovisioned | Provisioned | Conformant | Degraded | Broken | Recovering {

    predicate RequiresActiveFault() {
      this == Degraded
    }

    predicate ForbidsActiveFault() {
      this != Degraded
    }

    predicate CanApplyFault(force: bool) {
      if force then this != Recovering else this == Conformant
    }
  }

  /** The nineteen faults of the catalog, in catalog order. */
  datatype FaultId =
    | F001 | F002 | F003 | F004 | F005 | F006 | F007 | F008 | F009 | F010
    | F013 | F014 | F015 | F016 | F017 | F018 | F020 | F021 | F019

  /** A fault ID as text: the catalog knows it, or it does not. */
  datatype FaultName = Known(fault: FaultId) | Unknown(text: string)

  datatype Tier = R1 | R2 | R3 | OtherTier(text: string)

  datatype ActiveFault = ActiveFault(id: FaultName, appliedAt: nat, forced: bool)

  datatype ValidateRecord = ValidateRecord(at: nat, passed: nat, total: nat, failing: seq<CheckId>)

  datatype ResetRecord = ResetRecord(at: nat, tier: Tier, fromState: State, faultCleared: Option<FaultName>)

  datatype ProvisionRecord = ProvisionRecord(at: nat, result: State)

  datatype Origin = ByApply | ByReset(tier: Tier) | ByProvision

  datatype HistoryEntry = HistoryEntry(
    ts: nat, from: State, to: State, command: Origin, fault: Option<FaultName>, forced: bool)

  datatype File = File(
    state: State,
    classificationValid: bool,
    activeFault: Option<ActiveFault>,
    lastValidate: Option<ValidateRecord>,
    lastReset: Option<ResetRecord>,
    lastProvision: Option<ProvisionRecord>,
    lastStatusAt: Option<nat>,
    history: seq<HistoryEntry>)

  /** What a reader of state.json finds. A file with an unknown state name is Corrupt. */
  datatype Disk = Missing | Corrupt | Readable(file: File)

  const HISTORY_MAX_ENTRIES: nat := 50

  function Fresh(st: State, now: nat): File {
    File(st, true, None, None, None, None, Some(now), [])
  }

  /** Invariant I-2: a fault is recorded exactly in the state that requires one. */
  predicate FaultMatchesState(f: File) {
    && (f.state.RequiresActiveFault() ==> f.activeFault.Some?)
    && (f.state.ForbidsActiveFault() ==> f.activeFault.None?)
  }

  predicate DiskFaultMatchesState(d: Disk) {
    d.Readable? ==> FaultMatchesState(d.file)
  }

  function Remember(history: seq<HistoryEntry>, entry: HistoryEntry): seq<HistoryEntry> {
    LastN(history + [entry], HISTORY_MAX_ENTRIES)
  }

  /** The history after appending every entry of an unbounded log, one at a time. */
  function Ring(log: seq<HistoryEntry>): seq<HistoryEntry> {
    if log == [] then [] else Remember(Ring(log[..|log| - 1]), log[|log| - 1])
  }

  /** However long the log, the ring holds exactly its last fifty entries, in order. */
  lemma {:induction false} RingIsLogSuffix(log: seq<HistoryEntry>)
    ensures Ring(log) == LastN(log, HISTORY_MAX_ENTRIES)
  {
    if log != [] {
      var front := log[..|log| - 1];
      RingIsLogSuffix(front);
      assert front + [log[|log| - 1]] == log;
      if |front| > HISTORY_MAX_ENTRIES {
        assert Ring(front) + [log[|log| - 1]] == log[|front| - HISTORY_MAX_ENTRIES..];
      }
    }
  }

  /** Every entry starts in the state the previous one ended in. */
  predicate Chained(history: seq<HistoryEntry>) {
    forall i | 0 < i < |history| :: history[i].from == history[i - 1].to
  }

  /** The history is chained and ends in the recorded state. */
  predicate Accounted(f: File) {
    && Chained(f.history)
    && (f.history != [] ==> f.history[|f.history| - 1].to == f.state)
  }

  /** Appending an entry that leaves the recorded state keeps the account, across the ring bound. */
  lemma RememberKeepsAccount(f: File, entry: HistoryEntry, g: File)
    requires Accounted(f)
    requires entry.from == f.state && entry.to == g.state
    requires g.history == Remember(f.history, entry)
    ensures Accounted(g)
  {
    var all := f.history + [entry];
    assert Chained(all);
    var drop := if |all| <= HISTORY_MAX_ENTRIES then 0 else |all| - HISTORY_MAX_ENTRIES;
    assert g.history == all[drop..];
    forall i | 0 < i < |g.history| ensures g.history[i].from == g.history[i - 1].to {
      assert all[drop + i].from == all[drop + i - 1].to;
    }
  }

  method AppendHistory(entry: HistoryEntry, f: File) returns (g: File)
    ensures g == f.(history := Remember(f.history, entry))
  {
    var history := f.history + [entry];
    if |history| > HISTORY_MAX_ENTRIES {
      history := history[|history| - HISTORY_MAX_ENTRIES..];
    }
    g := f.(history := history);
  }

  /** lab history: the newest entries first, at most `last` of them when `last` is positive. */
  function ShownHistory(history: seq<HistoryEntry>, last: int): seq<HistoryEntry> {
    Reversed(if last > 0 then LastN(history, last) else history)
  }

  lemma ReversedFrom(s: seq<HistoryEntry>, i: nat)
    requires i < |s|
    ensures Reversed(s[i..]) == Reversed(s[i + 1..]) + [s[i]]
  {
    assert s[i..][1..] == s[i + 1..];
  }

  method ShowHistory(d: Disk, last: int) returns (exit: nat, shown: seq<HistoryEntry>)
    ensures exit == if d.Readable? then 0 else 1
    ensures shown == if d.Readable? then ShownHistory(d.file.history, last) else []
  {
    hide Reversed;
    shown := [];
    if !d.Readable? {
      return 1, shown;
    }
    var entries := d.file.history;
    if last > 0 && last < |entries| {
      entries := entries[|entries| - last..];
    }
    assert Reversed(entries) == ShownHistory(d.file.history, last);
    var i := |entries| - 1;
    while i >= 0
      invariant -1 <= i < |entries|
      invariant shown == Reversed(entries[i + 1..])
    {
      ReversedFrom(entries, i);
      shown := shown + [entries[i]];
      i := i - 1;
    }
    assert entries[0..] == entries;
    exit := 0;
  }

  /** What lab history shows of a log of any length: its last entries, newest first, within the ring. */
  lemma {:induction false} HistoryShowsNewestFirst(log: seq<HistoryEntry>, last: int, shown: seq<HistoryEntry>)
    requires shown == ShownHistory(Ring(log), last)
    ensures var kept := if |log| <= HISTORY_MAX_ENTRIES then |log| else HISTORY_MAX_ENTRIES;
            |shown| == if 0 < last < kept then last else kept
    ensures forall k | 0 <= k < |shown| :: shown[k] == log[|log| - 1 - k]
  {
    RingIsLogSuffix(log);
    ShownIsReversedSuffix(LastN(log, HISTORY_MAX_ENTRIES), last);
  }

  lemma ShownIsReversedSuffix(history: seq<HistoryEntry>, last: int)
    ensures var shown := ShownHistory(history, last);
            && |shown| == (if 0 < last < |history| then last else |history|)
            && forall k | 0 <= k < |shown| :: shown[k] == history[|history| - 1 - k]
  {
  }

  /** The state.json store, with the outcome of each write decided from outside. */
  class Store {
    var disk: Disk
    var writes: nat
    const succeeds: nat -> bool

    constructor (disk: Disk, succeeds: nat -> bool)
      ensures this.disk == disk && this.writes == 0 && this.succeeds == succeeds
    {
      this.disk, this.writes, this.succeeds := disk, 0, succeeds;
    }

    method Read() returns (f: Option<File>)
      ensures f == if disk.Readable? then Some(disk.file) else None
    {
      f := if disk.Readable? then Some(disk.file) else None;
    }

    /** Replaces the record or leaves it as it was; AtomicFile shows the steps inside. */
    method Write(f: File) returns (ok: bool)
      modifies this`disk, this`writes
      ensures ok == succeeds(old(writes)) && writes == old(writes) + 1
      ensures disk == if ok then Readable(f) else old(disk)
    {
      ok := succeeds(writes);
      writes := writes + 1;
      if ok {
        disk := Readable(f);
      }
    }

    method InvalidateClassification() returns (ok: bool)
      modifies this`disk, this`writes
      ensures ok == (old(disk).Readable? && succeeds(old(writes)))
      ensures disk == if ok then Readable(old(disk).file.(classificationValid := false)) else old(disk)
      ensures writes == old(writes) + if old(disk).Readable? then 1 else 0
    {
      var f := Read();
      if f.None? {
        return false;
      }
      ok := Write(f.value.(classificationValid := false));
    }
  }
}
