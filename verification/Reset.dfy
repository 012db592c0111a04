/** lab reset: cmd/reset.go. */
module Reset {
  import opened Common
  import opened Conformance
  import opened Record
  import opened Status
  import opened Environment
  import opened Executor
  import opened Faults
  import opened Canonical

  const R2_RESTORE_FILES: seq<Path> := [ConfigPath, UnitFilePath, NginxConfigPath]

  const R2_RESTORE_MODES: seq<(Path, Mode)> := [
    (BinaryPath, MODE_BINARY),
    (ConfigPath, MODE_CONFIG),
    (StateDir, MODE_STATE_DIR),
    (LogDir, MODE_LOG_DIR)
  ]

  function SelectTier(fault: Option<FaultName>): Tier {
    if fault.Some? && fault.value.Known? then ResetTier(fault.value.fault) else R2
  }

  // ---- what the tiers do when every executor call goes through ----

  function RestoreAll(h: Host, e: Env, ps: seq<Path>): Option<Env> {
    if ps == [] then Some(e)
    else
      var e1 :- RestoreAll(h, e, ps[..|ps| - 1]);
      Environment.RestoreFile(h, e1, ps[|ps| - 1])
  }

  function ChmodAll(e: Env, entries: seq<(Path, Mode)>): Option<Env> {
    if entries == [] then Some(e)
    else
      var e1 :- ChmodAll(e, entries[..|entries| - 1]);
      Environment.Chmod(e1, entries[|entries| - 1].0, entries[|entries| - 1].1)
  }

  /** A tier that is not one of the three is refused. */
  function TierEffect(h: Host, tier: Tier, e: Env): Option<Env> {
    match tier
    case R1 => Environment.NginxReload(h, Restart(h, e))
    case R2 =>
      var e1 :- RestoreAll(h, e, R2_RESTORE_FILES);
      var e2 :- ChmodAll(e1, R2_RESTORE_MODES);
      Environment.NginxReload(h, Restart(h, DaemonReload(e2)))
    case R3 => Some(h.bootstrap(e))
    case OtherTier(_) => None
  }

  predicate RecoversFirst(fault: Option<FaultName>) {
    fault.Some? && fault.value.Known? && IsReversible(fault.value.fault)
  }

  /** Recover first for a known reversible fault, then the tier. */
  function ResetEffect(h: Host, tier: Tier, fault: Option<FaultName>, e: Env): Option<Env> {
    var e0 :- if RecoversFirst(fault) then RecoverEffect(h, fault.value.fault, e) else Some(e);
    TierEffect(h, tier, e0)
  }

  // ---- what they leave on a reliable host, whether they succeed or not ----

  /** The files restored up to the first path that has no canonical content. */
  function RestoreLeaves(h: Host, e: Env, ps: seq<Path>): Env {
    if ps == [] then e
    else
      var left := RestoreLeaves(h, e, ps[..|ps| - 1]);
      if RestoreAll(h, e, ps[..|ps| - 1]).None? then left
      else OrElse(Environment.RestoreFile(h, left, ps[|ps| - 1]), left)
  }

  /** The modes set up to the first path that does not exist. */
  function ChmodLeaves(e: Env, entries: seq<(Path, Mode)>): Env {
    if entries == [] then e
    else
      var left := ChmodLeaves(e, entries[..|entries| - 1]);
      var (p, mode) := entries[|entries| - 1];
      if ChmodAll(e, entries[..|entries| - 1]).None? then left else OrElse(Environment.Chmod(left, p, mode), left)
  }

  /** A tier that fails after its restart leaves the service restarted; an unknown one leaves everything. */
  function TierLeaves(h: Host, tier: Tier, e: Env): Env {
    match tier
    case R1 => OrElse(TierEffect(h, tier, e), Restart(h, e))
    case R2 =>
      var restored := RestoreLeaves(h, e, R2_RESTORE_FILES);
      var modes := ChmodLeaves(restored, R2_RESTORE_MODES);
      if RestoreAll(h, e, R2_RESTORE_FILES).None? then restored
      else if ChmodAll(restored, R2_RESTORE_MODES).None? then modes
      else OrElse(TierEffect(h, tier, e), Restart(h, DaemonReload(modes)))
    case R3 => h.bootstrap(e)
    case OtherTier(_) => e
  }

  /** When Recover fails, the tier is not reached; when it succeeds, it has happened whatever the tier does. */
  function ResetLeaves(h: Host, tier: Tier, fault: Option<FaultName>, e: Env): Env {
    if !RecoversFirst(fault) then TierLeaves(h, tier, e)
    else if RecoverEffect(h, fault.value.fault, e).None? then RecoverLeaves(h, fault.value.fault, e)
    else TierLeaves(h, tier, RecoverEffect(h, fault.value.fault, e).value)
  }

  // ---- where they can stop on any host ----

  /** The tier has got to m: as far as some of its calls, and not through its last one. */
  ghost predicate MidTier(h: Host, tier: Tier, e: Env, m: Env) {
    || m == e
    || (match tier
        case R1 => m == Restart(h, e)
        case R2 => MidR2(h, e, m)
        case _ => false)
  }

  ghost predicate MidR2(h: Host, e: Env, m: Env) {
    var e1 := RestoreAll(h, e, R2_RESTORE_FILES);
    var e2 := if e1.Some? then ChmodAll(e1.value, R2_RESTORE_MODES) else None;
    || (exists i | 0 <= i <= |R2_RESTORE_FILES| :: RestoreAll(h, e, R2_RESTORE_FILES[..i]) == Some(m))
    || (e1.Some? && exists i | 0 <= i <= |R2_RESTORE_MODES| :: ChmodAll(e1.value, R2_RESTORE_MODES[..i]) == Some(m))
    || (e2.Some? && (m == DaemonReload(e2.value) || m == Restart(h, DaemonReload(e2.value))))
  }

  /** The reset is in Recover, or through with it and in the tier. */
  ghost predicate MidReset(h: Host, tier: Tier, fault: Option<FaultName>, e: Env, m: Env) {
    if RecoversFirst(fault) then
      var e0 := RecoverEffect(h, fault.value.fault, e);
      MidRecover(h, fault.value.fault, e, m) || (e0.Some? && MidTier(h, tier, e0.value, m))
    else MidTier(h, tier, e, m)
  }

  ghost predicate TierStopsAt(h: Host, tier: Tier, e: Env, e': Env) {
    exists m :: MidTier(h, tier, e, m) && FailedFrom(h, m, e')
  }

  ghost predicate ResetStopsAt(h: Host, tier: Tier, fault: Option<FaultName>, e: Env, e': Env) {
    exists m :: MidReset(h, tier, fault, e, m) && FailedFrom(h, m, e')
  }

  /** A reset that goes through leaves its effect. */
  lemma LeavesEffect(h: Host, tier: Tier, fault: Option<FaultName>, e: Env)
    ensures ResetEffect(h, tier, fault, e).Some? ==>
              ResetLeaves(h, tier, fault, e) == ResetEffect(h, tier, fault, e).value
  {
    hide RecoverEffect, RecoverLeaves, TierEffect, TierLeaves;
    if RecoversFirst(fault) {
      var e0 := RecoverEffect(h, fault.value.fault, e);
      if e0.Some? {
        TierLeavesEffect(h, tier, e0.value);
      }
    } else {
      TierLeavesEffect(h, tier, e);
    }
  }

  lemma TierLeavesEffect(h: Host, tier: Tier, e: Env)
    ensures TierEffect(h, tier, e).Some? ==> TierLeaves(h, tier, e) == TierEffect(h, tier, e).value
  {
    hide RestoreAll, RestoreLeaves, ChmodAll, ChmodLeaves, Restart, DaemonReload;
    RestoreLeavesAll(h, e, R2_RESTORE_FILES);
  }

  /** As far as they go through, what is left is what was asked for. */
  lemma {:induction false} RestoreLeavesAll(h: Host, e: Env, ps: seq<Path>)
    ensures RestoreAll(h, e, ps).Some? ==> RestoreLeaves(h, e, ps) == RestoreAll(h, e, ps).value
  {
    if ps != [] {
      RestoreLeavesAll(h, e, ps[..|ps| - 1]);
    }
  }

  lemma {:induction false} ChmodLeavesAll(e: Env, entries: seq<(Path, Mode)>)
    ensures ChmodAll(e, entries).Some? ==> ChmodLeaves(e, entries) == ChmodAll(e, entries).value
  {
    if entries != [] {
      ChmodLeavesAll(e, entries[..|entries| - 1]);
    }
  }

  // ---- the tiers as the executor runs them ----

  method RestoreFiles(exec: Executor, ps: seq<Path>) returns (ok: bool)
    requires exec.Valid()
    modifies exec
    ensures Performed(exec, RestoreAll(exec.host, old(exec.env), ps), RestoreLeaves(exec.host, old(exec.env), ps), ok)
    ensures ok ==> RestoreAll(exec.host, old(exec.env), ps) == Some(exec.env)
    ensures exists i | 0 <= i <= |ps| :: RestoreAll(exec.host, old(exec.env), ps[..i]) == Some(exec.env)
  {
    hide Audited, Environment.RestoreFile;
    for i := 0 to |ps|
      invariant exec.Valid() && old(exec.trace) <= exec.trace
      invariant RestoreAll(exec.host, old(exec.env), ps[..i]) == Some(exec.env)
    {
      assert ps[..i + 1][..i] == ps[..i];
      RestoreLeavesAll(exec.host, old(exec.env), ps[..i]);
      ok := exec.RestoreFile(ps[i]);
      if !ok {
        if RestoreAll(exec.host, old(exec.env), ps[..i + 1]).None? {
          RestoreStops(exec.host, old(exec.env), ps, i + 1);
        }
        return;
      }
    }
    assert ps[..|ps|] == ps;
    RestoreLeavesAll(exec.host, old(exec.env), ps);
    ok := true;
  }

  /** Nothing after the first refusal is looked at. */
  lemma {:induction false} RestoreStops(h: Host, e: Env, ps: seq<Path>, n: nat)
    requires n <= |ps| && RestoreAll(h, e, ps[..n]).None?
    ensures RestoreAll(h, e, ps).None? && RestoreLeaves(h, e, ps) == RestoreLeaves(h, e, ps[..n])
  {
    if n < |ps| {
      assert ps[..|ps| - 1][..n] == ps[..n];
      RestoreStops(h, e, ps[..|ps| - 1], n);
    } else {
      assert ps[..n] == ps;
    }
  }

  method ChmodEntries(exec: Executor, entries: seq<(Path, Mode)>) returns (ok: bool)
    requires exec.Valid()
    modifies exec
    ensures Performed(exec, ChmodAll(old(exec.env), entries), ChmodLeaves(old(exec.env), entries), ok)
    ensures ok ==> ChmodAll(old(exec.env), entries) == Some(exec.env)
    ensures exists i | 0 <= i <= |entries| :: ChmodAll(old(exec.env), entries[..i]) == Some(exec.env)
  {
    hide Audited, Environment.Chmod;
    for i := 0 to |entries|
      invariant exec.Valid() && old(exec.trace) <= exec.trace
      invariant ChmodAll(old(exec.env), entries[..i]) == Some(exec.env)
    {
      assert entries[..i + 1][..i] == entries[..i];
      ChmodLeavesAll(old(exec.env), entries[..i]);
      ok := exec.Chmod(entries[i].0, entries[i].1);
      if !ok {
        if ChmodAll(old(exec.env), entries[..i + 1]).None? {
          ChmodStops(old(exec.env), entries, i + 1);
        }
        return;
      }
    }
    assert entries[..|entries|] == entries;
    ChmodLeavesAll(old(exec.env), entries);
    ok := true;
  }

  lemma {:induction false} ChmodStops(e: Env, entries: seq<(Path, Mode)>, n: nat)
    requires n <= |entries| && ChmodAll(e, entries[..n]).None?
    ensures ChmodAll(e, entries).None? && ChmodLeaves(e, entries) == ChmodLeaves(e, entries[..n])
  {
    if n < |entries| {
      assert entries[..|entries| - 1][..n] == entries[..n];
      ChmodStops(e, entries[..|entries| - 1], n);
    } else {
      assert entries[..n] == entries;
    }
  }

  method RestartServices(exec: Executor) returns (ok: bool)
    requires exec.Valid()
    modifies exec
    ensures var restarted := Restart(exec.host, old(exec.env));
            var effect := Environment.NginxReload(exec.host, restarted);
            && Performed(exec, effect, OrElse(effect, restarted), ok)
            && (ok ==> effect == Some(exec.env))
            && (!ok ==> FailedFrom(exec.host, old(exec.env), exec.env) || FailedFrom(exec.host, restarted, exec.env))
  {
    hide Audited, FailedFrom, Restart, Environment.NginxReload;
    var _ := exec.Systemctl(ResetFailed);
    ok := exec.Systemctl(RestartApp);
    if ok {
      ok := exec.NginxReload();
    }
  }

  method RunTier(exec: Executor, tier: Tier) returns (ok: bool)
    requires exec.Valid()
    modifies exec
    ensures Performed(exec, TierEffect(exec.host, tier, old(exec.env)), TierLeaves(exec.host, tier, old(exec.env)), ok)
    ensures tier.OtherTier? ==> !ok && exec.env == old(exec.env)
    ensures ok ==> TierEffect(exec.host, tier, old(exec.env)) == Some(exec.env)
    ensures !ok ==> TierStopsAt(exec.host, tier, old(exec.env), exec.env)
  {
    hide Audited, FailedFrom, RestoreAll, ChmodAll, Restart, DaemonReload, Environment.NginxReload;
    ghost var m := exec.env;
    match tier {
      case R1 =>
        ok := RestartServices(exec);
        if !FailedFrom(exec.host, m, exec.env) {
          m := Restart(exec.host, m);
        }
      case R2 =>
        ok := RestoreFiles(exec, R2_RESTORE_FILES);
        m := exec.env;
        if ok {
          ok := ChmodEntries(exec, R2_RESTORE_MODES);
          m := exec.env;
        }
        if ok {
          ok := exec.Systemctl(DaemonReloadAction);
        }
        if ok {
          m := exec.env;
          ok := RestartServices(exec);
          if !FailedFrom(exec.host, m, exec.env) {
            m := Restart(exec.host, m);
          }
        }
      case R3 => ok := exec.RunMutation(Bootstrap);
      case OtherTier(_) => ok := false;
    }
    FailsInPlace(exec.host, m);
    assert !ok ==> MidTier(exec.host, tier, old(exec.env), m) && FailedFrom(exec.host, m, exec.env);
  }

  method ExecuteTier(exec: Executor, tier: Tier, fault: Option<FaultName>) returns (ok: bool)
    requires exec.Valid()
    modifies exec
    ensures Performed(exec, ResetEffect(exec.host, tier, fault, old(exec.env)),
                      ResetLeaves(exec.host, tier, fault, old(exec.env)), ok)
    ensures ok ==> ResetEffect(exec.host, tier, fault, old(exec.env)) == Some(exec.env)
    ensures !ok ==> ResetStopsAt(exec.host, tier, fault, old(exec.env), exec.env)
  {
    hide Audited, FailedFrom, RecoverEffect, RecoverLeaves, MidRecover, TierEffect, TierLeaves, MidTier;
    if fault.Some? && fault.value.Known? && IsReversible(fault.value.fault) {
      ok := Recover(exec, fault.value.fault);
      if !ok {
        return;
      }
    }
    ok := RunTier(exec, tier);
  }

  // ---- the record ----

  function FaultOf(f: File): Option<FaultName> {
    if f.activeFault.Some? then Some(f.activeFault.value.id) else None
  }

  /** The record reset works from: a fresh BROKEN one when there is none to read. */
  function Starting(d: Disk, now: nat): File {
    if d.Readable? then d.file else Fresh(Broken, now)
  }

  function ChosenTier(tier: Option<Tier>, sf: File): Tier {
    if tier.Some? then tier.value else SelectTier(FaultOf(sf))
  }

  function Verdict(sr: SuiteResult): State {
    if sr.classification.IsConformant() then Conformant else Broken
  }

  function ResetRecordOf(sf: File, tier: Tier, sr: SuiteResult, now: nat): File {
    sf.(state := Verdict(sr),
        classificationValid := true,
        activeFault := None,
        lastReset := Some(ResetRecord(now, tier, sf.state, FaultOf(sf))),
        lastValidate := Some(ValidateRecord(now, sr.passed, sr.total, sr.failingBlocking)),
        history := Remember(sf.history, HistoryEntry(now, sf.state, Verdict(sr), ByReset(tier), FaultOf(sf), false)))
  }

  datatype ResetOutcome = LockBusy | NothingToReset | TierFailed | Completed(clean: bool) {
    function ExitCode(): nat {
      if this == NothingToReset || this == Completed(true) then 0 else 1
    }
  }

  /** CONFORMANT with no fault on record, and the suite agrees. */
  predicate NothingToDo(h: Host, e: Env, sf: File) {
    sf.state == Conformant && sf.activeFault.None? && Suite(h.observe(e)).classification.IsConformant()
  }

  /** How a reset relates what it found to what it leaves. */
  ghost predicate Resets(h: Host, e: Env, d: Disk, tier: Option<Tier>, now: nat,
                   e': Env, d': Disk, wrote: bool, outcome: ResetOutcome) {
    var sf := Starting(d, now);
    var t := ChosenTier(tier, sf);
    match outcome
    case LockBusy => d' == d
    case NothingToReset => NothingToDo(h, e, sf) && d' == d
    case TierFailed => !NothingToDo(h, e, sf) && ResetStopsAt(h, t, FaultOf(sf), e, e') && d' == d
    case Completed(clean) =>
      && !NothingToDo(h, e, sf)
      && ResetEffect(h, t, FaultOf(sf), e) == Some(e')
      && clean == Suite(h.observe(e')).classification.IsConformant()
      && d' == if wrote then Readable(ResetRecordOf(sf, t, Suite(h.observe(e')), now)) else d
  }

  method RecordReset(store: Store, sf: File, t: Tier, sr: SuiteResult, now: nat) returns (exit: nat)
    modifies store`disk, store`writes
    ensures exit == if sr.classification.IsConformant() then 0 else 1
    ensures store.disk == if store.succeeds(old(store.writes)) then Readable(ResetRecordOf(sf, t, sr, now))
                          else old(store.disk)
  {
    var faultCleared := FaultOf(sf);
    var fromState := sf.state;
    var toState := Conformant;
    exit := 0;
    if !sr.classification.IsConformant() {
      toState, exit := Broken, 1;
    }
    var g := sf.(state := toState, classificationValid := true, activeFault := None);
    g := g.(lastReset := Some(ResetRecord(now, t, fromState, faultCleared)));
    g := g.(lastValidate := Some(ValidateRecord(now, sr.passed, sr.total, sr.failingBlocking)));
    g := AppendHistory(HistoryEntry(now, fromState, toState, ByReset(t), faultCleared, false), g);
    var _ := store.Write(g);
  }

  /** The part of lab reset that mutates: the tier, the suite afterwards and the record. */
  method ResetWithTier(exec: Executor, store: Store, sf: File, t: Tier, now: nat) returns (outcome: ResetOutcome)
    requires exec.Valid()
    modifies exec, store`disk, store`writes
    ensures exec.Valid() && old(exec.trace) <= exec.trace
    ensures outcome == TierFailed || outcome.Completed?
    ensures outcome == TierFailed ==>
              && store.disk == old(store.disk)
              && ResetStopsAt(exec.host, t, FaultOf(sf), old(exec.env), exec.env)
    ensures Reliable(exec.host) ==>
              && (outcome == TierFailed <==> ResetEffect(exec.host, t, FaultOf(sf), old(exec.env)).None?)
              && exec.env == ResetLeaves(exec.host, t, FaultOf(sf), old(exec.env))
    ensures outcome.Completed? ==>
              && ResetEffect(exec.host, t, FaultOf(sf), old(exec.env)) == Some(exec.env)
              && outcome.clean == Suite(exec.host.observe(exec.env)).classification.IsConformant()
              && store.disk == if store.succeeds(old(store.writes))
                               then Readable(ResetRecordOf(sf, t, Suite(exec.host.observe(exec.env)), now))
                               else old(store.disk)
  {
    hide Audited, ResetEffect, ResetStopsAt, Suite;
    var ok := ExecuteTier(exec, t, FaultOf(sf));
    if !ok {
      exec.LogOther();
      return TierFailed;
    }
    var sr := RunSuite(exec.host.observe(exec.env));
    var exit := RecordReset(store, sf, t, sr, now);
    exec.LogOther();
    outcome := Completed(exit == 0);
  }

  /** lab reset. A failed write of the record is ignored, as the source ignores it. */
  method RunReset(exec: Executor, store: Store, tier: Option<Tier>, acquired: bool, now: nat)
    returns (outcome: ResetOutcome)
    requires exec.Valid()
    modifies exec, store`disk, store`writes
    ensures exec.Valid() && old(exec.trace) <= exec.trace
    ensures acquired <==> outcome != LockBusy
    ensures outcome == LockBusy || outcome == NothingToReset ==>
              exec.env == old(exec.env) && exec.trace == old(exec.trace)
    ensures Resets(exec.host, old(exec.env), old(store.disk), tier, now,
                   exec.env, store.disk, store.succeeds(old(store.writes)), outcome)
    ensures Reliable(exec.host) && (outcome == TierFailed || outcome.Completed?) ==>
              var sf := Starting(old(store.disk), now);
              var t := ChosenTier(tier, sf);
              && (outcome == TierFailed <==> ResetEffect(exec.host, t, FaultOf(sf), old(exec.env)).None?)
              && exec.env == ResetLeaves(exec.host, t, FaultOf(sf), old(exec.env))
    ensures acquired ==>
              (outcome == NothingToReset <==>
                 && old(store.disk).Readable?
                 && old(store.disk).file.state == Conformant && old(store.disk).file.activeFault.None?
                 && forall id | BlockingId(id) :: Passes(exec.host.observe(old(exec.env)), id))
    ensures outcome.ExitCode() <= 1
    ensures outcome.ExitCode() == 0 <==>
              && acquired && outcome != TierFailed
              && forall id | BlockingId(id) :: Passes(exec.host.observe(exec.env), id)
  {
    hide Audited, ResetEffect, ResetStopsAt, Suite;
    if !acquired {
      return LockBusy;
    }
    SuiteConformantMeaning(exec.host.observe(exec.env));
    var read := store.Read();
    var sf := if read.Some? then read.value else Fresh(Broken, now);
    var t := if tier.Some? then tier.value else SelectTier(FaultOf(sf));
    if sf.state == Conformant && sf.activeFault.None? {
      var before := RunSuite(exec.host.observe(exec.env));
      if before.classification.IsConformant() {
        return NothingToReset;
      }
    }
    outcome := ResetWithTier(exec, store, sf, t, now);
    SuiteConformantMeaning(exec.host.observe(exec.env));
  }

  lemma ResetKeepsAccount(d: Disk, tier: Tier, sr: SuiteResult, now: nat)
    requires d.Readable? ==> Accounted(d.file)
    ensures Accounted(ResetRecordOf(Starting(d, now), tier, sr, now))
    ensures FaultMatchesState(ResetRecordOf(Starting(d, now), tier, sr, now))
  {
    var sf := Starting(d, now);
    var g := ResetRecordOf(sf, tier, sr, now);
    RememberKeepsAccount(sf, HistoryEntry(now, sf.state, Verdict(sr), ByReset(tier), FaultOf(sf), false), g);
  }

  /**
   * What a completed reset records: CONFORMANT or BROKEN as the blocking checks of its suite pass, no
   * fault, what it cleared and where it came from, the whole observation, and one entry within the ring.
   * It keeps the rest.
   */
  lemma ResetRecordMeaning(sf: File, tier: Tier, a: Answers, now: nat)
    ensures var g := ResetRecordOf(sf, tier, Suite(a), now);
            && g.state == (if forall id | BlockingId(id) :: Passes(a, id) then Conformant else Broken)
            && g.classificationValid && g.activeFault.None?
            && g.lastReset == Some(ResetRecord(now, tier, sf.state, FaultOf(sf)))
            && g.lastValidate.Some? && ObservesSuite(g.lastValidate.value, a, now)
            && g.lastProvision == sf.lastProvision && g.lastStatusAt == sf.lastStatusAt
            && |g.history| == (if |sf.history| < HISTORY_MAX_ENTRIES then |sf.history| + 1 else HISTORY_MAX_ENTRIES)
            && |g.history| > 0
            && g.history[|g.history| - 1] == HistoryEntry(now, sf.state, g.state, ByReset(tier), FaultOf(sf), false)
            && (|sf.history| <= HISTORY_MAX_ENTRIES ==>
                  g.history[..|g.history| - 1] == LastN(sf.history, |g.history| - 1))
  {
    hide Suite, ObservesSuite;
    SuiteConformantMeaning(a);
    SuiteObserved(a, now);
  }

  /** A record that cannot be read counts as BROKEN without a fault: R2 is chosen, and the history starts there. */
  lemma UnreadableIsBroken(d: Disk, a: Answers, now: nat)
    requires !d.Readable?
    ensures ChosenTier(None, Starting(d, now)) == R2
    ensures var g := ResetRecordOf(Starting(d, now), R2, Suite(a), now);
            && g.history == [HistoryEntry(now, Broken, g.state, ByReset(R2), None, false)]
            && g.lastReset == Some(ResetRecord(now, R2, Broken, None))
  {
    hide Suite;
    var entry := HistoryEntry(now, Broken, Verdict(Suite(a)), ByReset(R2), None, false);
    assert [] + [entry] == [entry];
  }

  // ---- what a reset that fails leaves ----

  /** R1 fails only where nginx refuses its configuration, and by then it has restarted the service. */
  lemma FailedR1Leaves(h: Host, e: Env)
    ensures TierEffect(h, R1, e).None? <==>
            !(NginxConfigPath in e.fs && h.accepts(e.fs[NginxConfigPath].content))
    ensures TierEffect(h, R1, e).None? ==>
              var r := TierLeaves(h, R1, e);
              && r.app == (if ComesUp(h, r) then Running(LaunchOf(r)) else Stopped)
              && r.proxy == e.proxy && r.loadedUnit == e.loadedUnit
  {
    RestartSettles(h, e);
    var r := Restart(h, e);
    assert LaunchOf(r) == LaunchOf(e);
    assert OwnerWrites(MODE_LOG_FILE);
  }

  /** When R2 fails because nginx refuses the canonical text, everything before that has happened. */
  lemma RefusedR2Leaves(h: Host, e: Env)
    requires {BinaryPath, StateDir, LogDir} <= e.fs.Keys && !h.accepts(h.nginxText)
    ensures TierEffect(h, R2, e).None?
    ensures TierLeaves(h, R2, e) == Restart(h, R2Prepared(h, e))
  {
    hide Restart;
    R2Meaning(h, e);
    R2Restores(h, e);
    RestoreLeavesAll(h, e, R2_RESTORE_FILES);
    var e1 := RestoreAll(h, e, R2_RESTORE_FILES).value;
    R2Chmods(e1);
    ChmodLeavesAll(e1, R2_RESTORE_MODES);
    assert ChmodAll(e1, R2_RESTORE_MODES).value.fs == R2Files(h, e.fs);
  }

  /** When it fails because one of its paths is missing, its three files are back and nothing is loaded. */
  lemma StoppedR2Leaves(h: Host, e: Env, p: Path)
    requires !({BinaryPath, StateDir, LogDir} <= e.fs.Keys)
    ensures TierEffect(h, R2, e).None?
    ensures var r := TierLeaves(h, R2, e);
            && r == e.(fs := r.fs)
            && (p in R2_RESTORE_FILES ==>
                  p in r.fs && Some(r.fs[p].(mode := CanonicalNode(h, p).value.mode)) == CanonicalNode(h, p))
  {
    hide Restart, DaemonReload, RestoreAll, ChmodAll, RestoreLeaves, ChmodLeaves;
    R2Meaning(h, e);
    R2Restores(h, e);
    RestoreLeavesAll(h, e, R2_RESTORE_FILES);
    var e1 := RestoreAll(h, e, R2_RESTORE_FILES).value;
    R2Chmods(e1);
    ChmodLeavesModes(e1, R2_RESTORE_MODES);
  }

  /** Setting modes, as far as it goes, changes modes to those listed and nothing else. */
  lemma {:induction false} ChmodLeavesModes(e: Env, entries: seq<(Path, Mode)>)
    ensures var r := ChmodLeaves(e, entries);
            && r == e.(fs := r.fs) && r.fs.Keys == e.fs.Keys
            && (forall p | p in e.fs ::
                  || r.fs[p] == e.fs[p]
                  || exists entry | entry in entries :: entry.0 == p && r.fs[p] == e.fs[p].(mode := entry.1))
  {
    if entries != [] {
      var n := |entries| - 1;
      var left := ChmodLeaves(e, entries[..n]);
      ChmodLeavesModes(e, entries[..n]);
      forall p | p in e.fs
        ensures var r := ChmodLeaves(e, entries);
                || r.fs[p] == e.fs[p]
                || exists entry | entry in entries :: entry.0 == p && r.fs[p] == e.fs[p].(mode := entry.1)
      {
        if p == entries[n].0 {
          assert entries[n] in entries;
        } else if left.fs[p] != e.fs[p] {
          var entry :| entry in entries[..n] && entry.0 == p && left.fs[p] == e.fs[p].(mode := entry.1);
          assert entry in entries;
        }
      }
    }
  }

  // ---- what a reset restores ----

  const R2_COVERED: set<Aspect> := {ABinary, AConfig, AUnit, ANginx, ALogDir, AStateDir}

  /** What the Recover of a fault restores beyond R2. */
  function RecoverCovers(f: FaultId): set<Aspect> {
    match f
    case F009 => {ALog}
    case F017 => {AManager}
    case F018 => {AFillers}
    case F019 => {AFill}
    case F020 => {AChaos}
    case F021 => {ANft}
    case _ => {}
  }

  /** Everything an automatic reset restores, for a fault whose tier is not R3. */
  function Covered(fault: Option<FaultName>): set<Aspect> {
    if fault.Some? && fault.value.Known? then
      (if ResetTier(fault.value.fault) == R1 then {} else R2_COVERED) + RecoverCovers(fault.value.fault)
    else R2_COVERED
  }

  lemma RestoreOneMore(h: Host, e: Env, ps: seq<Path>, p: Path)
    requires RestoreAll(h, e, ps).Some?
    ensures RestoreAll(h, e, ps + [p]) == Environment.RestoreFile(h, RestoreAll(h, e, ps).value, p)
  {
    assert (ps + [p])[..|ps|] == ps;
  }

  lemma ChmodOneMore(e: Env, entries: seq<(Path, Mode)>, entry: (Path, Mode))
    ensures ChmodAll(e, entries + [entry]) ==
            if ChmodAll(e, entries).Some? then Environment.Chmod(ChmodAll(e, entries).value, entry.0, entry.1) else None
  {
    assert (entries + [entry])[..|entries|] == entries;
  }

  /** The file layer after R2's restores and mode changes. */
  function R2Files(h: Host, fs: map<Path, Node>): map<Path, Node>
    requires {BinaryPath, StateDir, LogDir} <= fs.Keys
  {
    fs[ConfigPath := CanonicalNode(h, ConfigPath).value]
      [UnitFilePath := CanonicalNode(h, UnitFilePath).value]
      [NginxConfigPath := CanonicalNode(h, NginxConfigPath).value]
      [BinaryPath := fs[BinaryPath].(mode := MODE_BINARY)]
      [StateDir := fs[StateDir].(mode := MODE_STATE_DIR)]
      [LogDir := fs[LogDir].(mode := MODE_LOG_DIR)]
  }

  lemma R2Restores(h: Host, e: Env)
    ensures RestoreAll(h, e, R2_RESTORE_FILES) ==
            Some(e.(fs := e.fs[ConfigPath := CanonicalNode(h, ConfigPath).value]
                              [UnitFilePath := CanonicalNode(h, UnitFilePath).value]
                              [NginxConfigPath := CanonicalNode(h, NginxConfigPath).value]))
  {
    assert RestoreAll(h, e, []) == Some(e);
    RestoreOneMore(h, e, [], ConfigPath);
    assert [] + [ConfigPath] == [ConfigPath];
    RestoreOneMore(h, e, [ConfigPath], UnitFilePath);
    assert [ConfigPath] + [UnitFilePath] == [ConfigPath, UnitFilePath];
    RestoreOneMore(h, e, [ConfigPath, UnitFilePath], NginxConfigPath);
    assert [ConfigPath, UnitFilePath] + [NginxConfigPath] == R2_RESTORE_FILES;
  }

  lemma R2Chmods(e: Env)
    ensures ChmodAll(e, R2_RESTORE_MODES).Some? <==> {BinaryPath, ConfigPath, StateDir, LogDir} <= e.fs.Keys
    ensures ChmodAll(e, R2_RESTORE_MODES).Some? ==>
              ChmodAll(e, R2_RESTORE_MODES) ==
              Some(e.(fs := e.fs[BinaryPath := e.fs[BinaryPath].(mode := MODE_BINARY)]
                                [ConfigPath := e.fs[ConfigPath].(mode := MODE_CONFIG)]
                                [StateDir := e.fs[StateDir].(mode := MODE_STATE_DIR)]
                                [LogDir := e.fs[LogDir].(mode := MODE_LOG_DIR)]))
  {
    var b, c := (BinaryPath, MODE_BINARY), (ConfigPath, MODE_CONFIG);
    var s, l := (StateDir, MODE_STATE_DIR), (LogDir, MODE_LOG_DIR);
    ChmodOneMore(e, [], b);
    assert [] + [b] == [b];
    ChmodOneMore(e, [b], c);
    assert [b] + [c] == [b, c];
    ChmodOneMore(e, [b, c], s);
    assert [b, c] + [s] == [b, c, s];
    ChmodOneMore(e, [b, c, s], l);
    assert [b, c, s] + [l] == R2_RESTORE_MODES;
  }

  /** The environment R2 restarts the services in. */
  function R2Prepared(h: Host, e: Env): Env
    requires {BinaryPath, StateDir, LogDir} <= e.fs.Keys
  {
    DaemonReload(e.(fs := R2Files(h, e.fs)))
  }

  /** What R2 amounts to, and exactly when it goes through. */
  lemma R2Meaning(h: Host, e: Env)
    ensures TierEffect(h, R2, e).Some? <==> {BinaryPath, StateDir, LogDir} <= e.fs.Keys && h.accepts(h.nginxText)
    ensures TierEffect(h, R2, e).Some? ==>
              TierEffect(h, R2, e) == Some(Restart(h, R2Prepared(h, e)).(proxy := Some(h.nginxText)))
  {
    hide Restart;
    R2Restores(h, e);
    var e1 := RestoreAll(h, e, R2_RESTORE_FILES).value;
    R2Chmods(e1);
    if {BinaryPath, StateDir, LogDir} <= e.fs.Keys {
      var e2 := ChmodAll(e1, R2_RESTORE_MODES).value;
      assert e2.fs == R2Files(h, e.fs);
      RestartSettles(h, DaemonReload(e2));
    }
  }

  /** Of the binary and the directories R2 changes the mode alone. */
  lemma R2KeepsContents(h: Host, e: Env, p: Path)
    requires TierEffect(h, R2, e).Some? && p in {BinaryPath, StateDir, LogDir}
    ensures var r := TierEffect(h, R2, e).value;
            p in e.fs && p in r.fs && r.fs[p] == e.fs[p].(mode := r.fs[p].mode)
  {
    hide TierEffect, ComesUp;
    R2Meaning(h, e);
  }

  /** R2 run again, from any environment on which it went through, changes nothing more. */
  lemma R2IsIdempotent(h: Host, e: Env)
    requires TierEffect(h, R2, e).Some?
    ensures TierEffect(h, R2, TierEffect(h, R2, e).value) == TierEffect(h, R2, e)
  {
    hide TierEffect;
    R2Meaning(h, e);
    var p := R2Prepared(h, e);
    var r := TierEffect(h, R2, e).value;
    RestartSettles(h, p);
    R2Meaning(h, r);
    assert R2Files(h, r.fs) == r.fs;
    assert R2Prepared(h, r) == r;
    RestartAgain(h, p, Some(h.nginxText));
  }

  lemma RestartAgain(h: Host, p: Env, proxy: Option<string>)
    ensures Restart(h, Restart(h, p).(proxy := proxy)) == Restart(h, p).(proxy := proxy)
  {
    RestartSettles(h, p);
    var r := Restart(h, p);
    assert LaunchOf(r.(proxy := proxy)) == LaunchOf(r);
  }

  // ---- a tier that stopped ----

  /** The environments differ only in what R2 sets anyway. */
  ghost predicate UpToR2(e: Env, m: Env) {
    && m == e.(fs := m.fs, loadedUnit := m.loadedUnit) && e.fs.Keys <= m.fs.Keys
    && (forall p | p !in {ConfigPath, UnitFilePath, NginxConfigPath, BinaryPath, StateDir, LogDir} ::
          Lookup(m.fs, p) == Lookup(e.fs, p))
    && (forall p | p in {BinaryPath, StateDir, LogDir} ::
          && (p in m.fs <==> p in e.fs)
          && (p in e.fs ==> m.fs[p] == e.fs[p].(mode := m.fs[p].mode)))
  }

  lemma {:induction false} RestoresUpToR2(h: Host, e: Env, ps: seq<Path>, m: Env)
    requires RestoreAll(h, e, ps) == Some(m)
    requires forall p | p in ps :: p in R2_RESTORE_FILES
    ensures UpToR2(e, m)
  {
    if ps != [] {
      var front := ps[..|ps| - 1];
      RestoresUpToR2(h, e, front, RestoreAll(h, e, front).value);
      assert ps[|ps| - 1] in R2_RESTORE_FILES;
    }
  }

  lemma {:induction false} ChmodsUpToR2(e: Env, entries: seq<(Path, Mode)>, m: Env)
    requires ChmodAll(e, entries) == Some(m)
    requires forall entry | entry in entries :: entry in R2_RESTORE_MODES
    ensures UpToR2(e, m)
  {
    if entries != [] {
      var front := entries[..|entries| - 1];
      ChmodsUpToR2(e, front, ChmodAll(e, front).value);
      assert entries[|entries| - 1] in R2_RESTORE_MODES;
    }
  }

  lemma R2FromUpToR2(h: Host, e: Env, m: Env)
    requires UpToR2(e, m)
    ensures TierEffect(h, R2, m) == TierEffect(h, R2, e)
  {
    hide TierEffect, Restart;
    R2Meaning(h, e);
    R2Meaning(h, m);
    if {BinaryPath, StateDir, LogDir} <= e.fs.Keys {
      forall p ensures Lookup(R2Files(h, m.fs), p) == Lookup(R2Files(h, e.fs), p) {
        if p in {BinaryPath, StateDir, LogDir} {
          assert p in m.fs && m.fs[p] == e.fs[p].(mode := m.fs[p].mode);
        } else if p !in R2_RESTORE_FILES {
          assert Lookup(m.fs, p) == Lookup(e.fs, p);
        }
      }
      SameLookups(R2Files(h, m.fs), R2Files(h, e.fs));
      assert R2Prepared(h, m) == R2Prepared(h, e);
    }
  }

  lemma SameLookups(fs: map<Path, Node>, fs': map<Path, Node>)
    requires forall p :: Lookup(fs', p) == Lookup(fs, p)
    ensures fs' == fs
  {
    forall p ensures (p in fs' <==> p in fs) && (p in fs ==> fs'[p] == fs[p]) {
      assert Lookup(fs', p) == Lookup(fs, p);
    }
  }

  lemma UpToR2Transitive(e: Env, e1: Env, m: Env)
    requires UpToR2(e, e1) && UpToR2(e1, m)
    ensures UpToR2(e, m) && UpToR2(e, DaemonReload(m))
  {
  }

  /** Wherever R2 stopped, it has changed nothing but what it sets anyway, or restarted the service after that. */
  lemma MidR2Means(h: Host, e: Env, m: Env)
    requires MidR2(h, e, m)
    ensures UpToR2(e, m) ||
            ({BinaryPath, StateDir, LogDir} <= e.fs.Keys && m == Restart(h, R2Prepared(h, e)))
  {
    hide Restart, RestoreAll, ChmodAll, UpToR2;
    R2Restores(h, e);
    var e1 := RestoreAll(h, e, R2_RESTORE_FILES).value;
    RestoresUpToR2(h, e, R2_RESTORE_FILES, e1);
    R2Chmods(e1);
    if i :| 0 <= i <= |R2_RESTORE_FILES| && RestoreAll(h, e, R2_RESTORE_FILES[..i]) == Some(m) {
      RestoresUpToR2(h, e, R2_RESTORE_FILES[..i], m);
    } else if i :| 0 <= i <= |R2_RESTORE_MODES| && ChmodAll(e1, R2_RESTORE_MODES[..i]) == Some(m) {
      ChmodsUpToR2(e1, R2_RESTORE_MODES[..i], m);
      UpToR2Transitive(e, e1, m);
    } else {
      var e2 := ChmodAll(e1, R2_RESTORE_MODES).value;
      ChmodsUpToR2(e1, R2_RESTORE_MODES, e2);
      UpToR2Transitive(e, e1, e2);
      assert e2.fs == R2Files(h, e.fs);
    }
  }

  /**
   * A tier that stopped in or before any of its calls, and left what the calls before had done, is
   * completed by running it again: it comes to what it would have come to undisturbed.
   */
  lemma TierResumes(h: Host, tier: Tier, e: Env, m: Env)
    requires MidTier(h, tier, e, m)
    ensures TierEffect(h, tier, m) == TierEffect(h, tier, e)
  {
    hide TierEffect, Restart;
    match tier
    case R1 => R1Resumes(h, e, m);
    case R2 =>
      if m != e {
        MidR2Means(h, e, m);
        if UpToR2(e, m) {
          R2FromUpToR2(h, e, m);
        } else {
          R2ResumesAfterRestart(h, e, m);
        }
      }
    case _ =>
  }

  lemma R1Resumes(h: Host, e: Env, m: Env)
    requires m == e || m == Restart(h, e)
    ensures TierEffect(h, R1, m) == TierEffect(h, R1, e)
  {
    hide Restart;
    RestartSettles(h, e);
  }

  lemma R2ResumesAfterRestart(h: Host, e: Env, m: Env)
    requires {BinaryPath, StateDir, LogDir} <= e.fs.Keys && m == Restart(h, R2Prepared(h, e))
    ensures TierEffect(h, R2, m) == TierEffect(h, R2, e)
  {
    hide TierEffect;
    R2Meaning(h, e);
    R2Meaning(h, m);
    RestartSettles(h, R2Prepared(h, e));
    assert R2Files(h, m.fs) == m.fs;
    assert R2Prepared(h, m) == m;
  }
}
