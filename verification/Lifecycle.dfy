/** Whole runs of the control plane over the record and the environment together. */
module Lifecycle {
  import opened Common
  import opened Conformance
  import opened Record
  import opened Detection
  import opened Status
  import opened Environment
  import opened Executor
  import opened Faults
  import opened Canonical
  import opened Reset
  import opened Coverage
  import opened Apply
  import opened Provision

  datatype World = World(env: Env, disk: Disk)

  /** One invocation: unforced applies and automatic resets are the ones whose runs are studied here. */
  datatype Command =
    | DoApply(name: FaultName, force: bool, yes: bool)
    | DoReset(tier: Option<Tier>)
    | DoProvision
    | DoStatus
    | DoValidate

  predicate IsPlain(cmd: Command) {
    (cmd.DoApply? ==> !cmd.force) && (cmd.DoReset? ==> cmd.tier.None?)
  }

  /** What a command can make of a world when the lock is free, writes succeed and executor calls go through. */
  ghost predicate Steps(h: Host, w: World, cmd: Command, now: nat, w': World) {
    match cmd
    case DoApply(name, force, yes) =>
      if !Guard(name, w.disk, h.observe(w.env), force, yes, true) then w' == w
      else
        (match ApplyEffect(h, name.fault, w.env)
         case None => w' == World(ApplyLeaves(h, name.fault, w.env), w.disk)
         case Some(e) => w' == World(e, Readable(AppliedRecord(w.disk.file, name.fault, force, now))))
    case DoReset(tier) => ResetSteps(h, w, tier, now, w')
    case DoProvision =>
      var e := h.bootstrap(w.env);
      w' == World(e, Readable(ProvisionedRecord(Suite(h.observe(e)), now)))
    case DoStatus => w' == World(w.env, StatusRecord(w.disk, h.observe(w.env), now))
    case DoValidate => w' == World(w.env, ValidateRecordOf(w.disk, h.observe(w.env), now))
  }

  ghost predicate ResetSteps(h: Host, w: World, tier: Option<Tier>, now: nat, w': World) {
    var sf := Starting(w.disk, now);
    var t := ChosenTier(tier, sf);
    if NothingToDo(h, w.env, sf) then w' == w
    else
      match ResetEffect(h, t, FaultOf(sf), w.env)
      case None => w' == World(ResetLeaves(h, t, FaultOf(sf), w.env), w.disk)
      case Some(e) => w' == World(e, Readable(ResetRecordOf(sf, t, Suite(h.observe(e)), now)))
  }

  // ---- a locking command in parts, and how it can end ----

  datatype Job = Job(cmd: Command, now: nat)

  predicate TakesLock(cmd: Command) {
    cmd.DoApply? || cmd.DoReset? || cmd.DoProvision?
  }

  /** What the command makes of the environment, given the copy it read, and whether it then records. */
  function Mutated(h: Host, job: Job, copy: Disk, e: Env): (Env, bool) {
    match job.cmd
    case DoApply(name, force, yes) =>
      if !Guard(name, copy, h.observe(e), force, yes, true) then (e, false)
      else (ApplyLeaves(h, name.fault, e), ApplyEffect(h, name.fault, e).Some?)
    case DoReset(tier) =>
      var sf := Starting(copy, job.now);
      var t := ChosenTier(tier, sf);
      if NothingToDo(h, e, sf) then (e, false)
      else (ResetLeaves(h, t, FaultOf(sf), e), ResetEffect(h, t, FaultOf(sf), e).Some?)
    case DoProvision => (h.bootstrap(e), true)
    case _ => (e, false)
  }

  /** The record the command then writes, from its copy and from what it now observes. */
  function Recorded(h: Host, job: Job, copy: Disk, e: Env): Disk {
    match job.cmd
    case DoApply(name, force, yes) =>
      if copy.Readable? && name.Known? then Readable(AppliedRecord(copy.file, name.fault, force, job.now)) else copy
    case DoReset(tier) =>
      var sf := Starting(copy, job.now);
      Readable(ResetRecordOf(sf, ChosenTier(tier, sf), Suite(h.observe(e)), job.now))
    case DoProvision => Readable(ProvisionedRecord(Suite(h.observe(e)), job.now))
    case _ => copy
  }

  /** Where the command may have left the environment when it is stopped while it mutates. */
  ghost predicate JobStopsAt(h: Host, job: Job, copy: Disk, e: Env, e': Env) {
    match job.cmd
    case DoApply(name, force, yes) =>
      if Guard(name, copy, h.observe(e), force, yes, true) then ApplyStopsAt(h, name.fault, e, e') else e' == e
    case DoReset(tier) =>
      var sf := Starting(copy, job.now);
      if NothingToDo(h, e, sf) then e' == e else ResetStopsAt(h, ChosenTier(tier, sf), FaultOf(sf), e, e')
    case DoProvision => FailedFrom(h, e, e')
    case _ => e' == e
  }

  function Invalidated(d: Disk): Disk {
    if d.Readable? then Readable(d.file.(classificationValid := false)) else d
  }

  /**
   * The write may fail, and then apply alone tries to invalidate; the process may be killed before it,
   * while it mutates or at another point.
   */
  datatype Ending = Whole | WriteLost(invalidated: bool) | Killed(mutating: bool)

  /** What a locking command run alone can make of a world, for each way it can end. */
  ghost predicate Performs(h: Host, w: World, job: Job, ending: Ending, w': World) {
    match ending
    case Whole => Steps(h, w, job.cmd, job.now, w')
    case WriteLost(invalidated) =>
      && Mutated(h, job, w.disk, w.env) == (w'.env, true)
      && (invalidated ==> job.cmd.DoApply?)
      && w'.disk == if invalidated then Invalidated(w.disk) else w.disk
    case Killed(mutating) =>
      && w'.disk == w.disk
      && if mutating then JobStopsAt(h, job, w.disk, w.env, w'.env)
         else w'.env == w.env || Mutated(h, job, w.disk, w.env) == (w'.env, true)
  }

  /**
   * Mutating, with nothing to record, or with the record written, is the step of the command; with a
   * write that failed it is the other ending.
   */
  lemma PartsMakeStep(h: Host, w: World, job: Job)
    requires TakesLock(job.cmd)
    ensures var (e, record) := Mutated(h, job, w.disk, w.env);
            && Performs(h, w, job, Whole, World(e, if record then Recorded(h, job, w.disk, e) else w.disk))
            && (record ==> Performs(h, w, job, WriteLost(false), World(e, w.disk)))
            && (record && job.cmd.DoApply? ==> Performs(h, w, job, WriteLost(true), World(e, Invalidated(w.disk))))
  {
    hide Suite, NothingToDo, ApplyEffect, ResetEffect, ResetLeaves;
    if job.cmd.DoReset? {
      var sf := Starting(w.disk, job.now);
      LeavesEffect(h, ChosenTier(job.cmd.tier, sf), FaultOf(sf), w.env);
    }
  }

  /**
   * The dispatch of app.go: each command's method performs its step. Where a write fails, a locking
   * command has one of its other endings.
   */
  method Dispatch(exec: Executor, store: Store, cmd: Command, now: nat) returns (exit: int)
    requires exec.Valid() && Reliable(exec.host)
    modifies exec, store`disk, store`writes
    ensures exec.Valid() && old(exec.trace) <= exec.trace
    ensures (forall n :: store.succeeds(n)) ==>
              Steps(exec.host, World(old(exec.env), old(store.disk)), cmd, now, World(exec.env, store.disk))
    ensures TakesLock(cmd) ==>
              var w := World(old(exec.env), old(store.disk));
              exists ending: Ending | !ending.Killed? ::
                Performs(exec.host, w, Job(cmd, now), ending, World(exec.env, store.disk))
    ensures forall k | 0 <= k <= |exec.trace| :: LagsByAtMostOne(exec.trace[..k])
    ensures cmd.DoReset? || cmd.DoProvision? || cmd.DoValidate? ==>
              (exit == 0 ==> forall id | BlockingId(id) :: Passes(exec.host.observe(exec.env), id))
    ensures cmd.DoProvision? || cmd.DoValidate? ==>
              ((forall id | BlockingId(id) :: Passes(exec.host.observe(exec.env), id)) ==> exit == 0)
    ensures cmd.DoApply? ==> (exit == 2 <==> cmd.name.Unknown?) && 0 <= exit <= 4
    ensures cmd.DoStatus? ==> exit == 0
  {
    hide LagsByAtMostOne, ApplyStopsAt, ResetStopsAt, Audited, Suite;
    hide ApplyEffect, ResetEffect, ResetLeaves, StatusRecord, ValidateRecordOf;
    ghost var h, w := exec.host, World(exec.env, store.disk);
    ghost var ending := Whole;
    match cmd {
      case DoApply(name, force, yes) =>
        var outcome := RunApply(exec, store, name, force, yes, true, now);
        if outcome == NotRecorded {
          ending := WriteLost(store.disk != w.disk);
        }
        exit := outcome.ExitCode();
        assert Performs(h, w, Job(cmd, now), ending, World(exec.env, store.disk));
      case DoReset(tier) =>
        var outcome := RunReset(exec, store, tier, true, now);
        LeavesEffect(h, ChosenTier(tier, Starting(w.disk, now)), FaultOf(Starting(w.disk, now)), w.env);
        if outcome.Completed? && store.disk == w.disk {
          ending := WriteLost(false);
        }
        exit := outcome.ExitCode();
        assert Performs(h, w, Job(cmd, now), ending, World(exec.env, store.disk));
      case DoProvision =>
        var outcome := RunProvision(exec, store, true, now);
        if store.disk == w.disk {
          ending := WriteLost(false);
        }
        exit := outcome.ExitCode();
        assert Performs(h, w, Job(cmd, now), ending, World(exec.env, store.disk));
      case DoStatus => exit := RunStatus(store, exec.host.observe(exec.env), true, now);
      case DoValidate => exit := RunValidate(exec, store, exec.host.observe(exec.env), now);
    }
    AuditedThroughout(exec.trace);
  }

  lemma AuditedThroughout(trace: seq<Event>)
    requires Audited(trace)
    ensures forall k | 0 <= k <= |trace| :: LagsByAtMostOne(trace[..k])
  {
    hide LagsByAtMostOne;
    forall k | 0 <= k <= |trace| ensures LagsByAtMostOne(trace[..k]) {
      AuditedAtEveryPoint(trace, k);
    }
  }

  // ---- the invariant of plain runs ----

  /** The environment is a canonical one with this fault, and nothing else, applied to it. */
  ghost predicate DamagedBy(h: Host, f: FaultId, e: Env) {
    exists c: Env :: IsCanonical(h, c) && ApplyEffect(h, f, c) == Some(e)
  }

  ghost predicate Truthful(h: Host, w: World) {
    && w.disk.Readable?
    && w.disk.file.classificationValid
    && FaultMatchesState(w.disk.file)
    && match w.disk.file.activeFault
       case None => w.disk.file.state == Conformant && IsCanonical(h, w.env)
       case Some(a) => w.disk.file.state == Degraded && a.id.Known? && DamagedBy(h, a.id.fault, w.env)
  }

  lemma RecoverGoesThrough(h: Host, f: FaultId, c: Env, e: Env)
    requires IsCanonical(h, c) && ApplyEffect(h, f, c) == Some(e)
    requires h.accepts(h.nginxText)
    ensures RecoverEffect(h, f, e).Some?
  {
    hide Restart, ReplaceFirst, Pattern, Replacement, ChaosText, Fillers;
    assert CleanAt(h, c, AConfig);
    assert CleanAt(h, c, ABinary) && CleanAt(h, c, AStateDir);
  }

  lemma RecoveredIsClean(h: Host, f: FaultId, c: Env, e: Env, e0: Env, a: Aspect)
    requires IsReversible(f) && IsCanonical(h, c)
    requires ApplyEffect(h, f, c) == Some(e) && RecoverEffect(h, f, e) == Some(e0)
    ensures CleanAt(h, e0, a)
  {
    hide ApplyEffect, RecoverEffect, RepairedAt, CleanAt;
    SingleDamageIsRepaired(h, f, c, e, a);
    RecoverRepairs(h, f, e, e0, a);
  }

  /** On a singly damaged environment of a working nginx, a reset by any of the three tiers goes through. */
  lemma ResetGoesThrough(h: Host, f: FaultId, tier: Tier, c: Env, e: Env)
    requires IsCanonical(h, c) && ApplyEffect(h, f, c) == Some(e)
    requires h.accepts(h.nginxText) && !tier.OtherTier?
    ensures ResetEffect(h, tier, Some(Known(f)), e).Some?
  {
    hide ApplyEffect, RecoverEffect, TierEffect, CleanAt, Skeleton;
    CanonicalStart(h, c);
    ApplyKeepsSkeleton(h, f, c, e);
    if IsReversible(f) {
      RecoverGoesThrough(h, f, c, e);
      var e0 := RecoverEffect(h, f, e).value;
      RecoverKeepsSkeleton(h, f, e, e0);
      RecoveredIsClean(h, f, c, e, e0, ANginx);
      TierGoesThrough(h, tier, e0);
    } else {
      assert CleanAt(h, c, ANginx);
      ApplyScars(h, f, c, e, ANginx);
      TierGoesThrough(h, tier, e);
    }
  }

  lemma TierGoesThrough(h: Host, tier: Tier, e: Env)
    requires Skeleton(e) && CleanAt(h, e, ANginx)
    requires h.accepts(h.nginxText) && !tier.OtherTier?
    ensures TierEffect(h, tier, e).Some?
  {
    hide Restart;
    R2Meaning(h, e);
    RestartScarsNothing(h, e);
    assert SameAt(e, Restart(h, e), ANginx);
  }

  lemma NoneForced(h: Host, c: Env)
    ensures ForcedApplies(h, c, []) == Some(c)
  {
  }

  /** From a single fault on a canonical environment, the automatic reset restores a canonical one. */
  lemma SingleResetRestores(h: Host, f: FaultId, e: Env, r: Env)
    requires Sound(h) && DamagedBy(h, f, e)
    requires ResetEffect(h, ResetTier(f), Some(Known(f)), e) == Some(r)
    ensures IsCanonical(h, r)
  {
    hide Sound, IsCanonical, ApplyEffect, ResetEffect, ForcedApplies;
    var c :| IsCanonical(h, c) && ApplyEffect(h, f, c) == Some(e);
    NoneForced(h, c);
    OneMoreForced(h, c, [], f, c, e);
    ForcedFaultsThenReset(h, c, [], f, e, r);
  }

  /** The automatic reset of a single fault goes through, and the suite accepts what it leaves. */
  lemma SingleResetSucceeds(h: Host, f: FaultId, e: Env) returns (r: Env)
    requires Sound(h) && DamagedBy(h, f, e)
    ensures ResetEffect(h, ResetTier(f), Some(Known(f)), e) == Some(r)
    ensures IsCanonical(h, r) && Suite(h.observe(r)).classification.IsConformant()
  {
    var c :| IsCanonical(h, c) && ApplyEffect(h, f, c) == Some(e);
    ResetGoesThrough(h, f, ResetTier(f), c, e);
    r := ResetEffect(h, ResetTier(f), Some(Known(f)), e).value;
    SingleResetRestores(h, f, e, r);
    CanonicalConforms(h, r);
  }

  lemma ResetStaysTruthful(h: Host, w: World, now: nat, w': World)
    requires Sound(h) && Truthful(h, w)
    requires ResetSteps(h, w, None, now, w')
    ensures Truthful(h, w')
  {
    hide IsCanonical, ResetEffect, Suite, DamagedBy;
    var sf := w.disk.file;
    if sf.activeFault.Some? {
      var f := sf.activeFault.value.id.fault;
      var r := SingleResetSucceeds(h, f, w.env);
      assert FaultOf(sf) == Some(Known(f)) && ChosenTier(None, sf) == ResetTier(f);
      assert w' == World(r, Readable(ResetRecordOf(sf, ResetTier(f), Suite(h.observe(r)), now)));
    } else {
      CanonicalConforms(h, w.env);
      assert NothingToDo(h, w.env, sf);
    }
  }

  lemma ApplyStaysTruthful(h: Host, w: World, name: FaultName, yes: bool, now: nat, w': World)
    requires Sound(h) && Truthful(h, w)
    requires Steps(h, w, DoApply(name, false, yes), now, w')
    ensures Truthful(h, w')
  {
    hide Sound, IsCanonical, ApplyEffect, Suite;
    if Guard(name, w.disk, h.observe(w.env), false, yes, true) {
      ApplySucceeds(h, name.fault, w.env);
      assert DamagedBy(h, name.fault, w'.env);
    }
  }

  lemma ProvisionStaysTruthful(h: Host, w: World, now: nat, w': World)
    requires Sound(h) && Steps(h, w, DoProvision, now, w')
    ensures Truthful(h, w')
  {
    hide IsCanonical, Suite;
    assert IsCanonical(h, w'.env);
    CanonicalConforms(h, w'.env);
  }

  lemma ObservationStaysTruthful(h: Host, w: World, cmd: Command, now: nat, w': World)
    requires Sound(h) && Truthful(h, w) && (cmd == DoStatus || cmd == DoValidate)
    requires Steps(h, w, cmd, now, w')
    ensures Truthful(h, w')
  {
    hide IsCanonical, Suite, DamagedBy, StatusEvidence;
    if cmd == DoStatus {
      var a := h.observe(w.env);
      if w.disk.file.activeFault.None? {
        CanonicalConforms(h, w.env);
        ConformantSuiteLooksHealthy(a);
      }
      SettledMeansQuiet(w.disk, a);
    }
  }

  /** Every plain command keeps the record truthful about the environment. */
  lemma StepStaysTruthful(h: Host, w: World, cmd: Command, now: nat, w': World)
    requires Sound(h) && Truthful(h, w) && IsPlain(cmd)
    requires Steps(h, w, cmd, now, w')
    ensures Truthful(h, w')
  {
    hide Sound, Truthful, ResetSteps, Guard;
    match cmd
    case DoApply(name, force, yes) => ApplyStaysTruthful(h, w, name, yes, now, w');
    case DoReset(tier) => ResetStaysTruthful(h, w, now, w');
    case DoProvision => ProvisionStaysTruthful(h, w, now, w');
    case DoStatus => ObservationStaysTruthful(h, w, cmd, now, w');
    case DoValidate => ObservationStaysTruthful(h, w, cmd, now, w');
  }

  lemma TruthfulIsNotBroken(h: Host, w: World)
    requires Truthful(h, w)
    ensures w.disk.Readable? && w.disk.file.state != Broken
  {
    hide IsCanonical, DamagedBy;
  }

  /** A run: each world is a step from the one before. */
  ghost predicate Runs(h: Host, worlds: seq<World>, cmds: seq<Command>, times: seq<nat>) {
    && |worlds| == |cmds| + 1 && |times| == |cmds|
    && forall i | 0 <= i < |cmds| :: Steps(h, worlds[i], cmds[i], times[i], worlds[i + 1])
  }

  /**
   * From a truthful world every plain run stays truthful: CONFORMANT with a canonical environment, or
   * DEGRADED with exactly the recorded fault applied to a canonical one. BROKEN is never recorded.
   */
  lemma {:induction false} PlainRunsStayTruthful(
      h: Host, worlds: seq<World>, cmds: seq<Command>, times: seq<nat>, n: nat)
    requires Sound(h) && Runs(h, worlds, cmds, times)
    requires forall cmd | cmd in cmds :: IsPlain(cmd)
    requires Truthful(h, worlds[0]) && n < |worlds|
    ensures Truthful(h, worlds[n])
    ensures worlds[n].disk.Readable? && worlds[n].disk.file.state != Broken
  {
    hide Sound, Steps, Truthful;
    if n > 0 {
      PlainRunsStayTruthful(h, worlds, cmds, times, n - 1);
      StepStaysTruthful(h, worlds[n - 1], cmds[n - 1], times[n - 1], worlds[n]);
    }
    TruthfulIsNotBroken(h, worlds[n]);
  }

  // ---- a record that is no longer true ----

  /**
   * An automatic reset of a CONFORMANT record without a fault looks for itself. It does nothing exactly
   * where every blocking check passes; otherwise it runs R2 and records what the checks then say.
   */
  lemma ConformantRecordIsChecked(h: Host, w: World, now: nat, w': World)
    requires w.disk.Readable? && w.disk.file.state == Conformant && w.disk.file.activeFault.None?
    requires ResetSteps(h, w, None, now, w')
    ensures (forall id | BlockingId(id) :: Passes(h.observe(w.env), id)) ==> w' == w
    ensures (exists id | BlockingId(id) :: !Passes(h.observe(w.env), id)) ==>
              if TierEffect(h, R2, w.env).None? then w'.disk == w.disk
              else
                && (forall a | a in R2_COVERED :: CleanAt(h, w'.env, a))
                && (forall a | a !in R2_COVERED :: SameAt(w.env, w'.env, a)) && SameElsewhere(w.env, w'.env)
                && w'.disk.Readable?
                && w'.disk.file.lastReset == Some(ResetRecord(now, R2, Conformant, None))
                && (w'.disk.file.state == Conformant <==>
                      forall id | BlockingId(id) :: Passes(h.observe(w'.env), id))
  {
    hide Suite, TierEffect, ResetLeaves, CleanAt, SameAt, SameElsewhere;
    SuiteConformantMeaning(h.observe(w.env));
    SuiteConformantMeaning(h.observe(w'.env));
    if TierEffect(h, R2, w.env).Some? && !Suite(h.observe(w.env)).classification.IsConformant() {
      forall a
        ensures a in R2_COVERED ==> CleanAt(h, w'.env, a)
        ensures a !in R2_COVERED ==> SameAt(w.env, w'.env, a)
        ensures SameElsewhere(w.env, w'.env)
      {
        R2Coverage(h, w.env, w'.env, a);
      }
      R2Coverage(h, w.env, w'.env, AConfig);
    }
  }

  // ---- explicit tiers ----

  lemma RecoverLoadsUnit(h: Host, f: FaultId, e: Env, e0: Env)
    requires IsReversible(f) && RecoverEffect(h, f, e) == Some(e0) && UnitLoaded(e)
    ensures UnitLoaded(e0)
  {
    match f
    case F006 | F013 =>
      RestartScarsNothing(h, DaemonReload(Environment.RestoreFile(h, e, UnitFilePath).value));
    case _ => RecoverSame(h, f, e, e0, AUnit);
  }

  /**
   * Whatever tier is asked for on a singly damaged environment, a reset that goes through restores it
   * exactly when the fault is reversible or the tier is R3.
   */
  lemma ExplicitTierRestores(h: Host, f: FaultId, tier: Tier, c: Env, e: Env, r: Env)
    requires Sound(h) && IsCanonical(h, c) && ApplyEffect(h, f, c) == Some(e)
    requires ResetEffect(h, tier, Some(Known(f)), e) == Some(r)
    ensures IsCanonical(h, r) <==> IsReversible(f) || tier == R3
  {
    hide Sound, IsCanonical, ApplyEffect, ResetEffect, ForcedApplies, RepairedAt;
    NoneForced(h, c);
    OneMoreForced(h, c, [], f, c, e);
    ForcedFaultsThenExplicitReset(h, c, [], f, tier, e, r);
    if IsReversible(f) {
      forall a ensures RepairedAt(h, f, e, a) {
        SingleDamageIsRepaired(h, f, c, e, a);
      }
    }
  }

  lemma SingleDamageIsRepaired(h: Host, f: FaultId, c: Env, e: Env, a: Aspect)
    requires IsReversible(f) && IsCanonical(h, c) && ApplyEffect(h, f, c) == Some(e)
    ensures RepairedAt(h, f, e, a)
  {
    CanonicalIsClean(h, c, a);
    if a !in Scar(f) {
      hide ApplyEffect, CleanAt;
      ApplyScars(h, f, c, e, a);
    } else if f == F003 {
      assert e.fs[ConfigPath].(mode := MODE_CONFIG) == c.fs[ConfigPath];
    }
  }

  lemma ChaosOutlivesLowTier(h: Host, f: FaultId, tier: Tier, c: Env, e: Env, r: Env)
    requires !IsReversible(f) && (tier == R1 || tier == R2)
    requires ApplyEffect(h, f, c) == Some(e) && TierEffect(h, tier, e) == Some(r)
    ensures !CleanAt(h, r, AChaos)
  {
    hide ApplyEffect, TierEffect, CleanAt, SameAt, Synced, Skeleton;
    ChaosIsDamage(h, f, c, e);
    if tier == R1 {
      R1Coverage(h, e, r, AChaos);
    } else {
      R2Coverage(h, e, r, AChaos);
    }
    if CleanAt(h, r, AChaos) {
      CleanGoesBack(h, e, r, AChaos);
    }
  }

  /**
   * After any series of forced faults, the last one being f, a reset by any of the three tiers that goes
   * through restores a canonical environment exactly when the tier is R3, or f is reversible and each
   * aspect the tier does not cover is undamaged or repaired by the Recover of f.
   */
  lemma ForcedFaultsThenExplicitReset(
      h: Host, c: Env, earlier: seq<FaultId>, f: FaultId, tier: Tier, e: Env, r: Env)
    requires Sound(h) && IsCanonical(h, c)
    requires ForcedApplies(h, c, earlier + [f]) == Some(e)
    requires ResetEffect(h, tier, Some(Known(f)), e) == Some(r)
    ensures IsCanonical(h, r) <==>
            tier == R3 || (IsReversible(f) && forall a | a !in TierCovered(tier) :: RepairedAt(h, f, e, a))
  {
    if tier == R3 {
      hide ForcedApplies, RecoverEffect, IsCanonical;
    } else if !IsReversible(f) {
      hide Sound, ApplyEffect, TierEffect, ForcedApplies;
      var m := LastForced(h, c, earlier, f, e);
      ChaosOutlivesLowTier(h, f, tier, m, e, r);
    } else {
      hide Sound, IsCanonical, ForcedApplies, RecoverEffect, TierEffect, RepairedAt, Skeleton, UnitLoaded;
      var e0 := RecoverEffect(h, f, e).value;
      CanonicalStart(h, c);
      ForcedKeeps(h, c, earlier + [f], e);
      RecoverKeepsSkeleton(h, f, e, e0);
      RecoverLoadsUnit(h, f, e, e0);
      RestoredExactly(h, f, tier, e, e0, r);
    }
  }

  lemma RestoredExactly(h: Host, f: FaultId, tier: Tier, e: Env, e0: Env, r: Env)
    requires Sound(h) && IsReversible(f) && (tier == R1 || tier == R2)
    requires RecoverEffect(h, f, e) == Some(e0) && TierEffect(h, tier, e0) == Some(r)
    requires Skeleton(e0) && UnitLoaded(e0)
    ensures IsCanonical(h, r) <==> forall a | a !in TierCovered(tier) :: RepairedAt(h, f, e, a)
  {
    hide Sound, IsCanonical, RecoverEffect, TierEffect, RepairedAt, CleanAt, Skeleton, UnitLoaded, Synced, ComesUp;
    forall a ensures CleanAt(h, r, a) <==> a in TierCovered(tier) || RepairedAt(h, f, e, a) {
      RecoverRepairs(h, f, e, e0, a);
      TierKeepsExactly(h, tier, e0, r, a);
    }
    if forall a :: CleanAt(h, r, a) {
      TierLoadsUnit(h, tier, e0, r);
      EverythingClean(h, r);
      CleanAndSynced(h, r);
      SyncedRuns(h, r);
      RunningHasLog(h, tier, e0, r);
    } else {
      var a :| !CleanAt(h, r, a);
      DamagedIsNotCanonical(h, r, a);
    }
  }

  lemma TierKeepsExactly(h: Host, tier: Tier, e0: Env, r: Env, a: Aspect)
    requires tier == R1 || tier == R2
    requires TierEffect(h, tier, e0) == Some(r)
    ensures CleanAt(h, r, a) <==> a in TierCovered(tier) || CleanAt(h, e0, a)
  {
    hide TierEffect, CleanAt, SameAt;
    if tier == R1 {
      R1Coverage(h, e0, r, a);
    } else {
      R2Coverage(h, e0, r, a);
    }
    if a !in TierCovered(tier) {
      if CleanAt(h, e0, a) {
        SameKeepsClean(h, e0, r, a);
      }
      if CleanAt(h, r, a) {
        CleanGoesBack(h, e0, r, a);
      }
    }
  }

  /** A tier after which the unit file is canonical has the canonical unit loaded. */
  lemma TierLoadsUnit(h: Host, tier: Tier, e0: Env, r: Env)
    requires tier == R1 || tier == R2
    requires TierEffect(h, tier, e0) == Some(r)
    requires Skeleton(e0) && UnitLoaded(e0) && CleanAt(h, r, AUnit)
    ensures Synced(h, r) && Skeleton(r) && r.loadedUnit == Some(h.unitText)
  {
    hide TierEffect, Skeleton, Synced;
    if tier == R1 {
      R1Coverage(h, e0, r, AUnit);
    } else {
      R2Syncs(h, e0, r);
    }
  }

  /**
   * So an explicit R1 or R2 on F-008 or F-014 leaves chaos.env set and takes the fault off the record,
   * which then says CONFORMANT exactly where the suite does not see the damage.
   */
  lemma LowTierRecordsFalsely(h: Host, w: World, tier: Tier, now: nat, w': World)
    requires Sound(h) && Truthful(h, w)
    requires tier == R1 || tier == R2
    requires w.disk.file.activeFault.Some? && !IsReversible(w.disk.file.activeFault.value.id.fault)
    requires ResetSteps(h, w, Some(tier), now, w')
    ensures !Truthful(h, w') && !IsCanonical(h, w'.env)
    ensures w'.disk.Readable? && w'.disk.file.activeFault.None?
    ensures w'.disk.file.state == Conformant <==> forall id | BlockingId(id) :: Passes(h.observe(w'.env), id)
  {
    hide ApplyEffect, Suite, ResetEffect;
    SuiteConformantMeaning(h.observe(w'.env));
    var f := w.disk.file.activeFault.value.id.fault;
    var c :| IsCanonical(h, c) && ApplyEffect(h, f, c) == Some(w.env);
    ResetGoesThrough(h, f, tier, c, w.env);
    var r := ResetEffect(h, tier, Some(Known(f)), w.env).value;
    ExplicitTierRestores(h, f, tier, c, w.env, r);
  }

  /** The hypotheses can be met: a host whose observer sees nothing, where F-008 was applied and R1 is asked for. */
  lemma LowTierCanRecordConformant(config: string, unit: string, nginx: string, now: nat)
    returns (h: Host, w: World, w': World)
    ensures Sound(h) && Truthful(h, w) && w.disk.file.activeFault.Some?
    ensures w.disk.file.activeFault.value.id == Known(F008)
    ensures ResetSteps(h, w, Some(R1), now, w')
    ensures w'.disk.Readable? && w'.disk.file.state == Conformant && w'.disk.file.activeFault.None?
    ensures !IsCanonical(h, w'.env)
  {
    hide Sound, IsCanonical, ApplyEffect, ResetEffect, Suite, Pristine, ResetLeaves;
    h := WorkingHostExists(config, unit, nginx);
    var c := Pristine(config, unit, nginx);
    ApplySucceeds(h, F008, c);
    var e := ApplyEffect(h, F008, c).value;
    w := World(e, Readable(AppliedRecord(Fresh(Conformant, now), F008, false, now)));
    assert DamagedBy(h, F008, e);
    SoundAcceptsNginx(h);
    ResetGoesThrough(h, F008, R1, c, e);
    var r := ResetEffect(h, R1, Some(Known(F008)), e).value;
    w' := World(r, Readable(ResetRecordOf(w.disk.file, R1, Suite(h.observe(r)), now)));
    LowTierRecordsFalsely(h, w, R1, now, w');
  }

  // ---- an unknown tier ----

  /** A reset that asks for an unknown tier fails, after the Recover of a known reversible fault. */
  lemma UnknownTierLeaves(h: Host, text: string, fault: Option<FaultName>, e: Env)
    ensures ResetEffect(h, OtherTier(text), fault, e).None?
    ensures ResetLeaves(h, OtherTier(text), fault, e) ==
            if RecoversFirst(fault) then RecoverLeaves(h, fault.value.fault, e) else e
  {
    hide RecoverEffect;
  }

  /**
   * So from a truthful DEGRADED record a reset with an unknown tier leaves the record as it is and
   * changes the environment exactly when the fault is reversible and its Apply had something to change.
   */
  lemma UnknownTierStillRecovers(h: Host, w: World, text: string, now: nat, w': World)
    requires Sound(h) && Truthful(h, w) && w.disk.file.activeFault.Some?
    requires ResetSteps(h, w, Some(OtherTier(text)), now, w')
    ensures var f := w.disk.file.activeFault.value.id.fault;
            && w'.disk == w.disk
            && (w'.env != w.env <==> IsReversible(f) && !EditFindsNothing(h, f))
  {
    hide Sound, IsCanonical, ApplyEffect, RecoverEffect, ResetEffect, ResetLeaves, EditFindsNothing, EditsText;
    var f := w.disk.file.activeFault.value.id.fault;
    var c :| IsCanonical(h, c) && ApplyEffect(h, f, c) == Some(w.env);
    UnknownTierLeaves(h, text, Some(Known(f)), w.env);
    if IsReversible(f) {
      SoundAcceptsNginx(h);
      RecoverGoesThrough(h, f, c, w.env);
      var e0 := RecoverEffect(h, f, w.env).value;
      assert w'.env == e0;
      if EditFindsNothing(h, f) {
        EmptyEditIsNoDamage(h, f, c, w.env);
        RecoverOfCanonical(h, f, c);
      } else {
        RecoverChanges(h, f, c, w.env, e0);
      }
    }
  }

  /** Recovering from an edit that changed nothing changes nothing. */
  lemma RecoverOfCanonical(h: Host, f: FaultId, c: Env)
    requires Sound(h) && IsCanonical(h, c) && EditFindsNothing(h, f)
    ensures RecoverEffect(h, f, c) == Some(c)
  {
    hide ReplaceFirst, Pattern, Replacement;
    CanonicalComesUp(h, c);
    SoundAcceptsNginx(h);
    hide Sound;
    assert CleanAt(h, c, AConfig) && CleanAt(h, c, AUnit) && CleanAt(h, c, ANginx);
    RewriteSettles(c, EditedPath(f));
  }

  /** Recover undoes damage that was there, or puts back the log that F-010 removed. */
  lemma RecoverChanges(h: Host, f: FaultId, c: Env, e: Env, e0: Env)
    requires Sound(h) && IsReversible(f) && IsCanonical(h, c) && !EditFindsNothing(h, f)
    requires ApplyEffect(h, f, c) == Some(e) && RecoverEffect(h, f, e) == Some(e0)
    ensures e0 != e
  {
    hide ApplyEffect, RecoverEffect, CleanAt, EditFindsNothing, EditsText;
    if f == F010 {
      LogComesBack(h, c, e, e0);
    } else {
      var a :| a in Scar(f);
      assert CleanAt(h, c, a);
      if EditsText(f) {
        EditIsDamage(h, f, c, e, a);
      } else {
        ScarIsDamage(h, f, c, e, a);
      }
      RecoveredIsClean(h, f, c, e, e0, a);
    }
  }

  lemma LogComesBack(h: Host, c: Env, e: Env, e0: Env)
    requires Sound(h) && IsCanonical(h, c)
    requires ApplyEffect(h, F010, c) == Some(e) && RecoverEffect(h, F010, e) == Some(e0)
    ensures LogPath !in e.fs && LogPath in e0.fs
  {
    CanonicalComesUp(h, c);
    assert CleanAt(h, c, ALogDir);
    assert LaunchOf(e) == LaunchOf(c);
    assert OwnerWrites(MODE_LOG_DIR);
  }

  // ---- forced faults as a run ----

  /** The faults of a series of forced applies; None when there is something else in it. */
  function ForcedFaults(cmds: seq<Command>): Option<seq<FaultId>> {
    if cmds == [] then Some([])
    else
      var front :- ForcedFaults(cmds[..|cmds| - 1]);
      var cmd := cmds[|cmds| - 1];
      if cmd.DoApply? && cmd.force && cmd.yes && cmd.name.Known? then Some(front + [cmd.name.fault]) else None
  }

  /** Every Apply of the series goes through where it is run. */
  ghost predicate AppliesGoThrough(h: Host, worlds: seq<World>, faults: seq<FaultId>)
    requires |faults| <= |worlds|
  {
    forall i | 0 <= i < |faults| :: ApplyEffect(h, faults[i], worlds[i].env).Some?
  }

  /** After a series of forced applies the record names the last fault, and the environment has them all. */
  lemma {:induction false} ForcedRun(
      h: Host, worlds: seq<World>, cmds: seq<Command>, times: seq<nat>, faults: seq<FaultId>)
    requires Runs(h, worlds, cmds, times) && worlds[0].disk.Readable?
    requires ForcedFaults(cmds) == Some(faults) && |faults| == |cmds| && AppliesGoThrough(h, worlds, faults)
    ensures var end := worlds[|cmds|];
            && ForcedApplies(h, worlds[0].env, faults) == Some(end.env)
            && end.disk.Readable?
            && (faults != [] ==>
                  && end.disk.file.state == Degraded
                  && FaultOf(end.disk.file) == Some(Known(faults[|faults| - 1])))
  {
    hide ApplyEffect, ApplyLeaves;
    if cmds != [] {
      var n := |cmds| - 1;
      var front := ForcedFaults(cmds[..n]).value;
      assert faults[..n] == front by {
        ForcedFaultsLength(cmds[..n]);
      }
      ForcedRun(h, worlds[..n + 1], cmds[..n], times[..n], front);
      assert Steps(h, worlds[n], cmds[n], times[n], worlds[n + 1]);
      assert ApplyEffect(h, faults[n], worlds[n].env).Some?;
    }
  }

  lemma {:induction false} ForcedFaultsLength(cmds: seq<Command>)
    ensures ForcedFaults(cmds).Some? ==> |ForcedFaults(cmds).value| == |cmds|
  {
    if cmds != [] {
      ForcedFaultsLength(cmds[..|cmds| - 1]);
    }
  }

  /**
   * The whole story as a run: from a truthful CONFORMANT record, any series of forced applies that go
   * through and then an automatic reset, whether it goes through or not. The record is truthful again
   * exactly when no aspect outside the coverage of the last fault's reset was damaged, or it is R3.
   */
  lemma ForcedRunThenReset(h: Host, worlds: seq<World>, cmds: seq<Command>, times: seq<nat>, faults: seq<FaultId>)
    requires Runs(h, worlds, cmds + [DoReset(None)], times)
    requires Sound(h) && Truthful(h, worlds[0]) && worlds[0].disk.file.activeFault.None?
    requires ForcedFaults(cmds) == Some(faults) && faults != [] && |faults| == |cmds|
    requires AppliesGoThrough(h, worlds, faults)
    ensures var f := faults[|faults| - 1];
            Truthful(h, worlds[|cmds| + 1]) <==>
            ResetTier(f) == R3 || forall a | a !in Covered(Some(Known(f))) :: CleanAt(h, worlds[|cmds|].env, a)
  {
    hide Sound, IsCanonical, Truthful, Steps, ApplyEffect, ResetEffect, ResetSteps;
    hide ForcedApplies, ForcedFaults, CleanAt;
    var n := |cmds|;
    TruthfulStart(h, worlds[0]);
    PrefixRuns(h, worlds, cmds, times);
    ForcedRun(h, worlds[..n + 1], cmds, times[..n], faults);
    FinalReset(h, worlds[0].env, faults, worlds[n], times[n], worlds[n + 1]);
  }

  lemma FinalReset(h: Host, c: Env, faults: seq<FaultId>, w: World, now: nat, w': World)
    requires Sound(h) && IsCanonical(h, c)
    requires faults != [] && ForcedApplies(h, c, faults) == Some(w.env)
    requires w.disk.Readable? && w.disk.file.state == Degraded
    requires FaultOf(w.disk.file) == Some(Known(faults[|faults| - 1]))
    requires ResetSteps(h, w, None, now, w')
    ensures var f := faults[|faults| - 1];
            Truthful(h, w') <==> ResetTier(f) == R3 || forall a | a !in Covered(Some(Known(f))) :: CleanAt(h, w.env, a)
  {
    hide Sound, IsCanonical, Truthful, ApplyEffect, ResetEffect, ResetSteps, ForcedApplies, CleanAt, NginxAccepts;
    var f := faults[|faults| - 1];
    assert faults == faults[..|faults| - 1] + [f];
    var reset := ResetEffect(h, ResetTier(f), Some(Known(f)), w.env);
    if reset.Some? {
      ForcedFaultsThenReset(h, c, faults[..|faults| - 1], f, w.env, reset.value);
      ResetIsTruthful(h, w, f, now, w', reset.value);
    } else {
      ForcedResetGoesThrough(h, c, faults[..|faults| - 1], f, w.env);
      BlockedResetChangesNothing(h, w, now, w');
      BlockedIsNotTruthful(h, w');
      if CleanAt(h, w.env, ANginx) {
        CleanNginxIsAccepted(h, w.env);
      }
    }
  }

  /** F-010 is on record, and nginx refuses its configuration. */
  predicate Blocked(h: Host, w: World) {
    && w.disk.Readable? && w.disk.file.state == Degraded
    && FaultOf(w.disk.file) == Some(Known(F010))
    && !NginxAccepts(h, w.env)
  }

  lemma BlockedResetChangesNothing(h: Host, w: World, now: nat, w': World)
    requires Blocked(h, w) && ResetSteps(h, w, None, now, w')
    ensures w'.disk == w.disk && Blocked(h, w')
  {
    hide ResetEffect, ResetLeaves, NginxAccepts, Suite;
    LogResetNeedsNginx(h, w.env);
  }

  /** However often it is asked for, an automatic reset never gets out of this. */
  lemma {:induction false} BlockedForever(h: Host, worlds: seq<World>, cmds: seq<Command>, times: seq<nat>, n: nat)
    requires Runs(h, worlds, cmds, times) && n < |worlds|
    requires forall cmd | cmd in cmds :: cmd == DoReset(None)
    requires Blocked(h, worlds[0])
    ensures Blocked(h, worlds[n]) && worlds[n].disk == worlds[0].disk
  {
    hide ResetSteps, Blocked;
    if n > 0 {
      BlockedForever(h, worlds, cmds, times, n - 1);
      assert cmds[n - 1] in cmds;
      BlockedResetChangesNothing(h, worlds[n - 1], times[n - 1], worlds[n]);
    }
  }

  lemma BlockedIsNotTruthful(h: Host, w: World)
    requires Sound(h) && Blocked(h, w)
    ensures !Truthful(h, w)
  {
    hide IsCanonical, ApplyEffect, NginxAccepts, Sound;
    if Truthful(h, w) {
      assert DamagedBy(h, F010, w.env);
      var c :| IsCanonical(h, c) && ApplyEffect(h, F010, c) == Some(w.env);
      LogFaultKeepsNginx(h, c, w.env);
    }
  }

  lemma LogFaultKeepsNginx(h: Host, c: Env, e: Env)
    requires Sound(h) && IsCanonical(h, c) && ApplyEffect(h, F010, c) == Some(e)
    ensures NginxAccepts(h, e)
  {
    hide Sound;
    CanonicalIsClean(h, c, ANginx);
    SoundAcceptsNginx(h);
  }

  lemma CleanNginxIsAccepted(h: Host, e: Env)
    requires Sound(h) && CleanAt(h, e, ANginx)
    ensures NginxAccepts(h, e)
  {
    SoundAcceptsNginx(h);
  }

  lemma TruthfulStart(h: Host, w: World)
    requires Truthful(h, w) && w.disk.file.activeFault.None?
    ensures w.disk.Readable? && IsCanonical(h, w.env)
  {
    hide IsCanonical;
  }

  /** What an automatic reset that goes through records is truthful exactly when it restores. */
  lemma ResetIsTruthful(h: Host, w: World, f: FaultId, now: nat, w': World, r: Env)
    requires Sound(h) && ResetSteps(h, w, None, now, w')
    requires w.disk.Readable? && w.disk.file.state == Degraded && FaultOf(w.disk.file) == Some(Known(f))
    requires ResetEffect(h, ResetTier(f), Some(Known(f)), w.env) == Some(r)
    ensures Truthful(h, w') <==> IsCanonical(h, r)
  {
    hide Sound, IsCanonical, ResetEffect, ResetLeaves, Suite, DamagedBy;
    if IsCanonical(h, r) {
      CanonicalConforms(h, r);
    }
  }

  lemma PrefixRuns(h: Host, worlds: seq<World>, cmds: seq<Command>, times: seq<nat>)
    requires Runs(h, worlds, cmds + [DoReset(None)], times)
    ensures Runs(h, worlds[..|cmds| + 1], cmds, times[..|cmds|])
    ensures ResetSteps(h, worlds[|cmds|], None, times[|cmds|], worlds[|cmds| + 1])
  {
    hide ResetSteps, StatusRecord, ValidateRecordOf, Suite, ApplyEffect, ApplyLeaves;
    assert (cmds + [DoReset(None)])[|cmds|] == DoReset(None);
    forall i | 0 <= i < |cmds| ensures Steps(h, worlds[i], cmds[i], times[i], worlds[i + 1]) {
      assert (cmds + [DoReset(None)])[i] == cmds[i];
    }
  }
}
