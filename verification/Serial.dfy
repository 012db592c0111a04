/**
 * The commands that work under the mutation lock, run by any number of processes at once: fault apply,
 * reset and provision take the lock, read, mutate, observe, write and release. Only taking and
 * releasing look at the lock; every other step looks at the process's own progress alone.
 */
module Serial {
  import opened Common
  import opened Record
  import opened Environment
  import opened Canonical
  import opened Lifecycle

  type Pid = nat

  /** How far a process has come: what it read, whether it has a record to write, how its write ended. */
  datatype Progress =
    | Locked
    | HasRead(copy: Disk)
    | HasMutated(copy: Disk, record: bool)
    | HasWritten(ending: Ending)

  datatype Local = Local(job: Job, progress: Progress)

  /**
   * The shared world, the lock, the processes inside a command, and three histories: the jobs in the
   * order they took the lock, how the finished ones ended, and the worlds they started from and left.
   */
  datatype System = System(
    world: World,
    lock: Option<Pid>,
    locals: map<Pid, Local>,
    order: seq<Job>,
    endings: seq<Ending>,
    worlds: seq<World>)

  datatype Step =
    | Acquire(p: Pid, job: Job)
    | AcquireFails(p: Pid)
    | ReadRecord(p: Pid)
    | Mutate(p: Pid)
    | WriteRecord(p: Pid)
    | WriteFails(p: Pid, invalidated: bool)
    | Release(p: Pid)
    | Crash(p: Pid, env: Env)

  function Advance(s: System, p: Pid, progress: Progress): System
    requires p in s.locals
  {
    s.(locals := s.locals[p := s.locals[p].(progress := progress)])
  }

  /** The process is gone, and so is the lock file: it removed it, or a dead holder's file was reclaimed. */
  function Leave(s: System, p: Pid, world: World, ending: Ending): System {
    s.(world := world, lock := None, locals := s.locals - {p},
       endings := s.endings + [ending], worlds := s.worlds + [world])
  }

  /** How a command has ended once it may release: its write ended, or it had nothing to record. */
  function EndingOf(progress: Progress): Option<Ending> {
    match progress
    case HasWritten(ending) => Some(ending)
    case HasMutated(_, record) => if record then None else Some(Whole)
    case _ => None
  }

  /** What the environment can be when the process crashes. */
  ghost predicate CanLeave(h: Host, local: Local, e: Env, e': Env) {
    if local.progress.HasRead? then JobStopsAt(h, local.job, local.progress.copy, e, e') else e' == e
  }

  /**
   * One step of one process; None when it is not open to it. A crash while the process mutates leaves an
   * environment that its calls up to then can have left; any other crash leaves it as it was.
   */
  ghost function Next(h: Host, s: System, step: Step): Option<System> {
    match step
    case Acquire(p, job) =>
      if s.lock.None? && p !in s.locals && TakesLock(job.cmd) then
        Some(s.(lock := Some(p), locals := s.locals[p := Local(job, Locked)], order := s.order + [job]))
      else None
    case AcquireFails(p) => if s.lock.Some? && p !in s.locals then Some(s) else None
    case ReadRecord(p) =>
      if p in s.locals && s.locals[p].progress.Locked? then Some(Advance(s, p, HasRead(s.world.disk))) else None
    case Mutate(p) =>
      if p in s.locals && s.locals[p].progress.HasRead? then
        var copy := s.locals[p].progress.copy;
        var (e, record) := Mutated(h, s.locals[p].job, copy, s.world.env);
        Some(Advance(s, p, HasMutated(copy, record)).(world := s.world.(env := e)))
      else None
    case WriteRecord(p) =>
      if p in s.locals && s.locals[p].progress.HasMutated? && s.locals[p].progress.record then
        var written := Recorded(h, s.locals[p].job, s.locals[p].progress.copy, s.world.env);
        Some(Advance(s, p, HasWritten(Whole)).(world := s.world.(disk := written)))
      else None
    case WriteFails(p, invalidated) =>
      if p in s.locals && s.locals[p].progress.HasMutated? && s.locals[p].progress.record &&
         (invalidated ==> s.locals[p].job.cmd.DoApply?)
      then
        var left := if invalidated then Invalidated(s.world.disk) else s.world.disk;
        Some(Advance(s, p, HasWritten(WriteLost(invalidated))).(world := s.world.(disk := left)))
      else None
    case Release(p) =>
      if p in s.locals && EndingOf(s.locals[p].progress).Some? then
        Some(Leave(s, p, s.world, EndingOf(s.locals[p].progress).value))
      else None
    case Crash(p, env) =>
      if p in s.locals && CanLeave(h, s.locals[p], s.world.env, env) then
        var ended := EndingOf(s.locals[p].progress);
        Some(Leave(s, p, s.world.(env := env),
                   if ended.Some? then ended.value else Killed(s.locals[p].progress.HasRead?)))
      else None
  }

  ghost function After(h: Host, s: System, steps: seq<Step>): Option<System> {
    if steps == [] then Some(s)
    else
      var before :- After(h, s, steps[..|steps| - 1]);
      Next(h, before, steps[|steps| - 1])
  }

  // ---- mutual exclusion ----

  /** Whoever is inside a command holds the lock. */
  predicate OnlyHolderInside(s: System) {
    s.locals.Keys == if s.lock.Some? then {s.lock.value} else {}
  }

  lemma StepKeepsExclusion(h: Host, s: System, step: Step, s': System)
    requires OnlyHolderInside(s) && Next(h, s, step) == Some(s')
    ensures OnlyHolderInside(s')
  {
    hide Mutated, Recorded, Invalidated, CanLeave;
  }

  // ---- serialisability ----

  function Cmds(order: seq<Job>): (cmds: seq<Command>)
    ensures |cmds| == |order| && forall i | 0 <= i < |order| :: cmds[i] == order[i].cmd
  {
    seq(|order|, i requires 0 <= i < |order| => order[i].cmd)
  }

  function Times(order: seq<Job>): (times: seq<nat>)
    ensures |times| == |order| && forall i | 0 <= i < |order| :: times[i] == order[i].now
  {
    seq(|order|, i requires 0 <= i < |order| => order[i].now)
  }

  /** The finished jobs, in lock order, are a sequential run through the recorded worlds. */
  ghost predicate IsSequentialRun(h: Host, worlds: seq<World>, order: seq<Job>, endings: seq<Ending>) {
    && |worlds| == |order| + 1 && |endings| == |order|
    && forall i | 0 <= i < |order| :: Performs(h, worlds[i], order[i], endings[i], worlds[i + 1])
  }

  /** How far the world has come from the one the holder found. */
  ghost predicate PartWay(h: Host, start: World, local: Local, w: World) {
    match local.progress
    case Locked => w == start
    case HasRead(copy) => w == start && copy == start.disk
    case HasMutated(copy, record) =>
      copy == start.disk && w.disk == start.disk && Mutated(h, local.job, copy, start.env) == (w.env, record)
    case HasWritten(ending) => Performs(h, start, local.job, ending, w)
  }

  /** The jobs of the processes that are through with their commands. */
  function Finished(s: System): seq<Job> {
    if s.lock.Some? && |s.order| > 0 then s.order[..|s.order| - 1] else s.order
  }

  ghost predicate Inv(h: Host, s: System) {
    && OnlyHolderInside(s)
    && IsSequentialRun(h, s.worlds, Finished(s), s.endings)
    && (s.lock.None? ==> s.world == s.worlds[|s.worlds| - 1])
    && (s.lock.Some? ==>
          var local := s.locals[s.lock.value];
          && |s.order| > 0 && s.order[|s.order| - 1] == local.job && TakesLock(local.job.cmd)
          && PartWay(h, s.worlds[|s.worlds| - 1], local, s.world))
  }

  lemma RunGrows(h: Host, worlds: seq<World>, order: seq<Job>, endings: seq<Ending>, job: Job, ending: Ending, w: World)
    requires IsSequentialRun(h, worlds, order, endings)
    requires Performs(h, worlds[|worlds| - 1], job, ending, w)
    ensures IsSequentialRun(h, worlds + [w], order + [job], endings + [ending])
  {
    hide Performs;
  }

  /** A process that leaves has performed its command, with the ending it has come to. */
  lemma LeavingPerforms(h: Host, start: World, local: Local, w: World)
    requires TakesLock(local.job.cmd) && PartWay(h, start, local, w)
    requires EndingOf(local.progress).Some?
    ensures Performs(h, start, local.job, EndingOf(local.progress).value, w)
  {
    hide Mutated, Recorded, Steps, JobStopsAt;
    if local.progress.HasMutated? {
      PartsMakeStep(h, start, local.job);
    }
  }

  /** A process that crashes before that was killed while it mutated, or in a known environment. */
  lemma CrashPerforms(h: Host, start: World, local: Local, w: World, env: Env)
    requires PartWay(h, start, local, w) && CanLeave(h, local, w.env, env)
    requires EndingOf(local.progress).None?
    ensures Performs(h, start, local.job, Killed(local.progress.HasRead?), w.(env := env))
  {
    hide Mutated, Recorded, Steps, JobStopsAt;
  }

  lemma LeavingKeepsInv(h: Host, s: System, p: Pid, world: World, ending: Ending)
    requires Inv(h, s) && p in s.locals
    requires Performs(h, s.worlds[|s.worlds| - 1], s.locals[p].job, ending, world)
    ensures Inv(h, Leave(s, p, world, ending))
  {
    hide Performs, PartWay;
    RunGrows(h, s.worlds, Finished(s), s.endings, s.locals[p].job, ending, world);
    assert Finished(s) + [s.locals[p].job] == s.order;
  }

  lemma StepKeepsInv(h: Host, s: System, step: Step, s': System)
    requires Inv(h, s) && Next(h, s, step) == Some(s')
    ensures Inv(h, s')
  {
    hide Mutated, Recorded, Steps, Invalidated, Performs, JobStopsAt;
    StepKeepsExclusion(h, s, step, s');
    match step
    case Acquire(p, job) => assert s'.order[..|s'.order| - 1] == s.order;
    case AcquireFails(p) =>
    case ReadRecord(p) =>
    case Mutate(p) =>
    case WriteRecord(p) => PartsMakeStep(h, s.worlds[|s.worlds| - 1], s.locals[p].job);
    case WriteFails(p, invalidated) => PartsMakeStep(h, s.worlds[|s.worlds| - 1], s.locals[p].job);
    case Release(p) =>
      LeavingPerforms(h, s.worlds[|s.worlds| - 1], s.locals[p], s.world);
      LeavingKeepsInv(h, s, p, s.world, s'.endings[|s.endings|]);
    case Crash(p, env) =>
      if EndingOf(s.locals[p].progress).Some? {
        LeavingPerforms(h, s.worlds[|s.worlds| - 1], s.locals[p], s.world);
      } else {
        CrashPerforms(h, s.worlds[|s.worlds| - 1], s.locals[p], s.world, env);
      }
      LeavingKeepsInv(h, s, p, s'.world, s'.endings[|s.endings|]);
  }

  predicate Starts(s: System, w: World) {
    s == System(w, None, map[], [], [], [w])
  }

  lemma {:induction false} InvHolds(h: Host, w: World, s: System, steps: seq<Step>, s': System)
    requires Starts(s, w) && After(h, s, steps) == Some(s')
    ensures Inv(h, s') && s'.worlds[0] == w
  {
    hide Next, Performs, PartWay;
    if steps != [] {
      var before := After(h, s, steps[..|steps| - 1]).value;
      InvHolds(h, w, s, steps[..|steps| - 1], before);
      StepKeepsInv(h, before, steps[|steps| - 1], s');
      WorldsGrow(h, before, steps[|steps| - 1], s');
    }
  }

  lemma WorldsGrow(h: Host, s: System, step: Step, s': System)
    requires Next(h, s, step) == Some(s')
    ensures s.worlds <= s'.worlds
  {
    hide Mutated, Recorded, Invalidated, CanLeave;
  }

  /** However the processes interleave, at most one is inside a command at any time. */
  lemma AtMostOneInside(h: Host, w: World, s: System, steps: seq<Step>, s': System, p: Pid, q: Pid)
    requires Starts(s, w) && After(h, s, steps) == Some(s')
    ensures p in s'.locals && q in s'.locals ==> p == q
    ensures p in s'.locals ==> s'.lock == Some(p)
  {
    hide After, Performs, PartWay;
    InvHolds(h, w, s, steps, s');
    assert p in s'.locals ==> p in s'.locals.Keys;
    assert q in s'.locals ==> q in s'.locals.Keys;
  }

  /**
   * However the processes interleave, with writes that fail and processes that crash: the finished
   * commands have done to the record and the environment what they do when run one at a time in the
   * order they took the lock, and whenever the lock is free that is all that has happened.
   */
  lemma EquivalentToLockOrder(h: Host, w: World, s: System, steps: seq<Step>, s': System)
    requires Starts(s, w) && After(h, s, steps) == Some(s')
    ensures IsSequentialRun(h, s'.worlds, Finished(s'), s'.endings) && s'.worlds[0] == w
    ensures s'.lock.None? ==> Finished(s') == s'.order && s'.world == s'.worlds[|s'.worlds| - 1]
  {
    hide After, Performs, PartWay;
    InvHolds(h, w, s, steps, s');
  }

  lemma AfterNone(h: Host, s: System)
    ensures After(h, s, []) == Some(s)
  {
  }

  lemma AfterOneMore(h: Host, s: System, steps: seq<Step>, step: Step)
    requires After(h, s, steps).Some?
    ensures After(h, s, steps + [step]) == Next(h, After(h, s, steps).value, step)
  {
    assert (steps + [step])[..|steps|] == steps;
  }

  /** With the lock free, any process can run any locking command to its end, and frees the lock again. */
  lemma AnyCommandCanRun(h: Host, s: System, p: Pid, job: Job) returns (steps: seq<Step>)
    requires s.lock.None? && s.locals == map[] && TakesLock(job.cmd)
    ensures After(h, s, steps).Some?
    ensures var s' := After(h, s, steps).value;
            && s'.lock.None? && s'.locals == map[] && s'.order == s.order + [job]
            && s'.endings == s.endings + [Whole]
            && Steps(h, s.world, job.cmd, job.now, s'.world)
  {
    hide After, Mutated, Recorded, Steps;
    var (e, record) := Mutated(h, job, s.world.disk, s.world.env);
    PartsMakeStep(h, s.world, job);
    AfterNone(h, s);
    AfterOneMore(h, s, [], Acquire(p, job));
    steps := [] + [Acquire(p, job)];
    AfterOneMore(h, s, steps, ReadRecord(p));
    steps := steps + [ReadRecord(p)];
    AfterOneMore(h, s, steps, Mutate(p));
    steps := steps + [Mutate(p)];
    if record {
      AfterOneMore(h, s, steps, WriteRecord(p));
      steps := steps + [WriteRecord(p)];
    }
    AfterOneMore(h, s, steps, Release(p));
    steps := steps + [Release(p)];
    assert After(h, s, steps).value.locals.Keys == {};
  }

  // ---- without failing writes and crashes ----

  predicate IsSmooth(step: Step) {
    !step.WriteFails? && !step.Crash?
  }

  predicate EndsWhole(s: System) {
    && (forall ending | ending in s.endings :: ending == Whole)
    && (forall p | p in s.locals :: s.locals[p].progress.HasWritten? ==> s.locals[p].progress.ending == Whole)
  }

  lemma {:induction false} SmoothEndsWhole(h: Host, s: System, steps: seq<Step>, s': System)
    requires EndsWhole(s) && After(h, s, steps) == Some(s')
    requires forall step | step in steps :: IsSmooth(step)
    ensures EndsWhole(s')
  {
    hide Mutated, Recorded, CanLeave;
    if steps != [] {
      SmoothEndsWhole(h, s, steps[..|steps| - 1], After(h, s, steps[..|steps| - 1]).value);
      assert IsSmooth(steps[|steps| - 1]);
    }
  }

  /** So concurrent plain commands on a working host leave a truthful record whenever the lock is free. */
  lemma ConcurrentPlainRunsStayTruthful(h: Host, w: World, s: System, steps: seq<Step>, s': System)
    requires Sound(h) && Truthful(h, w)
    requires Starts(s, w) && After(h, s, steps) == Some(s') && s'.lock.None?
    requires forall step | step in steps :: IsSmooth(step)
    requires forall job | job in s'.order :: IsPlain(job.cmd)
    ensures Truthful(h, s'.world)
  {
    hide Sound, Truthful, After, Steps;
    EquivalentToLockOrder(h, w, s, steps, s');
    SmoothEndsWhole(h, s, steps, s');
    assert forall i | 0 <= i < |s'.endings| :: s'.endings[i] in s'.endings;
    forall cmd | cmd in Cmds(s'.order) ensures IsPlain(cmd) {
      var i :| 0 <= i < |s'.order| && Cmds(s'.order)[i] == cmd;
      assert s'.order[i] in s'.order;
    }
    PlainRunsStayTruthful(h, s'.worlds, Cmds(s'.order), Times(s'.order), |s'.worlds| - 1);
  }
}
