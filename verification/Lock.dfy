/** The mutation lock: internal/executor/lock.go. */
module Lock {
  import opened Common

  type Pid = nat

  /** The lock file: created empty, its PID written afterwards through the same descriptor. */
  datatype LockFile = Absent | Present(inode: nat, pid: Option<Pid>)

  // ---- one acquisition with nobody else about ----

  datatype Answer = Acquired | HeldBy(pid: Pid) | Refused | Retry

  /**
   * Who is running; whether the lock directory is there or can be made; whether a missing lock file can
   * be created and a stale one removed. Removal errors are ignored by the source, the others returned.
   */
  datatype Place = Place(alive: set<Pid>, directory: bool, creatable: bool, removable: bool)

  /** One pass through Acquire, and the file it leaves. */
  function AcquirePass(file: LockFile, me: Pid, at: Place): (Answer, LockFile) {
    if !at.directory then (Refused, file)
    else
      match file
      case Absent => if at.creatable then (Acquired, Present(0, Some(me))) else (Refused, file)
      case Present(_, pid) =>
        if pid.Some? && pid.value in at.alive then (HeldBy(pid.value), file)
        else (Retry, if at.removable then Absent else file)
  }

  /** The answer after at most n passes; Retry when none of them gave one. */
  function Answers(file: LockFile, me: Pid, at: Place, n: nat): (Answer, LockFile)
    decreases n
  {
    if n == 0 then (Retry, file)
    else
      var (answer, left) := AcquirePass(file, me, at);
      if answer == Retry then Answers(left, me, at, n - 1) else (answer, left)
  }

  predicate Stale(file: LockFile, alive: set<Pid>) {
    file.Present? && (file.pid.None? || file.pid.value !in alive)
  }

  /** A stale lock file that cannot be removed is in the way. */
  predicate Stuck(file: LockFile, at: Place) {
    at.directory && Stale(file, at.alive) && !at.removable
  }

  lemma {:induction false} StaleForever(file: LockFile, me: Pid, at: Place, n: nat)
    requires Stuck(file, at)
    ensures Answers(file, me, at, n) == (Retry, file)
  {
    if n > 0 {
      StaleForever(file, me, at, n - 1);
    }
  }

  /**
   * Undisturbed, Acquire answers after one retry at most, and it answers at all exactly when no stale
   * lock file that cannot be removed is in the way; otherwise it calls itself without end.
   */
  lemma AcquireAnswers(file: LockFile, me: Pid, at: Place)
    ensures (exists n: nat :: Answers(file, me, at, n).0 != Retry) <==> !Stuck(file, at)
    ensures !Stuck(file, at) ==>
              Answers(file, me, at, 2).0 != Retry &&
              (Answers(file, me, at, 1).0 == Retry <==> at.directory && Stale(file, at.alive))
    ensures forall n: nat | n >= 2 && !Stuck(file, at) :: Answers(file, me, at, n) == Answers(file, me, at, 2)
  {
    if !Stuck(file, at) {
      TwoPassesAnswer(file, me, at);
      assert Answers(file, me, at, 2).0 != Retry;
      forall n: nat | n >= 2 ensures Answers(file, me, at, n) == Answers(file, me, at, 2) {
        TwoPassesDecide(file, me, at, n);
      }
    } else {
      forall n: nat ensures Answers(file, me, at, n).0 == Retry {
        StaleForever(file, me, at, n);
      }
    }
  }

  /** Whoever is told that the lock is its own left its PID in the file, and nobody live was in the way. */
  lemma {:induction false} AcquiredMeans(file: LockFile, me: Pid, at: Place, n: nat)
    requires Answers(file, me, at, n).0 == Acquired
    ensures Answers(file, me, at, n).1 == Present(0, Some(me))
    ensures file.Absent? || Stale(file, at.alive)
    decreases n
  {
    if n > 0 && AcquirePass(file, me, at).0 == Retry {
      AcquiredMeans(AcquirePass(file, me, at).1, me, at, n - 1);
    }
  }

  /** Whoever meets a live holder is told so at once, and leaves its file alone. */
  lemma HeldMeans(file: LockFile, me: Pid, at: Place, n: nat)
    requires n > 0 && at.directory
    requires file.Present? && file.pid.Some? && file.pid.value in at.alive
    ensures Answers(file, me, at, n) == (HeldBy(file.pid.value), file)
  {
  }

  /**
   * The four outcomes of an Acquire that has two passes, and the file each leaves. The lock is acquired
   * exactly when there is a directory and no live holder, a stale file can be removed and a missing one
   * created.
   */
  lemma AcquireOutcomes(file: LockFile, me: Pid, at: Place, n: nat)
    requires n >= 2
    ensures var (answer, left) := Answers(file, me, at, n);
            && (answer == Acquired <==>
                  && at.directory && at.creatable
                  && (file.Absent? || (Stale(file, at.alive) && at.removable)))
            && (answer.HeldBy? <==>
                  at.directory && file.Present? && file.pid.Some? && file.pid.value in at.alive)
            && (answer == Refused <==>
                  || !at.directory
                  || (!at.creatable && (file.Absent? || (Stale(file, at.alive) && at.removable))))
            && (answer == Retry <==> Stuck(file, at))
            && (answer.HeldBy? ==> left == file && answer == HeldBy(file.pid.value))
            && (answer == Retry || !at.directory ==> left == file)
            && (answer == Refused && at.directory ==> left == Absent)
            && (answer == Acquired ==> left == Present(0, Some(me)))
  {
    if Stuck(file, at) {
      StaleForever(file, me, at, n);
    } else {
      TwoPassesDecide(file, me, at, n);
      var (answer, left) := AcquirePass(file, me, at);
      if answer == Retry {
        assert Answers(file, me, at, 2) == Answers(left, me, at, 1);
        assert Answers(left, me, at, 1) == AcquirePass(left, me, at);
      }
    }
  }

  lemma TwoPassesAnswer(file: LockFile, me: Pid, at: Place)
    requires !Stuck(file, at)
    ensures Answers(file, me, at, 2).0 != Retry
    ensures Answers(file, me, at, 1).0 == Retry <==> at.directory && Stale(file, at.alive)
  {
    var (answer, left) := AcquirePass(file, me, at);
    assert Answers(left, me, at, 0).0 == Retry;
    if answer == Retry {
      assert Answers(file, me, at, 2) == Answers(left, me, at, 1);
    }
  }

  lemma TwoPassesDecide(file: LockFile, me: Pid, at: Place, n: nat)
    requires n >= 2 && !Stuck(file, at)
    ensures Answers(file, me, at, n) == Answers(file, me, at, 2)
  {
    var (answer, left) := AcquirePass(file, me, at);
    if answer == Retry {
      assert Answers(file, me, at, n) == Answers(left, me, at, n - 1);
      assert Answers(left, me, at, n - 1) == AcquirePass(left, me, at);
      assert Answers(left, me, at, 1) == AcquirePass(left, me, at);
    }
  }

  /** A command's own view of the lock. */
  class Handle {
    var pid: Option<Pid>
    var open: bool

    constructor ()
      ensures pid == None && !open
    {
      pid, open := None, false;
    }

    /** Acquire with a bound on its calls of itself. */
    method Acquire(me: Pid, file: LockFile, at: Place, tries: nat) returns (answer: Answer, left: LockFile)
      modifies this
      ensures (answer, left) == Answers(file, me, at, tries)
      ensures if answer == Acquired then pid == Some(me) && open else pid == old(pid) && open == old(open)
      decreases tries
    {
      if tries == 0 {
        return Retry, file;
      }
      if !at.directory {
        return Refused, file;
      }
      if file.Absent? {
        if !at.creatable {
          return Refused, file;
        }
        pid, open := Some(me), true;
        return Acquired, Present(0, Some(me));
      }
      if file.pid.None? {
        answer, left := Acquire(me, if at.removable then Absent else file, at, tries - 1);
        return;
      }
      if file.pid.value !in at.alive {
        answer, left := Acquire(me, if at.removable then Absent else file, at, tries - 1);
        return;
      }
      return HeldBy(file.pid.value), file;
    }

    /** Release removes the file only if this handle took the lock; a second call does nothing. */
    method Release(me: Pid, file: LockFile) returns (left: LockFile)
      requires pid.Some? ==> pid.value == me
      modifies this
      ensures left == if old(pid).Some? then Absent else file
      ensures pid == None && !open
    {
      open := false;
      left := file;
      if pid == Some(me) {
        left := Absent;
        pid := None;
      }
    }
  }

  // ---- many processes, one file operation at a time ----

  /** Where a process stands. A crashed process keeps its last phase and is not in `alive`. */
  datatype Phase =
    | Idle
    | Created(inode: nat)
    | Holding(inode: nat)
    | SawFile
    | SawPid(pid: Pid)
    | Doomed
    | Denied

  datatype System = System(file: LockFile, phase: map<Pid, Phase>, alive: set<Pid>, inodes: nat)

  function At(s: System, p: Pid): Phase {
    if p in s.phase then s.phase[p] else Idle
  }

  datatype Step =
    | Create(p: Pid)
    | CreateFails(p: Pid)
    | WritePid(p: Pid)
    | ReadFile(p: Pid)
    | CheckRunning(p: Pid)
    | RemoveStale(p: Pid)
    | Release(p: Pid)
    | Crash(p: Pid)
    | CreateWithPid(p: Pid)
    | ReclaimDead(p: Pid)

  /** The steps of the code as it is: every file operation by itself. */
  predicate IsFine(step: Step) {
    !step.CreateWithPid? && !step.ReclaimDead?
  }

  /** The steps of a lock that creates the file with its PID and checks and removes a dead one at once. */
  predicate IsCoarse(step: Step) {
    step.CreateWithPid? || step.CreateFails? || step.ReclaimDead? || step.Release? || step.Crash?
  }

  function Move(s: System, p: Pid, to: Phase): System {
    s.(phase := s.phase[p := to])
  }

  /** One file operation of one live process; None when the step is not open to it. */
  function Next(s: System, step: Step): Option<System> {
    if step.p !in s.alive then None
    else
      match step
      case Create(p) =>
        if At(s, p) == Idle && s.file.Absent? then
          Some(Move(s, p, Created(s.inodes)).(file := Present(s.inodes, None), inodes := s.inodes + 1))
        else None
      case CreateFails(p) =>
        if At(s, p) == Idle && s.file.Present? then Some(Move(s, p, SawFile)) else None
      case WritePid(p) =>
        if At(s, p).Created? then
          // The write goes to the file that was created, wherever its name points by now.
          var inode := At(s, p).inode;
          var written := Move(s, p, Holding(inode));
          Some(if s.file.Present? && s.file.inode == inode then written.(file := Present(inode, Some(p))) else written)
        else None
      case ReadFile(p) =>
        if At(s, p) == SawFile then
          Some(Move(s, p, if s.file.Present? && s.file.pid.Some? then SawPid(s.file.pid.value) else Doomed))
        else None
      case CheckRunning(p) =>
        if At(s, p).SawPid? then Some(Move(s, p, if At(s, p).pid in s.alive then Denied else Doomed)) else None
      case RemoveStale(p) =>
        if At(s, p) == Doomed then Some(Move(s, p, Idle).(file := Absent)) else None
      case Release(p) =>
        if At(s, p).Holding? then Some(Move(s, p, Idle).(file := Absent)) else None
      case Crash(p) => Some(s.(alive := s.alive - {p}))
      case CreateWithPid(p) =>
        if At(s, p) == Idle && s.file.Absent? then
          Some(Move(s, p, Holding(s.inodes)).(file := Present(s.inodes, Some(p)), inodes := s.inodes + 1))
        else None
      case ReclaimDead(p) =>
        if At(s, p) == SawFile then
          if s.file.Present? && (s.file.pid.None? || s.file.pid.value !in s.alive)
          then Some(Move(s, p, Idle).(file := Absent))
          else Some(Move(s, p, if s.file.Present? then Denied else Idle))
        else None
  }

  /** The state after a series of steps, if each was open. */
  function After(s: System, steps: seq<Step>): Option<System> {
    if steps == [] then Some(s)
    else
      var before :- After(s, steps[..|steps| - 1]);
      Next(before, steps[|steps| - 1])
  }

  /** A process that has come out of Acquire with the lock, its PID written or not. */
  predicate Holds(s: System, p: Pid) {
    At(s, p).Created? || At(s, p).Holding?
  }

  predicate NobodyAbout(s: System) {
    s.file.Absent? && s.phase == map[]
  }

  /** Whoever took the lock, even if it crashed since, took the file that is there. */
  ghost predicate HoldersOwnFile(s: System) {
    forall p | Holds(s, p) :: s.file.Present? && s.file.inode == At(s, p).inode
  }

  ghost predicate OwnInodes(s: System) {
    && (forall p | Holds(s, p) :: At(s, p).inode < s.inodes)
    && (forall p, q | Holds(s, p) && Holds(s, q) && At(s, p).inode == At(s, q).inode :: p == q)
  }

  lemma FineStepKeeps(s: System, step: Step, s': System)
    requires HoldersOwnFile(s) && OwnInodes(s)
    requires Next(s, step) == Some(s') && IsFine(step) && !step.RemoveStale?
    ensures HoldersOwnFile(s') && OwnInodes(s')
  {
    forall q | q != step.p ensures At(s', q) == At(s, q) {
    }
  }

  lemma {:induction false} FineRunKeeps(s: System, steps: seq<Step>, s': System)
    requires HoldersOwnFile(s) && OwnInodes(s)
    requires forall step | step in steps :: IsFine(step) && !step.RemoveStale?
    requires After(s, steps) == Some(s')
    ensures HoldersOwnFile(s') && OwnInodes(s')
  {
    if steps != [] {
      var before := After(s, steps[..|steps| - 1]).value;
      FineRunKeeps(s, steps[..|steps| - 1], before);
      FineStepKeeps(before, steps[|steps| - 1], s');
    }
  }

  /** At the grain of single file operations, the lock excludes as long as no acquirer removes a file. */
  lemma ExclusiveWithoutReclaim(s: System, steps: seq<Step>, s': System, p: Pid, q: Pid)
    requires NobodyAbout(s)
    requires forall step | step in steps :: IsFine(step) && !step.RemoveStale?
    requires After(s, steps) == Some(s')
    ensures Holds(s', p) && Holds(s', q) ==> p == q
  {
    FineRunKeeps(s, steps, s');
  }

  // ---- which removals the lock survives ----

  predicate HoldsLive(s: System, p: Pid) {
    Holds(s, p) && p in s.alive
  }

  /** No two live processes have come out of Acquire with the lock. */
  ghost predicate Exclusive(s: System) {
    forall p, q | HoldsLive(s, p) && HoldsLive(s, q) :: p == q
  }

  /** The removal takes away the file of a live holder. */
  ghost predicate HitsLive(s: System, step: Step) {
    step.RemoveStale? && s.file.Present? && exists p :: HoldsLive(s, p) && At(s, p).inode == s.file.inode
  }

  /** No removal of the run hits; reclaiming the file of a dead process is no hit. */
  ghost predicate NoneHits(s: System, steps: seq<Step>) {
    steps == [] || (
      var front := steps[..|steps| - 1];
      && NoneHits(s, front)
      && (After(s, front).Some? ==> !HitsLive(After(s, front).value, steps[|steps| - 1])))
  }

  /** The run is exclusive at its end and at every earlier point, and stays so if anyone creates the file next. */
  ghost predicate AlwaysExclusive(s: System, steps: seq<Step>) {
    && (After(s, steps).Some? ==>
          var end := After(s, steps).value;
          Exclusive(end) && forall q | Next(end, Create(q)).Some? :: Exclusive(Next(end, Create(q)).value))
    && (steps != [] ==> AlwaysExclusive(s, steps[..|steps| - 1]))
  }

  ghost predicate LiveHoldersOwnFile(s: System) {
    forall p | HoldsLive(s, p) :: s.file.Present? && s.file.inode == At(s, p).inode
  }

  lemma HarmlessStepKeeps(s: System, step: Step, s': System)
    requires LiveHoldersOwnFile(s) && OwnInodes(s)
    requires Next(s, step) == Some(s') && IsFine(step) && !HitsLive(s, step)
    ensures LiveHoldersOwnFile(s') && OwnInodes(s')
  {
    forall q | q != step.p ensures At(s', q) == At(s, q) {
    }
    assert step.RemoveStale? ==> forall q :: !HoldsLive(s, q);
  }

  lemma {:induction false} HarmlessRunKeeps(s: System, steps: seq<Step>, s': System)
    requires LiveHoldersOwnFile(s) && OwnInodes(s)
    requires forall step | step in steps :: IsFine(step)
    requires NoneHits(s, steps) && After(s, steps) == Some(s')
    ensures LiveHoldersOwnFile(s') && OwnInodes(s')
  {
    if steps != [] {
      var before := After(s, steps[..|steps| - 1]).value;
      HarmlessRunKeeps(s, steps[..|steps| - 1], before);
      HarmlessStepKeeps(before, steps[|steps| - 1], s');
    }
  }

  lemma {:induction false} HarmlessRunIsExclusive(s: System, steps: seq<Step>)
    requires NobodyAbout(s) && After(s, steps).Some?
    requires forall step | step in steps :: IsFine(step)
    requires NoneHits(s, steps)
    ensures AlwaysExclusive(s, steps)
  {
    var end := After(s, steps).value;
    HarmlessRunKeeps(s, steps, end);
    forall q | Next(end, Create(q)).Some? ensures Exclusive(Next(end, Create(q)).value) {
      HarmlessStepKeeps(end, Create(q), Next(end, Create(q)).value);
    }
    if steps != [] {
      HarmlessRunIsExclusive(s, steps[..|steps| - 1]);
    }
  }

  /** From any state, a removal that hits lets the remover create a file of its own beside the live holder. */
  lemma HitMakesTwoHolders(s: System, q: Pid, s': System)
    requires HitsLive(s, RemoveStale(q)) && Next(s, RemoveStale(q)) == Some(s')
    ensures Next(s', Create(q)).Some? && !Exclusive(Next(s', Create(q)).value)
  {
    var p :| HoldsLive(s, p) && At(s, p).inode == s.file.inode;
    var after := Next(s', Create(q)).value;
    assert At(after, p) == At(s, p);
    assert HoldsLive(after, p) && HoldsLive(after, q);
  }

  lemma {:induction false} HitBreaksExclusion(s: System, steps: seq<Step>)
    requires After(s, steps).Some? && !NoneHits(s, steps)
    ensures !AlwaysExclusive(s, steps)
  {
    var front := steps[..|steps| - 1];
    if NoneHits(s, front) {
      HitMakesTwoHolders(After(s, front).value, steps[|steps| - 1].p, After(s, steps).value);
    } else {
      HitBreaksExclusion(s, front);
    }
  }

  /**
   * At the grain of single file operations, with crashes and reclaims: the lock excludes all through a
   * run, and whoever creates the file next, exactly when no removal takes away the file of a live holder.
   */
  lemma ExclusiveExactlyWithoutHits(s: System, steps: seq<Step>)
    requires NobodyAbout(s) && After(s, steps).Some?
    requires forall step | step in steps :: IsFine(step)
    ensures NoneHits(s, steps) <==> AlwaysExclusive(s, steps)
  {
    if NoneHits(s, steps) {
      HarmlessRunIsExclusive(s, steps);
    } else {
      HitBreaksExclusion(s, steps);
    }
  }

  /** Such a removal can come about: a file whose PID is not written yet looks malformed and is taken away. */
  lemma ReclaimBreaksExclusion(s: System, p: Pid, q: Pid)
    requires NobodyAbout(s) && p in s.alive && q in s.alive && p != q
    ensures var steps := [Create(p), CreateFails(q), ReadFile(q)];
            && After(s, steps).Some?
            && HitsLive(After(s, steps).value, RemoveStale(q))
            && After(s, steps + [RemoveStale(q)]).Some?
            && After(s, steps + [RemoveStale(q)] + [Create(q)]).Some?
            && !Exclusive(After(s, steps + [RemoveStale(q)] + [Create(q)]).value)
  {
    var steps := [Create(p), CreateFails(q), ReadFile(q)];
    assert After(s, []) == Some(s);
    AfterOneMore(s, [], Create(p));
    assert [] + [Create(p)] == [Create(p)];
    AfterOneMore(s, [Create(p)], CreateFails(q));
    assert [Create(p)] + [CreateFails(q)] == [Create(p), CreateFails(q)];
    AfterOneMore(s, [Create(p), CreateFails(q)], ReadFile(q));
    assert [Create(p), CreateFails(q)] + [ReadFile(q)] == steps;
    var seen := After(s, steps).value;
    assert HoldsLive(seen, p) && At(seen, p).inode == seen.file.inode;
    AfterOneMore(s, steps, RemoveStale(q));
    AfterOneMore(s, steps + [RemoveStale(q)], Create(q));
    HitMakesTwoHolders(seen, q, After(s, steps + [RemoveStale(q)]).value);
  }

  lemma AfterNone(s: System)
    ensures After(s, []) == Some(s)
  {
  }

  lemma AfterOneMore(s: System, steps: seq<Step>, step: Step)
    requires After(s, steps).Some?
    ensures After(s, steps + [step]) == Next(After(s, steps).value, step)
  {
    assert (steps + [step])[..|steps|] == steps;
  }

  // ---- when an acquirer comes to remove ----

  /** What a process that has seen a lock file makes of it, when nobody comes between its two steps. */
  lemma ReclaimDecision(s: System, q: Pid, s1: System)
    requires q in s.alive && At(s, q) == SawFile
    requires Next(s, ReadFile(q)) == Some(s1)
    ensures s1.file == s.file
    ensures At(s1, q) == Doomed <==> s.file.Absent? || s.file.pid.None?
    ensures s.file.Present? && s.file.pid.Some? ==>
              var s2 := Next(s1, CheckRunning(q));
              && s2.Some? && s2.value.file == s.file
              && At(s2.value, q) == if s.file.pid.value in s.alive then Denied else Doomed
  {
  }

  /** The file of a holder that has crashed is taken over by the next process that comes by. */
  lemma DeadHolderIsReplaced(s: System, q: Pid)
    requires q in s.alive && At(s, q) == Idle
    requires s.file.Present? && s.file.pid.Some? && s.file.pid.value !in s.alive
    ensures var steps := [CreateFails(q), ReadFile(q), CheckRunning(q), RemoveStale(q), Create(q), WritePid(q)];
            && After(s, steps).Some?
            && After(s, steps).value.file.Present? && After(s, steps).value.file.pid == Some(q)
            && At(After(s, steps).value, q).Holding?
  {
    hide After;
    var w1, w2 := [CreateFails(q)], [CreateFails(q), ReadFile(q)];
    var w3 := [CreateFails(q), ReadFile(q), CheckRunning(q)];
    var w4 := [CreateFails(q), ReadFile(q), CheckRunning(q), RemoveStale(q)];
    var w5 := [CreateFails(q), ReadFile(q), CheckRunning(q), RemoveStale(q), Create(q)];
    AfterNone(s);
    AfterOneMore(s, [], CreateFails(q));
    assert [] + [CreateFails(q)] == w1;
    AfterOneMore(s, w1, ReadFile(q));
    assert w1 + [ReadFile(q)] == w2;
    AfterOneMore(s, w2, CheckRunning(q));
    assert w2 + [CheckRunning(q)] == w3;
    AfterOneMore(s, w3, RemoveStale(q));
    assert w3 + [RemoveStale(q)] == w4;
    AfterOneMore(s, w4, Create(q));
    assert w4 + [Create(q)] == w5;
    AfterOneMore(s, w5, WritePid(q));
    assert w5 + [WritePid(q)] == [CreateFails(q), ReadFile(q), CheckRunning(q), RemoveStale(q), Create(q), WritePid(q)];
  }

  /** A ReadFile that finds a PID: the file is there, and its writer had written it. */
  predicate FindsPid(s: System, step: Step) {
    step.ReadFile? ==> s.file.Present? && s.file.pid.Some?
  }

  predicate ReadsFindPids(s: System, steps: seq<Step>) {
    steps == [] || (
      var front := steps[..|steps| - 1];
      && ReadsFindPids(s, front)
      && (After(s, front).Some? ==> FindsPid(After(s, front).value, steps[|steps| - 1])))
  }

  /** Nobody is about to remove, and the PIDs in the file and in anyone's hands are of live processes. */
  ghost predicate NobodyDoomed(s: System) {
    && (forall p :: At(s, p) != Doomed)
    && (forall p | At(s, p).SawPid? :: At(s, p).pid in s.alive)
    && (s.file.Present? && s.file.pid.Some? ==> s.file.pid.value in s.alive)
  }

  lemma CalmStepKeeps(s: System, step: Step, s': System)
    requires NobodyDoomed(s) && FindsPid(s, step)
    requires Next(s, step) == Some(s') && IsFine(step) && !step.Crash?
    ensures NobodyDoomed(s') && !step.RemoveStale?
  {
    forall q | q != step.p ensures At(s', q) == At(s, q) {
    }
  }

  /**
   * Without crashes, and as long as nobody reads the file before its PID is written or after it is gone, no
   * acquirer ever comes to remove, so the lock excludes all through.
   */
  lemma {:induction false} CalmRunsRemoveNothing(s: System, steps: seq<Step>, s': System)
    requires NobodyAbout(s) && After(s, steps) == Some(s')
    requires forall step | step in steps :: IsFine(step) && !step.Crash?
    requires ReadsFindPids(s, steps)
    ensures NobodyDoomed(s') && forall step | step in steps :: !step.RemoveStale?
    ensures forall q :: Next(s', RemoveStale(q)).None?
    ensures Exclusive(s')
  {
    if steps != [] {
      var n := |steps| - 1;
      var before := After(s, steps[..n]).value;
      CalmRunsRemoveNothing(s, steps[..n], before);
      assert steps[n] in steps;
      CalmStepKeeps(before, steps[n], s');
      assert forall step | step in steps :: step in steps[..n] || step == steps[n];
    }
    forall p, q ensures HoldsLive(s', p) && HoldsLive(s', q) ==> p == q {
      ExclusiveWithoutReclaim(s, steps, s', p, q);
    }
  }

  // ---- the coarser lock ----

  /** A live holder's PID is in the file. */
  ghost predicate LiveHoldersNamed(s: System) {
    forall p | Holds(s, p) && p in s.alive :: s.file.Present? && s.file.pid == Some(p)
  }

  lemma CoarseStepKeeps(s: System, step: Step, s': System)
    requires LiveHoldersNamed(s)
    requires Next(s, step) == Some(s') && IsCoarse(step)
    ensures LiveHoldersNamed(s')
  {
    forall q | q != step.p ensures At(s', q) == At(s, q) {
    }
  }

  lemma {:induction false} CoarseRunKeeps(s: System, steps: seq<Step>, s': System)
    requires LiveHoldersNamed(s)
    requires forall step | step in steps :: IsCoarse(step)
    requires After(s, steps) == Some(s')
    ensures LiveHoldersNamed(s')
  {
    if steps != [] {
      var before := After(s, steps[..|steps| - 1]).value;
      CoarseRunKeeps(s, steps[..|steps| - 1], before);
      CoarseStepKeeps(before, steps[|steps| - 1], s');
    }
  }

  /** With PID-at-creation and an atomic reclaim, no two live processes hold the lock, crashes included. */
  lemma ExclusiveWithAtomicReclaim(s: System, steps: seq<Step>, s': System, p: Pid, q: Pid)
    requires NobodyAbout(s)
    requires forall step | step in steps :: IsCoarse(step)
    requires After(s, steps) == Some(s')
    ensures Holds(s', p) && Holds(s', q) && p in s'.alive && q in s'.alive ==> p == q
  {
    CoarseRunKeeps(s, steps, s');
  }
}
