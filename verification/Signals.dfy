/**
 * The service's signal files, from startup to shutdown, with request handlers running beside it:
 * service/signals/signals.go, service/main.go, service/server/server.go.
 */
module Signals {
  import opened Common

  datatype ServiceStatus = Starting | Running | Degraded | Unhealthy | ShuttingDown

  /** The signal directory: the status word if there is one, and the three other files. */
  datatype Files = Files(status: Option<ServiceStatus>, healthy: bool, loading: bool, pid: bool)

  /** Where the main goroutine stands: each value names what it does next. */
  datatype Point =
    | ClearLoading | ClearHealthy | SetStarting
    | CreateLoading | LoadConfigAndLog | WritePid | ProbeStateDir
    | CreateHealthy | RemoveLoading | SetRunning | SetDegraded
    | Serving
    | SetShuttingDown | RemoveHealthy | Draining | RemovePid
    | Exited | Aborted

  datatype Service = Service(files: Files, at: Point)

  /** What happens next; `ok` is the outcome of the file operation, `chaos` and `usable` what it finds. */
  datatype Step =
    | Proceed(ok: bool, chaos: bool, usable: bool)
    | HandlerFails
    | Stop
    | CrashAndRestart

  /** Init has returned without an error: the three operations it consists of are behind. */
  predicate Initialised(s: Service) {
    s.at != ClearLoading && s.at != ClearHealthy && s.at != SetStarting && s.at != Aborted
  }

  /** Requests are served from the listener's start until the process is gone. */
  predicate HandlersRun(s: Service) {
    s.at == Serving || s.at == SetShuttingDown || s.at == RemoveHealthy || s.at == Draining || s.at == RemovePid
  }

  function Advance(s: Service, ok: bool, chaos: bool, usable: bool): Service {
    var f := s.files;
    match s.at
    case ClearLoading => Service(if ok then f.(loading := false) else f, ClearHealthy)
    case ClearHealthy => Service(if ok then f.(healthy := false) else f, SetStarting)
    case SetStarting =>
      if ok then Service(f.(status := Some(Starting)), CreateLoading) else Service(f, Aborted)
    case CreateLoading =>
      if ok then Service(f.(loading := true), LoadConfigAndLog) else Service(f, Exited)
    case LoadConfigAndLog => Service(f, if ok then WritePid else Exited)
    case WritePid =>
      if ok then Service(f.(pid := true), ProbeStateDir) else Service(f, Exited)
    case ProbeStateDir =>
      Service(if !usable && ok then f.(status := Some(Unhealthy)) else f, CreateHealthy)
    case CreateHealthy =>
      if ok then Service(f.(healthy := true), RemoveLoading) else Service(f, Exited)
    case RemoveLoading => Service(if ok then f.(loading := false) else f, SetRunning)
    case SetRunning => Service(if ok then f.(status := Some(Running)) else f, SetDegraded)
    case SetDegraded => Service(if chaos && ok then f.(status := Some(Degraded)) else f, Serving)
    case Serving => s
    case SetShuttingDown => Service(if ok then f.(status := Some(ShuttingDown)) else f, RemoveHealthy)
    case RemoveHealthy => Service(if ok then f.(healthy := false) else f, Draining)
    case Draining => Service(f, RemovePid)
    case RemovePid => Service(if ok then f.(pid := false) else f, Exited)
    case Exited | Aborted => s
  }

  /** A signal or a server error ends the serving; a crash leaves the files to the next start. */
  function Next(s: Service, step: Step): Service {
    match step
    case Proceed(ok, chaos, usable) => Advance(s, ok, chaos, usable)
    case HandlerFails => if HandlersRun(s) then s.(files := s.files.(status := Some(Unhealthy))) else s
    case Stop => if s.at == Serving then s.(at := SetShuttingDown) else s
    case CrashAndRestart => s.(at := ClearLoading)
  }

  function After(s: Service, steps: seq<Step>): Service {
    if steps == [] then s else Next(After(s, steps[..|steps| - 1]), steps[|steps| - 1])
  }

  predicate SaysUp(f: Files) {
    f.status == Some(Running) || f.status == Some(Degraded)
  }

  /** A status that says the service is up is backed by the healthy marker. */
  predicate UpMeansHealthy(s: Service) {
    Initialised(s) && SaysUp(s.files) ==> s.files.healthy
  }

  /** The one write whose failure the code ignores at a cost. */
  predicate ShutdownStatusFails(s: Service, step: Step) {
    s.at == SetShuttingDown && step.Proceed? && !step.ok
  }

  /** What holds at each point of the start and of the shutdown. */
  predicate Inv(s: Service) {
    match s.at
    case ClearLoading | ClearHealthy | SetStarting | Aborted => true
    case CreateLoading | LoadConfigAndLog | WritePid | ProbeStateDir | CreateHealthy => !SaysUp(s.files)
    case RemoveLoading | SetRunning | SetDegraded | Serving | SetShuttingDown => s.files.healthy
    case RemoveHealthy | Draining | RemovePid => !SaysUp(s.files)
    case Exited => SaysUp(s.files) ==> s.files.healthy
  }

  lemma StepKeepsInv(s: Service, step: Step)
    requires Inv(s) && !ShutdownStatusFails(s, step)
    ensures Inv(Next(s, step)) && UpMeansHealthy(Next(s, step))
  {
  }

  predicate ShutdownStatusWritten(s: Service, steps: seq<Step>) {
    forall i | 0 <= i < |steps| :: !ShutdownStatusFails(After(s, steps[..i]), steps[i])
  }

  /**
   * From any leftover signal directory, through any number of starts, crashes, failing handlers and
   * other failing writes, after Init a status of Running or Degraded means the healthy marker is there.
   */
  lemma {:induction false} UpMeansHealthyAlways(s: Service, steps: seq<Step>)
    requires s.at == ClearLoading && ShutdownStatusWritten(s, steps)
    ensures Inv(After(s, steps)) && UpMeansHealthy(After(s, steps))
  {
    if steps != [] {
      var front := steps[..|steps| - 1];
      forall i | 0 <= i < |front|
        ensures !ShutdownStatusFails(After(s, front[..i]), front[i])
      {
        assert front[..i] == steps[..i];
      }
      UpMeansHealthyAlways(s, front);
      assert steps[..|steps| - 1] == front;
      StepKeepsInv(After(s, front), steps[|steps| - 1]);
    }
  }

  /**
   * From a service that is up, the shutdown keeps the meaning of the status exactly when its status
   * write goes through or the healthy marker cannot be removed, unless a handler wrote Unhealthy.
   */
  lemma ShutdownNeedsItsStatus(s: Service, written: Step, removed: Step)
    requires s.at == SetShuttingDown && Inv(s)
    requires written.Proceed? && removed.Proceed?
    ensures UpMeansHealthy(Next(Next(s, written), removed)) <==>
            written.ok || !removed.ok || !SaysUp(s.files)
  {
  }

  // ---- the healthy and the loading marker ----

  /** Init ignores a removal that fails, and then leftover markers survive it. */
  predicate InitRemovalFails(s: Service, step: Step) {
    (s.at == ClearLoading || s.at == ClearHealthy) && step.Proceed? && !step.ok
  }

  predicate InitClears(s: Service, steps: seq<Step>) {
    steps == [] || (
      var front := steps[..|steps| - 1];
      InitClears(s, front) && !InitRemovalFails(After(s, front), steps[|steps| - 1]))
  }

  /** The latest RemoveLoading of the run failed. */
  predicate RemovalFailed(s: Service, steps: seq<Step>) {
    steps != [] && (
      var front, last := steps[..|steps| - 1], steps[|steps| - 1];
      if After(s, front).at == RemoveLoading && last.Proceed? then !last.ok else RemovalFailed(s, front))
  }

  predicate PastRemoveLoading(at: Point) {
    at in {SetRunning, SetDegraded, Serving, SetShuttingDown, RemoveHealthy, Draining, RemovePid, Exited}
  }

  /** Which of the two markers there are at each point; `failed` says whether the latest RemoveLoading failed. */
  predicate MarkersAt(s: Service, failed: bool) {
    var f := s.files;
    match s.at
    case ClearLoading => true
    case ClearHealthy => !f.loading
    case SetStarting | Aborted | CreateLoading => !f.loading && !f.healthy
    case LoadConfigAndLog | WritePid | ProbeStateDir | CreateHealthy => f.loading && !f.healthy
    case RemoveLoading => f.loading && f.healthy
    case SetRunning | SetDegraded | Serving | SetShuttingDown | RemoveHealthy => f.healthy && f.loading == failed
    case Draining | RemovePid => f.loading == failed
    case Exited => f.healthy ==> f.loading == failed
  }

  /**
   * The two markers coexist in every start, between CreateHealthy and RemoveLoading. When the removals of
   * Init go through, they coexist at no other point, except after a RemoveLoading that failed for as long
   * as the healthy marker stays.
   */
  lemma {:induction false} MarkersCoexist(s: Service, steps: seq<Step>)
    requires s.at == ClearLoading && InitClears(s, steps)
    ensures MarkersAt(After(s, steps), RemovalFailed(s, steps))
    ensures var s' := After(s, steps);
            s'.at != ClearLoading ==>
              (s'.files.healthy && s'.files.loading <==>
                 s'.at == RemoveLoading || (PastRemoveLoading(s'.at) && RemovalFailed(s, steps) && s'.files.healthy))
  {
    if steps != [] {
      MarkersCoexist(s, steps[..|steps| - 1]);
    }
  }

  /** A removal in Init that fails is enough for both markers to be there when Init returns. */
  lemma LeftoversCoexist(files: Files)
    requires files.healthy && files.loading
    ensures var steps := [Proceed(false, false, true), Proceed(false, false, true), Proceed(true, false, true)];
            var s' := After(Service(files, ClearLoading), steps);
            s'.at == CreateLoading && s'.files.healthy && s'.files.loading
  {
    var s := Service(files, ClearLoading);
    var fails, goes := Proceed(false, false, true), Proceed(true, false, true);
    assert After(s, []) == s;
    assert [fails][..0] == [];
    assert After(s, [fails]) == Service(files, ClearHealthy);
    assert [fails, fails][..1] == [fails];
    assert After(s, [fails, fails]) == Service(files, SetStarting);
    assert [fails, fails, goes][..2] == [fails, fails];
    assert After(s, [fails, fails, goes]) == Service(files.(status := Some(Starting)), CreateLoading);
  }

  // ---- a whole start and a whole shutdown ----

  /** The main goroutine makes n moves; the outcome of the k-th operation is ok(k). */
  function Tries(s: Service, n: nat, ok: nat -> bool, chaos: bool, usable: bool): Service {
    if n == 0 then s else Advance(Tries(s, n - 1, ok, chaos, usable), ok(n - 1), chaos, usable)
  }

  const ALL_GO: nat -> bool := n => true

  lemma NoTry(s: Service, ok: nat -> bool, chaos: bool, usable: bool)
    ensures Tries(s, 0, ok, chaos, usable) == s
  {
  }

  lemma OneTry(s: Service, n: nat, ok: nat -> bool, chaos: bool, usable: bool)
    ensures Tries(s, n + 1, ok, chaos, usable) == Advance(Tries(s, n, ok, chaos, usable), ok(n), chaos, usable)
  {
  }

  /** Init clears both markers and says Starting, whatever it found. */
  lemma InitLeaves(files: Files, chaos: bool, usable: bool)
    ensures Tries(Service(files, ClearLoading), 3, ALL_GO, chaos, usable) ==
            Service(Files(Some(Starting), false, false, files.pid), CreateLoading)
  {
    hide Tries;
    var s0 := Service(files, ClearLoading);
    NoTry(s0, ALL_GO, chaos, usable);
    OneTry(s0, 0, ALL_GO, chaos, usable);
    OneTry(s0, 1, ALL_GO, chaos, usable);
    OneTry(s0, 2, ALL_GO, chaos, usable);
  }

  /** By the time the healthy marker is created the PID is there, and an unusable state directory is told of. */
  lemma StartGetsReady(files: Files, chaos: bool, usable: bool)
    ensures Tries(Service(files, ClearLoading), 7, ALL_GO, chaos, usable) ==
            Service(Files(Some(if usable then Starting else Unhealthy), false, true, true), CreateHealthy)
  {
    hide Tries;
    var s0 := Service(files, ClearLoading);
    InitLeaves(files, chaos, usable);
    OneTry(s0, 3, ALL_GO, chaos, usable);
    OneTry(s0, 4, ALL_GO, chaos, usable);
    OneTry(s0, 5, ALL_GO, chaos, usable);
    OneTry(s0, 6, ALL_GO, chaos, usable);
  }

  /**
   * From any leftover directory a start whose operations go through ends serving, with the status Running,
   * or Degraded where a chaos mode is on, with the healthy marker and the PID, and without the loading
   * marker.
   */
  lemma StartComesUp(files: Files, chaos: bool, usable: bool)
    ensures Tries(Service(files, ClearLoading), 11, ALL_GO, chaos, usable) ==
            Service(Files(Some(if chaos then Degraded else Running), true, false, true), Serving)
  {
    hide Tries;
    var s0 := Service(files, ClearLoading);
    StartGetsReady(files, chaos, usable);
    OneTry(s0, 7, ALL_GO, chaos, usable);
    OneTry(s0, 8, ALL_GO, chaos, usable);
    OneTry(s0, 9, ALL_GO, chaos, usable);
    OneTry(s0, 10, ALL_GO, chaos, usable);
  }

  /** A shutdown whose operations go through says ShuttingDown before anything else is taken away. */
  lemma ShutdownSaysSo(s: Service, chaos: bool, usable: bool)
    requires s.at == Serving
    ensures Tries(Next(s, Stop), 1, ALL_GO, chaos, usable) ==
            Service(s.files.(status := Some(ShuttingDown)), RemoveHealthy)
  {
    hide Tries;
    NoTry(Next(s, Stop), ALL_GO, chaos, usable);
    OneTry(Next(s, Stop), 0, ALL_GO, chaos, usable);
  }

  /** It ends with that status, and with neither the healthy marker nor the PID. */
  lemma ShutdownGoesDown(s: Service, chaos: bool, usable: bool)
    requires s.at == Serving
    ensures Tries(Next(s, Stop), 4, ALL_GO, chaos, usable) ==
            Service(s.files.(status := Some(ShuttingDown), healthy := false, pid := false), Exited)
  {
    hide Tries, Next;
    ShutdownSaysSo(s, chaos, usable);
    OneTry(Next(s, Stop), 1, ALL_GO, chaos, usable);
    OneTry(Next(s, Stop), 2, ALL_GO, chaos, usable);
    OneTry(Next(s, Stop), 3, ALL_GO, chaos, usable);
  }

  /** What the first four operations of a start leave: Init and the loading marker. */
  lemma StartInits(files: Files, ok: nat -> bool, chaos: bool, usable: bool)
    ensures var r := Tries(Service(files, ClearLoading), 4, ok, chaos, usable);
            && r.at == (if !ok(2) then Aborted else if ok(3) then LoadConfigAndLog else Exited)
            && r.files.status == (if ok(2) then Some(Starting) else files.status)
            && r.files.pid == files.pid && r.files.healthy == (files.healthy && !ok(1))
            && (r.at == LoadConfigAndLog ==> r.files.loading)
  {
    hide Tries;
    var s0 := Service(files, ClearLoading);
    NoTry(s0, ok, chaos, usable);
    OneTry(s0, 0, ok, chaos, usable);
    OneTry(s0, 1, ok, chaos, usable);
    OneTry(s0, 2, ok, chaos, usable);
    OneTry(s0, 3, ok, chaos, usable);
  }

  /** And the next four: config and log, the PID, the probe and the healthy marker. */
  lemma StartMarks(files: Files, ok: nat -> bool, chaos: bool, usable: bool)
    ensures var r := Tries(Service(files, ClearLoading), 8, ok, chaos, usable);
            && (if ok(2) && ok(3) && ok(4) && ok(5) && ok(7) then r.at == RemoveLoading else r.at in {Exited, Aborted})
            && (r.at == RemoveLoading ==> r.files.healthy && r.files.pid && r.files.loading)
            && (r.at == RemoveLoading ==> r.files.status == Some(if !usable && ok(6) then Unhealthy else Starting))
            && (r.at != RemoveLoading ==> r.files.healthy == (files.healthy && !ok(1)))
            && (!ok(2) ==> r.files.status == files.status && r.files.pid == files.pid)
  {
    hide Tries;
    var s0 := Service(files, ClearLoading);
    StartInits(files, ok, chaos, usable);
    OneTry(s0, 4, ok, chaos, usable);
    OneTry(s0, 5, ok, chaos, usable);
    OneTry(s0, 6, ok, chaos, usable);
    OneTry(s0, 7, ok, chaos, usable);
  }

  /**
   * Whatever fails among the eleven operations of a start, from any leftovers it is over after them, and it
   * serves exactly when none of the five failed that startup needs: the first status, the loading marker,
   * config with log, the PID and the healthy marker. A start that serves has the PID and the healthy marker;
   * one that does not has a healthy marker only where Init could not remove the left one. An unusable state
   * directory is still told of only where no later status write went through.
   */
  lemma StartServesExactly(files: Files, ok: nat -> bool, chaos: bool, usable: bool)
    ensures var r := Tries(Service(files, ClearLoading), 11, ok, chaos, usable);
            && r.at in {Serving, Exited, Aborted}
            && (r.at == Serving <==> ok(2) && ok(3) && ok(4) && ok(5) && ok(7))
            && (r.at == Serving ==> r.files.healthy && r.files.pid)
            && (r.at != Serving ==> r.files.healthy == (files.healthy && !ok(1)))
            && (!ok(2) ==> r.files.status == files.status && r.files.pid == files.pid)
            && (r.at == Serving ==>
                  (r.files.status == Some(Unhealthy) <==> !usable && ok(6) && !ok(9) && !(chaos && ok(10))))
            && (r.at == Serving ==> (r.files.loading <==> !ok(8)))
  {
    hide Tries;
    var s0 := Service(files, ClearLoading);
    StartMarks(files, ok, chaos, usable);
    OneTry(s0, 8, ok, chaos, usable);
    OneTry(s0, 9, ok, chaos, usable);
    OneTry(s0, 10, ok, chaos, usable);
  }

  // ---- a handler that cannot write its state ----

  /**
   * Once a handler has failed, the status says Unhealthy for as long as the service lives, but for a
   * shutdown that begins afterwards: there is no way back to Running or Degraded without a new start.
   */
  lemma {:induction false} UnhealthyUntilShutdown(s: Service, steps: seq<Step>)
    requires HandlersRun(s) && CrashAndRestart !in steps
    ensures var s' := After(Next(s, HandlerFails), steps);
            && (HandlersRun(s') || s'.at == Exited)
            && (s'.files.status == Some(Unhealthy) ||
                (s'.files.status == Some(ShuttingDown) && (s.at == Serving || s.at == SetShuttingDown) &&
                 s'.at != Serving && s'.at != SetShuttingDown))
            && (s.at != Serving && s.at != SetShuttingDown ==> s'.at != Serving && s'.at != SetShuttingDown)
            && (Stop !in steps && s.at == Serving ==> s' == Next(s, HandlerFails))
  {
    if steps == [] {
      assert After(Next(s, HandlerFails), steps) == Next(s, HandlerFails);
    } else {
      var n := |steps| - 1;
      assert steps[n] in steps;
      UnhealthyUntilShutdown(s, steps[..n]);
    }
  }
}
