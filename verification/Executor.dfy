/** The mutation authority and its audit trail: internal/executor/real.go and internal/executor/audit.go. */
module Executor {
  import opened Common
  import opened Environment

  datatype Action = DaemonReloadAction | ResetFailed | RestartApp | StartApp

  /** The commands that faults, resets and provisioning pass to RunMutation. */
  datatype Mutation =
    | SetAppEnv(value: string) | UnsetAppEnv
    | RmFillers | RmFill | DdFill
    | NftAddDrop | NftFlush
    | Bootstrap

  datatype Op =
    | OpWriteFile(path: Path)
    | OpChmod(path: Path, mode: Mode)
    | OpChown(path: Path, owner: User, group: User)
    | OpRemove(path: Path)
    | OpSystemctl(action: Action)
    | OpNginxReload
    | OpMutation(mutation: Mutation)

  /**
   * One thing that happened: the system was touched, or a line was appended to the audit log. The line
   * of lab validate is an executor_op entry as well, though it stands for no mutation.
   */
  datatype Event = Attempt(op: Op) | ExecutorOp(op: Op, ok: bool) | ValidateOp(ok: bool) | OtherEntry

  function SystemctlEffect(h: Host, e: Env, action: Action): Env {
    match action
    case DaemonReloadAction => DaemonReload(e)
    case ResetFailed => e
    case RestartApp => Restart(h, e)
    case StartApp => Start(h, e)
  }

  const FILL := InStateDir("fill")

  function MutationEffect(h: Host, e: Env, m: Mutation): Env {
    match m
    case SetAppEnv(value) => e.(manager := Some(value))
    case UnsetAppEnv => e.(manager := None)
    case RmFillers => RemoveFillers(e)
    case RmFill => ForceRemove(e, FILL)
    case DdFill => WriteFile(e, FILL, "zeros", MODE_WORLD_READABLE, Root, Root)
    case NftAddDrop => e.(nft := e.nft + ["tcp dport 8080 drop"])
    case NftFlush => e.(nft := [])
    case Bootstrap => h.bootstrap(e)
  }

  ghost predicate Reliable(h: Host) {
    forall n :: h.goesThrough(n)
  }

  /** What an external command that fails may leave behind. */
  ghost predicate FailedFrom(h: Host, e: Env, e': Env) {
    e' == e || exists n :: e' == h.wreck(n, e)
  }

  lemma FailsInPlace(h: Host, e: Env)
    ensures FailedFrom(h, e, e)
  {
  }

  // ---- the audit trail ----

  /** The mutations of a trace, in the order the system saw them. */
  function Attempts(trace: seq<Event>): seq<Op> {
    if trace == [] then []
    else
      var last := trace[|trace| - 1];
      Attempts(trace[..|trace| - 1]) + if last.Attempt? then [last.op] else []
  }

  /** The executor_op entries for mutations in the audit log after a trace. */
  function Logged(trace: seq<Event>): seq<Op> {
    if trace == [] then []
    else
      var last := trace[|trace| - 1];
      Logged(trace[..|trace| - 1]) + if last.ExecutorOp? then [last.op] else []
  }

  predicate LagsByAtMostOne(trace: seq<Event>) {
    var attempts := Attempts(trace);
    Logged(trace) == attempts || (attempts != [] && Logged(trace) == attempts[..|attempts| - 1])
  }

  /** At the end of the trace, and of every shorter one, the log lags by one mutation at most. */
  predicate NeverFallsBehind(trace: seq<Event>) {
    trace == [] || (LagsByAtMostOne(trace) && NeverFallsBehind(trace[..|trace| - 1]))
  }

  /** The log has kept up all along, and now holds every attempted mutation. */
  predicate Audited(trace: seq<Event>) {
    Logged(trace) == Attempts(trace) && NeverFallsBehind(trace)
  }

  /**
   * Wherever the process stops, the log holds the attempted mutations in order, short of at most the
   * latest one.
   */
  lemma {:induction false} AuditedAtEveryPoint(trace: seq<Event>, k: nat)
    requires NeverFallsBehind(trace) && k <= |trace|
    ensures LagsByAtMostOne(trace[..k])
  {
    if k == |trace| {
      assert trace[..k] == trace;
    } else {
      assert trace[..|trace| - 1][..k] == trace[..k];
      AuditedAtEveryPoint(trace[..|trace| - 1], k);
    }
  }

  /** A mutation was attempted last and its entry is still missing. */
  predicate AwaitsEntry(trace: seq<Event>, op: Op) {
    |trace| > 0 && trace[|trace| - 1] == Attempt(op) && Audited(trace[..|trace| - 1])
  }

  lemma AttemptAwaitsEntry(trace: seq<Event>, op: Op)
    requires Audited(trace)
    ensures AwaitsEntry(trace + [Attempt(op)], op)
  {
    hide Audited;
    assert (trace + [Attempt(op)])[..|trace|] == trace;
  }

  lemma AuditOneOp(trace: seq<Event>, op: Op, ok: bool)
    requires AwaitsEntry(trace, op)
    ensures NeverFallsBehind(trace)
    ensures Audited(trace + [ExecutorOp(op, ok)])
  {
    var logged := trace + [ExecutorOp(op, ok)];
    assert logged[..|trace|] == trace;
    assert Attempts(trace)[..|Attempts(trace)| - 1] == Attempts(trace[..|trace| - 1]);
  }

  /** An entry that stands for no mutation does not disturb the account of those that do. */
  lemma AuditOtherEntry(trace: seq<Event>, entry: Event)
    requires Audited(trace) && (entry.OtherEntry? || entry.ValidateOp?)
    ensures Audited(trace + [entry])
  {
    assert (trace + [entry])[..|trace|] == trace;
  }

  /** All executor_op entries of the log, validate's included. */
  function ExecutorOpCount(trace: seq<Event>): nat {
    if trace == [] then 0
    else
      var last := trace[|trace| - 1];
      ExecutorOpCount(trace[..|trace| - 1]) + if last.ExecutorOp? || last.ValidateOp? then 1 else 0
  }

  /** The log has one executor_op entry for each attempted mutation, and no others, exactly when no validate ran. */
  lemma {:induction false} ValidateEntriesAreExtra(trace: seq<Event>)
    ensures ExecutorOpCount(trace) >= |Logged(trace)|
    ensures ExecutorOpCount(trace) == |Logged(trace)| <==> forall event | event in trace :: !event.ValidateOp?
  {
    if trace != [] {
      ValidateEntriesAreExtra(trace[..|trace| - 1]);
      assert trace == trace[..|trace| - 1] + [trace[|trace| - 1]];
    }
  }

  // ---- the executor ----

  class Executor {
    const host: Host
    var env: Env
    var calls: nat
    var trace: seq<Event>

    constructor (host: Host, env: Env)
      ensures this.host == host && this.env == env && trace == [] && Valid()
    {
      this.host, this.env, this.calls, this.trace := host, env, 0, [];
    }

    ghost predicate Valid()
      reads this
    {
      Audited(trace)
    }

    /** The mutation is under way and its audit entry is not written yet. */
    ghost predicate Pending(op: Op)
      reads this
    {
      AwaitsEntry(trace, op)
    }

    method Begin(op: Op)
      requires Valid()
      modifies this`trace
      ensures Pending(op) && trace == old(trace) + [Attempt(op)]
    {
      hide Audited, AwaitsEntry;
      AttemptAwaitsEntry(trace, op);
      trace := trace + [Attempt(op)];
    }

    /** The entry is appended after the operation, whatever its outcome. */
    method LogOp(op: Op, ok: bool)
      requires Pending(op)
      modifies this`trace
      ensures Valid() && trace == old(trace) + [ExecutorOp(op, ok)]
    {
      hide Audited, AwaitsEntry;
      AuditOneOp(trace, op, ok);
      trace := trace + [ExecutorOp(op, ok)];
    }

    method LogOther()
      requires Valid()
      modifies this`trace
      ensures Valid() && trace == old(trace) + [OtherEntry]
    {
      AuditOtherEntry(trace, OtherEntry);
      trace := trace + [OtherEntry];
    }

    method LogValidation(ok: bool)
      requires Valid()
      modifies this`trace
      ensures Valid() && trace == old(trace) + [ValidateOp(ok)]
    {
      AuditOtherEntry(trace, ValidateOp(ok));
      trace := trace + [ValidateOp(ok)];
    }

    method WriteFile(p: Path, content: string, mode: Mode, owner: User, group: User) returns (ok: bool)
      requires Valid()
      modifies this
      ensures Valid() && trace == old(trace) + [Attempt(OpWriteFile(p))] + [ExecutorOp(OpWriteFile(p), ok)]
      ensures env == if ok then Environment.WriteFile(old(env), p, content, mode, owner, group) else old(env)
      ensures Reliable(host) ==> ok
    {
      hide Audited, AwaitsEntry;
      ok := host.goesThrough(calls);
      calls := calls + 1;
      Begin(OpWriteFile(p));
      if ok {
        env := Environment.WriteFile(env, p, content, mode, owner, group);
      }
      LogOp(OpWriteFile(p), ok);
    }

    method Chmod(p: Path, mode: Mode) returns (ok: bool)
      requires Valid()
      modifies this
      ensures Valid() && trace == old(trace) + [Attempt(OpChmod(p, mode))] + [ExecutorOp(OpChmod(p, mode), ok)]
      ensures if ok then Environment.Chmod(old(env), p, mode) == Some(env) else env == old(env)
      ensures Reliable(host) ==> ok == Environment.Chmod(old(env), p, mode).Some?
    {
      hide Audited, AwaitsEntry;
      var done := Environment.Chmod(env, p, mode);
      ok := host.goesThrough(calls) && done.Some?;
      calls := calls + 1;
      Begin(OpChmod(p, mode));
      if ok {
        env := done.value;
      }
      LogOp(OpChmod(p, mode), ok);
    }

    method Chown(p: Path, owner: User, group: User) returns (ok: bool)
      requires Valid()
      modifies this
      ensures Valid()
      ensures trace == old(trace) + [Attempt(OpChown(p, owner, group))] + [ExecutorOp(OpChown(p, owner, group), ok)]
      ensures if ok then Environment.Chown(old(env), p, owner, group) == Some(env) else env == old(env)
      ensures Reliable(host) ==> ok == Environment.Chown(old(env), p, owner, group).Some?
    {
      hide Audited, AwaitsEntry;
      var done := Environment.Chown(env, p, owner, group);
      ok := host.goesThrough(calls) && done.Some?;
      calls := calls + 1;
      Begin(OpChown(p, owner, group));
      if ok {
        env := done.value;
      }
      LogOp(OpChown(p, owner, group), ok);
    }

    method Remove(p: Path) returns (ok: bool)
      requires Valid()
      modifies this
      ensures Valid() && trace == old(trace) + [Attempt(OpRemove(p))] + [ExecutorOp(OpRemove(p), ok)]
      ensures if ok then Environment.Remove(old(env), p) == Some(env) else env == old(env)
      ensures Reliable(host) ==> ok == Environment.Remove(old(env), p).Some?
    {
      hide Audited, AwaitsEntry;
      var done := Environment.Remove(env, p);
      ok := host.goesThrough(calls) && done.Some?;
      calls := calls + 1;
      Begin(OpRemove(p));
      if ok {
        env := done.value;
      }
      LogOp(OpRemove(p), ok);
    }

    /** A path without canonical content is refused before anything is attempted. */
    method RestoreFile(p: Path) returns (ok: bool)
      requires Valid()
      modifies this
      ensures Valid() && old(trace) <= trace
      ensures CanonicalNode(host, p).None? ==> trace == old(trace)
      ensures if ok then Environment.RestoreFile(host, old(env), p) == Some(env) else env == old(env)
      ensures Reliable(host) ==> ok == Environment.RestoreFile(host, old(env), p).Some?
    {
      hide Audited, AwaitsEntry;
      var canonical := CanonicalNode(host, p);
      if canonical.None? {
        return false;
      }
      var n := canonical.value;
      ok := WriteFile(p, n.content, n.mode, n.owner, n.group);
    }

    /** A failed reset-failed changes nothing; any other failed action may leave anything behind. */
    method Systemctl(action: Action) returns (ok: bool)
      requires Valid()
      modifies this
      ensures Valid() && trace == old(trace) + [Attempt(OpSystemctl(action))] + [ExecutorOp(OpSystemctl(action), ok)]
      ensures ok || action == ResetFailed ==> env == SystemctlEffect(host, old(env), action)
      ensures !ok ==> FailedFrom(host, old(env), env)
      ensures Reliable(host) ==> ok
    {
      hide Audited, AwaitsEntry;
      ok := host.goesThrough(calls);
      calls := calls + 1;
      Begin(OpSystemctl(action));
      if ok || action == ResetFailed {
        env := SystemctlEffect(host, env, action);
      } else {
        env := host.wreck(calls, env);
      }
      LogOp(OpSystemctl(action), ok);
    }

    /** nginx -t comes first; when it fails nothing is attempted and nothing is logged. */
    method NginxReload() returns (ok: bool)
      requires Valid()
      modifies this
      ensures Valid() && old(trace) <= trace
      ensures ok ==> Environment.NginxReload(host, old(env)) == Some(env)
      ensures !ok ==> FailedFrom(host, old(env), env)
      ensures Environment.NginxReload(host, old(env)).None? ==> !ok && env == old(env) && trace == old(trace)
      ensures Reliable(host) ==> ok == Environment.NginxReload(host, old(env)).Some?
    {
      hide Audited, AwaitsEntry;
      var done := Environment.NginxReload(host, env);
      var tested := host.goesThrough(calls) && done.Some?;
      calls := calls + 1;
      if !tested {
        return false;
      }
      ok := host.goesThrough(calls);
      calls := calls + 1;
      Begin(OpNginxReload);
      env := if ok then done.value else host.wreck(calls, env);
      LogOp(OpNginxReload, ok);
    }

    method RunMutation(m: Mutation) returns (ok: bool)
      requires Valid()
      modifies this
      ensures Valid() && trace == old(trace) + [Attempt(OpMutation(m))] + [ExecutorOp(OpMutation(m), ok)]
      ensures ok ==> env == MutationEffect(host, old(env), m)
      ensures !ok ==> FailedFrom(host, old(env), env)
      ensures Reliable(host) ==> ok
    {
      hide Audited, AwaitsEntry;
      ok := host.goesThrough(calls);
      calls := calls + 1;
      Begin(OpMutation(m));
      env := if ok then MutationEffect(host, env, m) else host.wreck(calls, env);
      LogOp(OpMutation(m), ok);
    }
  }
}
