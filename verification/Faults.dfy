/** The fault catalog: internal/catalog/fault.go and internal/catalog/faults.go. */
module Faults {
  import opened Common
  import opened Conformance
  import opened Record
  import opened Environment
  import opened Executor

  function ResetTier(f: FaultId): Tier {
    match f
    case F008 | F014 => R3
    case F010 => R1
    case _ => R2
  }

  predicate IsReversible(f: FaultId) {
    f != F008 && f != F014
  }

  predicate RequiresConfirmation(f: FaultId) {
    f == F008 || f == F014
  }

  function Preconditions(f: FaultId): seq<State> {
    [Conformant]
  }

  function PreconditionChecks(f: FaultId): seq<CheckId> {
    if f == F010 then [P001] else []
  }

  // ---- what Apply and Recover do when every executor call goes through ----

  function EditFile(e: Env, p: Path, pattern: string, newText: string, mode: Mode, owner: User): Option<Env> {
    var data :- ContentOf(e.fs, p);
    Some(Environment.WriteFile(e, p, ReplaceFirst(data, pattern, newText), mode, owner, owner))
  }

  function WriteChaos(e: Env, content: string): Env {
    Environment.WriteFile(e, ChaosEnvPath, content, MODE_WORLD_READABLE, AppUser, AppUser)
  }

  function Decimal(n: nat): string {
    (if n < 10 then [] else Decimal(n / 10)) + ["0123456789"[n % 10]]
  }

  function Filler(i: nat): Path {
    InStateDir("file_" + Decimal(i))
  }

  /** The first n files of the F-018 loop. */
  function Fillers(e: Env, n: nat): Env {
    if n == 0 then e
    else Environment.WriteFile(Fillers(e, n - 1), Filler(n), "", MODE_WORLD_READABLE, AppUser, AppUser)
  }

  const FILLER_COUNT: nat := 100000

  const BAD_DIRECTIVE := "\ninvalid_directive on;\n"

  /** What the faults that edit a file look for in it. */
  function Pattern(f: FaultId): string {
    match f
    case F002 | F016 => APP_BIND_ADDR
    case F006 => "Environment=APP_ENV=prod\n"
    case F007 => "server " + APP_BIND_ADDR + ";"
    case F013 => "ExecStart=/opt/app/server"
    case _ => ""
  }

  /** What they put in its place. */
  function Replacement(f: FaultId): string {
    match f
    case F002 => "127.0.0.1:9090"
    case F016 => "0.0.0.0:8080"
    case F007 => "server 127.0.0.1:9090;"
    case F013 => "ExecStart=/opt/app/DOESNOTEXIST"
    case _ => ""
  }

  /** What the faults of the chaos file write to it. */
  function ChaosText(f: FaultId): string {
    match f
    case F008 => "CHAOS_IGNORE_SIGTERM=1\n"
    case F014 => "CHAOS_ZOMBIE_CHILDREN=1\n"
    case F020 => "CHAOS_LATENCY_MS=400\n"
    case _ => ""
  }

  function WithBadDirective(e: Env): Option<Env> {
    var data :- ContentOf(e.fs, NginxConfigPath);
    Some(Environment.WriteFile(e, NginxConfigPath, data + BAD_DIRECTIVE, MODE_NGINX_CONFIG, Root, Root))
  }

  function OrElse(done: Option<Env>, e: Env): Env {
    if done.Some? then done.value else e
  }

  function ApplyEffect(h: Host, f: FaultId, e: Env): Option<Env> {
    match f
    case F001 => Environment.Remove(e, ConfigPath)
    case F002 | F016 =>
      var e1 :- EditFile(e, ConfigPath, Pattern(f), Replacement(f), MODE_CONFIG, AppUser);
      Some(Restart(h, e1))
    case F003 => Environment.Chmod(e, ConfigPath, 0)
    case F004 => Environment.Chmod(e, StateDir, 0)
    case F005 => Environment.Chmod(e, BinaryPath, 0x1A0)
    case F006 =>
      var e1 :- EditFile(e, UnitFilePath, Pattern(f), Replacement(f), MODE_UNIT_FILE, Root);
      Some(Restart(h, DaemonReload(e1)))
    case F007 =>
      var e1 :- EditFile(e, NginxConfigPath, Pattern(f), Replacement(f), MODE_NGINX_CONFIG, Root);
      Environment.NginxReload(h, e1)
    case F008 | F014 | F020 => Some(Restart(h, WriteChaos(e, ChaosText(f))))
    case F009 => Environment.Chmod(e, LogPath, 0)
    case F010 => Environment.Remove(e, LogPath)
    case F013 =>
      var e1 :- EditFile(e, UnitFilePath, Pattern(f), Replacement(f), MODE_UNIT_FILE, Root);
      Some(DaemonReload(e1))
    case F015 =>
      var e1 :- WithBadDirective(e);
      Some(OrElse(Environment.NginxReload(h, e1), e1))
    case F017 => Some(Restart(h, e.(manager := Some(""))))
    case F018 => Some(Fillers(e, FILLER_COUNT))
    case F021 => Some(MutationEffect(h, e, NftAddDrop))
    case F019 => Some(MutationEffect(h, e, DdFill))
  }

  function RecoverEffect(h: Host, f: FaultId, e: Env): Option<Env> {
    match f
    case F001 => Environment.RestoreFile(h, e, ConfigPath)
    case F002 | F016 =>
      var e1 :- Environment.RestoreFile(h, e, ConfigPath);
      Some(Restart(h, e1))
    case F003 =>
      var e1 :- Environment.Chmod(e, ConfigPath, MODE_CONFIG);
      Some(Restart(h, e1))
    case F004 => Environment.Chmod(e, StateDir, MODE_STATE_DIR)
    case F005 =>
      var e1 :- Environment.Chmod(e, BinaryPath, MODE_BINARY);
      Some(Restart(h, e1))
    case F006 =>
      var e1 :- Environment.RestoreFile(h, e, UnitFilePath);
      Some(Restart(h, DaemonReload(e1)))
    case F007 | F015 =>
      var e1 :- Environment.RestoreFile(h, e, NginxConfigPath);
      Environment.NginxReload(h, e1)
    case F008 | F014 | F020 => Some(Restart(h, WriteChaos(e, "")))
    case F009 =>
      var e1 :- Environment.Chmod(e, LogPath, MODE_LOG_FILE);
      var e2 :- Environment.Chown(e1, LogPath, AppUser, AppUser);
      Some(Restart(h, e2))
    case F010 => Some(Restart(h, e))
    case F013 =>
      var e1 :- Environment.RestoreFile(h, e, UnitFilePath);
      Some(Start(h, DaemonReload(e1)))
    case F017 => Some(Restart(h, e.(manager := None)))
    case F018 => Some(RemoveFillers(e))
    case F021 => Some(e.(nft := []))
    case F019 => Some(ForceRemove(e, FILL))
  }

  // ---- what they leave on a reliable host, whether they succeed or not ----

  /** Only F-007 changes something before it can fail: it writes the file that nginx then refuses. */
  function ApplyLeaves(h: Host, f: FaultId, e: Env): Env {
    OrElse(ApplyEffect(h, f, e),
           if f == F007 then
             OrElse(EditFile(e, NginxConfigPath, Pattern(f), Replacement(f), MODE_NGINX_CONFIG, Root), e)
           else e)
  }

  /** Likewise the recoveries of the nginx faults. */
  function RecoverLeaves(h: Host, f: FaultId, e: Env): Env {
    OrElse(RecoverEffect(h, f, e),
           if f == F007 || f == F015 then OrElse(Environment.RestoreFile(h, e, NginxConfigPath), e) else e)
  }

  // ---- where they can stop on any host ----

  /** Apply has got to m: as far as some of its calls, and not through its last one. */
  ghost predicate MidApply(h: Host, f: FaultId, e: Env, m: Env) {
    || m == e
    || (match f
        case F002 | F016 => EditFile(e, ConfigPath, Pattern(f), Replacement(f), MODE_CONFIG, AppUser) == Some(m)
        case F006 =>
          var e1 := EditFile(e, UnitFilePath, Pattern(f), Replacement(f), MODE_UNIT_FILE, Root);
          e1 == Some(m) || (e1.Some? && m == DaemonReload(e1.value))
        case F007 => EditFile(e, NginxConfigPath, Pattern(f), Replacement(f), MODE_NGINX_CONFIG, Root) == Some(m)
        case F008 | F014 | F020 => m == WriteChaos(e, ChaosText(f))
        case F013 => EditFile(e, UnitFilePath, Pattern(f), Replacement(f), MODE_UNIT_FILE, Root) == Some(m)
        case F015 => WithBadDirective(e) == Some(m)
        case F017 => m == e.(manager := Some(""))
        case F018 => exists n: nat :: n <= FILLER_COUNT && m == Fillers(e, n)
        case _ => false)
  }

  ghost predicate MidRecover(h: Host, f: FaultId, e: Env, m: Env) {
    || m == e
    || (match f
        case F002 | F016 => Environment.RestoreFile(h, e, ConfigPath) == Some(m)
        case F003 => Environment.Chmod(e, ConfigPath, MODE_CONFIG) == Some(m)
        case F005 => Environment.Chmod(e, BinaryPath, MODE_BINARY) == Some(m)
        case F006 | F013 =>
          var e1 := Environment.RestoreFile(h, e, UnitFilePath);
          e1 == Some(m) || (e1.Some? && m == DaemonReload(e1.value))
        case F007 | F015 => Environment.RestoreFile(h, e, NginxConfigPath) == Some(m)
        case F008 | F014 | F020 => m == WriteChaos(e, "")
        case F009 =>
          var e1 := Environment.Chmod(e, LogPath, MODE_LOG_FILE);
          e1 == Some(m) || (e1.Some? && Environment.Chown(e1.value, LogPath, AppUser, AppUser) == Some(m))
        case F017 => m == e.(manager := None)
        case _ => false)
  }

  /** Apply stopped in or before a call, and that call has left e'. */
  ghost predicate ApplyStopsAt(h: Host, f: FaultId, e: Env, e': Env) {
    exists m :: MidApply(h, f, e, m) && FailedFrom(h, m, e')
  }

  ghost predicate RecoverStopsAt(h: Host, f: FaultId, e: Env, e': Env) {
    exists m :: MidRecover(h, f, e, m) && FailedFrom(h, m, e')
  }

  // ---- Apply and Recover as the executor runs them ----

  method EditAndWrite(exec: Executor, p: Path, pattern: string, newText: string, mode: Mode, owner: User)
    returns (ok: bool)
    requires exec.Valid()
    modifies exec
    ensures exec.Valid() && old(exec.trace) <= exec.trace
    ensures if ok then EditFile(old(exec.env), p, pattern, newText, mode, owner) == Some(exec.env)
            else exec.env == old(exec.env)
    ensures Reliable(exec.host) ==> ok == EditFile(old(exec.env), p, pattern, newText, mode, owner).Some?
  {
    hide Audited;
    if p !in exec.env.fs {
      return false;
    }
    var modified := ReplaceFirst(exec.env.fs[p].content, pattern, newText);
    ok := exec.WriteFile(p, modified, mode, owner, owner);
  }

  method WriteChaosAndRestart(exec: Executor, content: string) returns (ok: bool)
    requires exec.Valid()
    modifies exec
    ensures exec.Valid() && old(exec.trace) <= exec.trace
    ensures ok ==> exec.env == Restart(exec.host, WriteChaos(old(exec.env), content))
    ensures !ok ==> exec.env == old(exec.env) || FailedFrom(exec.host, WriteChaos(old(exec.env), content), exec.env)
    ensures Reliable(exec.host) ==> ok
  {
    hide Audited, FailedFrom;
    ok := exec.WriteFile(ChaosEnvPath, content, MODE_WORLD_READABLE, AppUser, AppUser);
    if !ok {
      return;
    }
    ok := exec.Systemctl(RestartApp);
  }

  method WriteFillers(exec: Executor, count: nat) returns (ok: bool)
    requires exec.Valid()
    modifies exec
    ensures exec.Valid() && old(exec.trace) <= exec.trace
    ensures ok ==> exec.env == Fillers(old(exec.env), count)
    ensures exists n: nat :: n <= count && exec.env == Fillers(old(exec.env), n)
    ensures Reliable(exec.host) ==> ok
  {
    hide Audited;
    var i := 1;
    assert exec.env == Fillers(old(exec.env), 0);
    while i <= count
      invariant 1 <= i <= count + 1
      invariant exec.Valid() && old(exec.trace) <= exec.trace
      invariant exec.env == Fillers(old(exec.env), i - 1)
    {
      ok := exec.WriteFile(Filler(i), "", MODE_WORLD_READABLE, AppUser, AppUser);
      if !ok {
        return;
      }
      i := i + 1;
    }
    ok := true;
  }

  /** The contract shared by what is built from executor calls: on a reliable host the outcome is decided. */
  twostate predicate Performed(exec: Executor, effect: Option<Env>, left: Env, ok: bool)
    reads exec
  {
    && exec.Valid() && old(exec.trace) <= exec.trace
    && (Reliable(exec.host) ==> ok == effect.Some? && exec.env == left)
  }

  /** F-015: the outcome of the reload is ignored. */
  method SpoilNginx(exec: Executor) returns (ok: bool)
    requires exec.Valid()
    modifies exec
    ensures Performed(exec, ApplyEffect(exec.host, F015, old(exec.env)),
                      ApplyLeaves(exec.host, F015, old(exec.env)), ok)
    ensures !ok ==> exec.env == old(exec.env)
    ensures ok ==>
              && WithBadDirective(old(exec.env)).Some?
              && var e1 := WithBadDirective(old(exec.env)).value;
                 Environment.NginxReload(exec.host, e1) == Some(exec.env) || FailedFrom(exec.host, e1, exec.env)
  {
    hide Audited, FailedFrom, Environment.NginxReload;
    if NginxConfigPath !in exec.env.fs {
      return false;
    }
    var badConfig := exec.env.fs[NginxConfigPath].content + BAD_DIRECTIVE;
    ok := exec.WriteFile(NginxConfigPath, badConfig, MODE_NGINX_CONFIG, Root, Root);
    if ok {
      var _ := exec.NginxReload();
    }
  }

  /** The faults that edit a file and take the edit into use. */
  method ApplyEdit(exec: Executor, f: FaultId) returns (ok: bool)
    requires exec.Valid()
    requires f in {F002, F006, F007, F013, F016}
    modifies exec
    ensures Performed(exec, ApplyEffect(exec.host, f, old(exec.env)), ApplyLeaves(exec.host, f, old(exec.env)), ok)
    ensures ok ==> ApplyEffect(exec.host, f, old(exec.env)) == Some(exec.env)
    ensures !ok ==> ApplyStopsAt(exec.host, f, old(exec.env), exec.env)
  {
    hide Audited, FailedFrom, EditFile, Pattern, Replacement, Restart, DaemonReload, Environment.NginxReload;
    ghost var m := exec.env;
    if f == F002 || f == F016 {
      ok := EditAndWrite(exec, ConfigPath, Pattern(f), Replacement(f), MODE_CONFIG, AppUser);
    } else if f == F007 {
      ok := EditAndWrite(exec, NginxConfigPath, Pattern(f), Replacement(f), MODE_NGINX_CONFIG, Root);
    } else {
      ok := EditAndWrite(exec, UnitFilePath, Pattern(f), Replacement(f), MODE_UNIT_FILE, Root);
    }
    if ok {
      m := exec.env;
      if f == F007 {
        ok := exec.NginxReload();
      } else if f == F006 || f == F013 {
        ok := exec.Systemctl(DaemonReloadAction);
      }
    }
    if ok && f != F007 && f != F013 {
      m := exec.env;
      ok := exec.Systemctl(RestartApp);
    }
    FailsInPlace(exec.host, m);
    assert !ok ==> MidApply(exec.host, f, old(exec.env), m) && FailedFrom(exec.host, m, exec.env);
  }

  method Apply(exec: Executor, f: FaultId) returns (ok: bool)
    requires exec.Valid()
    modifies exec
    ensures Performed(exec, ApplyEffect(exec.host, f, old(exec.env)), ApplyLeaves(exec.host, f, old(exec.env)), ok)
    ensures ok && f != F015 ==> ApplyEffect(exec.host, f, old(exec.env)) == Some(exec.env)
    ensures ok && f == F015 ==>
              && WithBadDirective(old(exec.env)).Some?
              && var e1 := WithBadDirective(old(exec.env)).value;
                 Environment.NginxReload(exec.host, e1) == Some(exec.env) || FailedFrom(exec.host, e1, exec.env)
    ensures !ok ==> ApplyStopsAt(exec.host, f, old(exec.env), exec.env)
  {
    hide Audited, FailedFrom, EditFile, ChaosText, Fillers, Restart, WithBadDirective, WriteChaos;
    hide Environment.WriteFile, Environment.NginxReload;
    ghost var m := exec.env;
    match f {
      case F001 => ok := exec.Remove(ConfigPath);
      case F002 | F006 | F007 | F013 | F016 =>
        ok := ApplyEdit(exec, f);
        return;
      case F003 => ok := exec.Chmod(ConfigPath, 0);
      case F004 => ok := exec.Chmod(StateDir, 0);
      case F005 => ok := exec.Chmod(BinaryPath, 0x1A0);
      case F008 | F014 | F020 =>
        ok := WriteChaosAndRestart(exec, ChaosText(f));
        if exec.env != m {
          m := WriteChaos(m, ChaosText(f));
        }
      case F009 => ok := exec.Chmod(LogPath, 0);
      case F010 => ok := exec.Remove(LogPath);
      case F015 => ok := SpoilNginx(exec);
      case F017 =>
        ok := exec.RunMutation(SetAppEnv(""));
        if ok {
          m := exec.env;
          ok := exec.Systemctl(RestartApp);
        }
      case F018 =>
        ok := WriteFillers(exec, FILLER_COUNT);
        m := exec.env;
      case F021 => ok := exec.RunMutation(NftAddDrop);
      case F019 => ok := exec.RunMutation(DdFill);
    }
    FailsInPlace(exec.host, m);
    assert !ok ==> MidApply(exec.host, f, old(exec.env), m) && FailedFrom(exec.host, m, exec.env);
  }

  /** The recoveries that put a canonical file back and restart or start the service. */
  method RestoreAndRestart(exec: Executor, f: FaultId) returns (ok: bool)
    requires exec.Valid()
    requires f in {F002, F006, F013, F016}
    modifies exec
    ensures Performed(exec, RecoverEffect(exec.host, f, old(exec.env)), RecoverLeaves(exec.host, f, old(exec.env)), ok)
    ensures ok ==> RecoverEffect(exec.host, f, old(exec.env)) == Some(exec.env)
    ensures !ok ==> RecoverStopsAt(exec.host, f, old(exec.env), exec.env)
  {
    hide Audited, FailedFrom, Restart, Start, DaemonReload, Environment.WriteFile;
    ghost var m := exec.env;
    var p := if f == F002 || f == F016 then ConfigPath else UnitFilePath;
    ok := exec.RestoreFile(p);
    if ok && p == UnitFilePath {
      m := exec.env;
      ok := exec.Systemctl(DaemonReloadAction);
    }
    if ok {
      m := exec.env;
      ok := exec.Systemctl(if f == F013 then StartApp else RestartApp);
    }
    FailsInPlace(exec.host, m);
    assert !ok ==> MidRecover(exec.host, f, old(exec.env), m) && FailedFrom(exec.host, m, exec.env);
  }

  /** The recoveries that put modes and ownership back and restart the service. */
  method RepairAndRestart(exec: Executor, f: FaultId) returns (ok: bool)
    requires exec.Valid()
    requires f == F003 || f == F005 || f == F009
    modifies exec
    ensures Performed(exec, RecoverEffect(exec.host, f, old(exec.env)), RecoverLeaves(exec.host, f, old(exec.env)), ok)
    ensures ok ==> RecoverEffect(exec.host, f, old(exec.env)) == Some(exec.env)
    ensures !ok ==> RecoverStopsAt(exec.host, f, old(exec.env), exec.env)
  {
    hide Audited, FailedFrom, Restart;
    ghost var m := exec.env;
    if f == F003 {
      ok := exec.Chmod(ConfigPath, MODE_CONFIG);
      if ok {
        var _ := exec.Systemctl(ResetFailed);
      }
    } else if f == F005 {
      ok := exec.Chmod(BinaryPath, MODE_BINARY);
    } else {
      ok := exec.Chmod(LogPath, MODE_LOG_FILE);
      if ok {
        m := exec.env;
        ok := exec.Chown(LogPath, AppUser, AppUser);
      }
    }
    if ok {
      m := exec.env;
      ok := exec.Systemctl(RestartApp);
    }
    FailsInPlace(exec.host, m);
    assert !ok ==> MidRecover(exec.host, f, old(exec.env), m) && FailedFrom(exec.host, m, exec.env);
  }

  method Recover(exec: Executor, f: FaultId) returns (ok: bool)
    requires exec.Valid()
    modifies exec
    ensures Performed(exec, RecoverEffect(exec.host, f, old(exec.env)), RecoverLeaves(exec.host, f, old(exec.env)), ok)
    ensures ok ==> RecoverEffect(exec.host, f, old(exec.env)) == Some(exec.env)
    ensures !ok ==> RecoverStopsAt(exec.host, f, old(exec.env), exec.env)
  {
    hide Audited, FailedFrom, Restart, Start, DaemonReload, RemoveFillers;
    hide Environment.WriteFile, Environment.NginxReload;
    ghost var m := exec.env;
    match f {
      case F001 => ok := exec.RestoreFile(ConfigPath);
      case F002 | F006 | F013 | F016 =>
        ok := RestoreAndRestart(exec, f);
        return;
      case F003 | F005 | F009 =>
        ok := RepairAndRestart(exec, f);
        return;
      case F004 => ok := exec.Chmod(StateDir, MODE_STATE_DIR);
      case F007 | F015 =>
        ok := exec.RestoreFile(NginxConfigPath);
        if ok {
          m := exec.env;
          ok := exec.NginxReload();
        }
      case F008 | F014 | F020 =>
        ok := WriteChaosAndRestart(exec, "");
        if exec.env != m {
          m := WriteChaos(m, "");
        }
      case F010 => ok := exec.Systemctl(RestartApp);
      case F017 =>
        ok := exec.RunMutation(UnsetAppEnv);
        if ok {
          m := exec.env;
          ok := exec.Systemctl(RestartApp);
        }
      case F018 => ok := exec.RunMutation(RmFillers);
      case F021 => ok := exec.RunMutation(NftFlush);
      case F019 => ok := exec.RunMutation(RmFill);
    }
    FailsInPlace(exec.host, m);
    assert !ok ==> MidRecover(exec.host, f, old(exec.env), m) && FailedFrom(exec.host, m, exec.env);
  }

  // ---- what each fault is, apart from its effect ----

  /**
   * Confirmation is asked for exactly the faults that no Recover undoes, and exactly those are reset by
   * bootstrap; R1 is enough for F-010 alone, which only removes what a start recreates.
   */
  lemma FaultsByTier(f: FaultId)
    ensures RequiresConfirmation(f) <==> !IsReversible(f)
    ensures ResetTier(f) == R3 <==> !IsReversible(f)
    ensures ResetTier(f) == R1 <==> f == F010
    ensures ResetTier(f) in {R1, R2, R3}
    ensures PreconditionChecks(f) != [] <==> f == F010
  {
  }

  /** No user has any access, by the nine permission bits. */
  predicate Inaccessible(mode: Mode) {
    mode & 0x1FF == 0
  }

  predicate Executable(mode: Mode) {
    mode & 0x49 != 0
  }

  /** The path of the file a fault edits. */
  function EditedFile(f: FaultId): Option<Path> {
    match f
    case F002 | F016 => Some(ConfigPath)
    case F006 | F013 => Some(UnitFilePath)
    case F007 | F015 => Some(NginxConfigPath)
    case _ => None
  }

  function Edited(f: FaultId, text: string): string {
    if f == F015 then text + BAD_DIRECTIVE else ReplaceFirst(text, Pattern(f), Replacement(f))
  }

  /** What is in force in the file layer once a fault is applied, whatever was there before. */
  ghost predicate InForce(f: FaultId, e: Env, r: Env) {
    match f
    case F001 => ConfigPath !in r.fs
    case F003 => ConfigPath in r.fs && Inaccessible(r.fs[ConfigPath].mode)
    case F004 => StateDir in r.fs && Inaccessible(r.fs[StateDir].mode)
    case F005 => BinaryPath in r.fs && !Executable(r.fs[BinaryPath].mode) && r.fs[BinaryPath].mode != 0
    case F009 => LogPath in r.fs && Inaccessible(r.fs[LogPath].mode)
    case F010 => LogPath !in r.fs
    case F008 | F014 | F020 =>
      ChaosEnvPath in r.fs && r.fs[ChaosEnvPath] == Node(ChaosText(f), MODE_WORLD_READABLE, AppUser, AppUser)
    case F002 | F006 | F007 | F013 | F015 | F016 =>
      var p := EditedFile(f).value;
      p in e.fs && ContentOf(r.fs, p) == Some(Edited(f, e.fs[p].content))
    case F017 => r.manager == Some("")
    case F018 => forall i | 1 <= i <= FILLER_COUNT :: Filler(i) in r.fs
    case F019 => FILL in r.fs
    case F021 => |r.nft| == |e.nft| + 1 && r.nft[..|e.nft|] == e.nft
  }

  lemma ApplyIsInForce(h: Host, f: FaultId, e: Env, r: Env)
    requires ApplyEffect(h, f, e) == Some(r)
    ensures InForce(f, e, r)
    ensures EditedFile(f).Some? ==>
              var p := EditedFile(f).value;
              p in r.fs && Some(r.fs[p].(content := CanonicalNode(h, p).value.content)) == CanonicalNode(h, p)
  {
    hide Pattern, Replacement, ReplaceFirst, ChaosText, Filler;
    match f
    case F018 =>
      hide Fillers;
      FillersWritten(e, FILLER_COUNT);
    case F002 | F016 | F008 | F014 | F020 =>
      hide ComesUp;
    case F006 =>
      hide ComesUp;
    case F017 =>
      hide ComesUp;
    case _ =>
  }

  /** The variable of the service's configuration that a chaos fault is about. */
  function ChaosVariable(f: FaultId): string {
    match f
    case F008 => "CHAOS_IGNORE_SIGTERM"
    case F014 => "CHAOS_ZOMBIE_CHILDREN"
    case F020 => "CHAOS_LATENCY_MS"
    case _ => ""
  }

  /** The chaos file sets exactly one variable, that of its fault, on one line. */
  lemma ChaosTextSetsVariable(f: FaultId)
    requires f == F008 || f == F014 || f == F020
    ensures var name, text := ChaosVariable(f), ChaosText(f);
            && |text| > |name| + 2 && text[..|name|] == name && text[|name|] == '='
            && text[|text| - 1] == '\n' && text[|name| + 1] in "1234"
  {
  }

  /** F-002 moves the port and keeps the host; F-016 opens the host and keeps the port. */
  lemma AddressEdits()
    ensures Pattern(F002) == APP_BIND_ADDR && Pattern(F016) == APP_BIND_ADDR
    ensures var addr, moved := APP_BIND_ADDR, Replacement(F002);
            |addr| == 14 && |moved| == 14 && moved[..10] == addr[..10] && moved[10..] != addr[10..]
    ensures var addr, open := APP_BIND_ADDR, Replacement(F016);
            |addr| == 14 && |open| == 12 && open[7..] == addr[9..] && open[..7] != addr[..9]
  {
    assert Replacement(F002)[10..][0] != APP_BIND_ADDR[10..][0];
  }

  /** F-007 makes in nginx the move of F-002: the proxied server keeps its host and changes its port. */
  lemma ProxyEdit()
    ensures Pattern(F007) == "server " + Pattern(F002) + ";"
    ensures Replacement(F007) == "server " + Replacement(F002) + ";"
  {
  }

  /** F-006 takes a whole line out; F-013 starts another file of the same directory. */
  lemma UnitEdits()
    ensures Replacement(F006) == ""
    ensures |Pattern(F006)| > 0 && Pattern(F006)[|Pattern(F006)| - 1] == '\n'
    ensures |Pattern(F013)| > 19 && |Replacement(F013)| > 19
    ensures Pattern(F013)[..19] == Replacement(F013)[..19] && Pattern(F013)[19] != Replacement(F013)[19]
  {
  }

  /** A decimal is read back to the number it was written from. */
  function ValueOf(digits: string): nat {
    if digits == "" then 0
    else
      var last := digits[|digits| - 1];
      10 * ValueOf(digits[..|digits| - 1]) + if '0' <= last <= '9' then last as nat - '0' as nat else 0
  }

  lemma {:induction false} DecimalReadsBack(n: nat)
    ensures ValueOf(Decimal(n)) == n
  {
    var digits := Decimal(n);
    var front := if n < 10 then [] else Decimal(n / 10);
    assert digits[..|digits| - 1] == front;
    var d := "0123456789"[n % 10];
    assert d as nat - '0' as nat == n % 10;
    if n >= 10 {
      DecimalReadsBack(n / 10);
    }
  }

  /** So the loop of F-018 writes as many different files as it makes calls. */
  lemma FillersAreDistinct(i: nat, j: nat)
    ensures Filler(i) == Filler(j) ==> i == j
  {
    DecimalReadsBack(i);
    DecimalReadsBack(j);
    if Filler(i) == Filler(j) {
      assert ("file_" + Decimal(i))[5..] == Decimal(i);
      assert ("file_" + Decimal(j))[5..] == Decimal(j);
    }
  }

  /**
   * A failed Apply leaves everything as it was on a reliable host, but for F-007 on an edit that nginx
   * refuses: there the file is edited and the proxy runs on what it had.
   */
  lemma FailedApplyLeaves(h: Host, f: FaultId, e: Env)
    requires ApplyEffect(h, f, e).None?
    ensures var r := ApplyLeaves(h, f, e);
            if f == F007 && NginxConfigPath in e.fs then
              r == e.(fs := r.fs) && DifferAt(e.fs, r.fs, NginxConfigPath) && InForce(F007, e, r)
            else r == e
  {
    hide Pattern, Replacement, ReplaceFirst, Restart;
  }

  /** A failed Recover likewise, but for an nginx that refuses the canonical text it was given back. */
  lemma FailedRecoverLeaves(h: Host, f: FaultId, e: Env)
    requires RecoverEffect(h, f, e).None?
    ensures var r := RecoverLeaves(h, f, e);
            if f == F007 || f == F015 then
              && r == e.(fs := r.fs) && DifferAt(e.fs, r.fs, NginxConfigPath)
              && Lookup(r.fs, NginxConfigPath) == CanonicalNode(h, NginxConfigPath)
            else r == e
  {
    hide Restart;
  }

  // ---- recovery ----

  /** A second restart finds everything as the first one left it. */
  lemma RestartSettles(h: Host, e: Env)
    ensures Restart(h, Restart(h, e)) == Restart(h, e)
    ensures var r := Restart(h, e);
            && r == e.(app := r.app, fs := r.fs)
            && (r.fs == e.fs || (LogPath !in e.fs && r.fs == e.fs[LogPath := FRESH_LOG]))
  {
    var r := Restart(h, e);
    if r.app.Running? && LogPath !in e.fs {
      assert LaunchOf(r) == LaunchOf(e);
      assert OwnerWrites(MODE_LOG_FILE);
    }
  }

  /** Writing a node that is already there changes nothing. */
  lemma RewriteSettles(e: Env, p: Path)
    requires p in e.fs
    ensures e.(fs := e.fs[p := e.fs[p]]) == e
  {
    assert e.fs[p := e.fs[p]] == e.fs;
  }

  lemma WriteAndRestartSettle(h: Host, e: Env, p: Path, n: Node)
    requires p != LogPath
    ensures var r := Restart(h, e.(fs := e.fs[p := n]));
            p in r.fs && r.fs[p] == n && Restart(h, r.(fs := r.fs[p := n])) == r
  {
    var e1 := e.(fs := e.fs[p := n]);
    RestartSettles(h, e1);
    RewriteSettles(Restart(h, e1), p);
  }

  /** Recovering again, from any environment on which it succeeded, changes nothing more. */
  lemma RecoverIsIdempotent(h: Host, f: FaultId, e: Env)
    requires RecoverEffect(h, f, e).Some?
    ensures RecoverEffect(h, f, RecoverEffect(h, f, e).value) == RecoverEffect(h, f, e)
  {
    var once := RecoverEffect(h, f, e).value;
    match f
    case F001 => RewriteSettles(once, ConfigPath);
    case F002 | F016 => WriteAndRestartSettle(h, e, ConfigPath, CanonicalNode(h, ConfigPath).value);
    case F003 => WriteAndRestartSettle(h, e, ConfigPath, e.fs[ConfigPath].(mode := MODE_CONFIG));
    case F004 => RewriteSettles(once, StateDir);
    case F005 => WriteAndRestartSettle(h, e, BinaryPath, e.fs[BinaryPath].(mode := MODE_BINARY));
    case F006 | F013 => UnitRecoverySettles(h, f, e);
    case F007 | F015 => RewriteSettles(once, NginxConfigPath);
    case F008 | F014 | F020 =>
      WriteAndRestartSettle(h, e, ChaosEnvPath, Node("", MODE_WORLD_READABLE, AppUser, AppUser));
    case F009 => LogRecoverySettles(h, e);
    case F010 => RestartSettles(h, e);
    case F017 => RestartSettles(h, e.(manager := None));
    case F018 => assert RemoveFillers(once).fs == once.fs;
    case F021 =>
    case F019 => assert ForceRemove(once, FILL).fs == once.fs;
  }

  /**
   * A Recover that stopped in or before any of its calls is completed by running it again: it comes to
   * what it would have come to undisturbed.
   */
  lemma RecoverResumes(h: Host, f: FaultId, e: Env, m: Env)
    requires MidRecover(h, f, e, m)
    ensures RecoverEffect(h, f, m) == RecoverEffect(h, f, e)
  {
    hide Restart, Start, RemoveFillers;
    if m != e {
      match f
      case F002 | F016 => RewriteSettles(m, ConfigPath);
      case F003 => RewriteSettles(m, ConfigPath);
      case F005 => RewriteSettles(m, BinaryPath);
      case F006 | F013 => RewriteSettles(m, UnitFilePath);
      case F007 | F015 => RewriteSettles(m, NginxConfigPath);
      case F008 | F014 | F020 => RewriteSettles(m, ChaosEnvPath);
      case F009 => LogRecoveryResumes(h, e, m);
      case _ =>
    }
  }

  lemma LogRecoveryResumes(h: Host, e: Env, m: Env)
    requires LogPath in e.fs && MidRecover(h, F009, e, m) && m != e
    ensures RecoverEffect(h, F009, m) == RecoverEffect(h, F009, e)
  {
    hide Restart;
    RewriteSettles(m, LogPath);
    assert Environment.Chmod(m, LogPath, MODE_LOG_FILE) == Some(m);
    var e1 := Environment.Chmod(e, LogPath, MODE_LOG_FILE).value;
    var e2 := Environment.Chown(e1, LogPath, AppUser, AppUser).value;
    if m != e1 {
      assert m == e2;
      assert Environment.Chown(m, LogPath, AppUser, AppUser) == Some(m);
    }
  }

  /**
   * So is an Apply, unless it edits a file. One that does edits its own edit: F-002 and F-016 reach the
   * next mention of the address, and F-015 puts its directive there twice.
   */
  lemma ApplyResumes(h: Host, f: FaultId, e: Env, m: Env)
    requires MidApply(h, f, e, m)
    ensures EditedFile(f).None? ==> ApplyEffect(h, f, m) == ApplyEffect(h, f, e)
    ensures EditedFile(f).Some? && m != e && ApplyEffect(h, f, m).Some? ==>
              var p := EditedFile(f).value;
              && p in e.fs
              && ContentOf(ApplyEffect(h, f, m).value.fs, p) == Some(Edited(f, Edited(f, e.fs[p].content)))
  {
    hide Restart, Pattern, Replacement, ReplaceFirst, ChaosText, Fillers;
    if m != e {
      match f
      case F008 | F014 | F020 => RewriteSettles(m, ChaosEnvPath);
      case F018 =>
        var n: nat :| n <= FILLER_COUNT && m == Fillers(e, n);
        FillersResume(e, n, FILLER_COUNT);
      case F002 | F006 | F016 => EditedTwice(h, f, e, m);
      case _ =>
    }
  }

  lemma EditedTwice(h: Host, f: FaultId, e: Env, m: Env)
    requires f == F002 || f == F006 || f == F016
    requires MidApply(h, f, e, m) && m != e
    ensures var p := EditedFile(f).value;
            && p in e.fs && ApplyEffect(h, f, m).Some?
            && ContentOf(ApplyEffect(h, f, m).value.fs, p) == Some(Edited(f, Edited(f, e.fs[p].content)))
  {
    hide ComesUp, Pattern, Replacement, ReplaceFirst;
    var p := EditedFile(f).value;
    assert m.fs[p].content == Edited(f, e.fs[p].content);
  }

  /** The loop run again writes what is there and then goes on. */
  lemma {:induction false} FillersResume(e: Env, n: nat, k: nat)
    ensures Fillers(Fillers(e, n), k) == Fillers(e, if k <= n then n else k)
  {
    hide Filler;
    if k > 0 {
      FillersResume(e, n, k - 1);
      if k <= n {
        FillerNodes(e, n, k);
        RewriteSettles(Fillers(e, n), Filler(k));
      }
    }
  }

  lemma {:induction false} FillerNodes(e: Env, n: nat, i: nat)
    requires 1 <= i <= n
    ensures Lookup(Fillers(e, n).fs, Filler(i)) == Some(Node("", MODE_WORLD_READABLE, AppUser, AppUser))
  {
    hide Filler;
    if i < n {
      FillerNodes(e, n - 1, i);
    }
  }

  lemma UnitRecoverySettles(h: Host, f: FaultId, e: Env)
    requires f == F006 || f == F013
    ensures RecoverEffect(h, f, e).Some?
    ensures RecoverEffect(h, f, RecoverEffect(h, f, e).value) == RecoverEffect(h, f, e)
  {
    var once := RecoverEffect(h, f, e).value;
    var e1 := Environment.RestoreFile(h, e, UnitFilePath).value;
    RestartSettles(h, DaemonReload(e1));
    RewriteSettles(once, UnitFilePath);
    assert DaemonReload(once) == once;
  }

  lemma LogRecoverySettles(h: Host, e: Env)
    requires LogPath in e.fs
    ensures RecoverEffect(h, F009, e).Some?
    ensures RecoverEffect(h, F009, RecoverEffect(h, F009, e).value) == RecoverEffect(h, F009, e)
  {
    var e1 := Environment.Chmod(e, LogPath, MODE_LOG_FILE).value;
    var e2 := Environment.Chown(e1, LogPath, AppUser, AppUser).value;
    RestartSettles(h, e2);
    var once := Restart(h, e2);
    RewriteSettles(once, LogPath);
    assert Environment.Chmod(once, LogPath, MODE_LOG_FILE) == Some(once);
  }

  /** The loop leaves everything but filler files as it was. */
  lemma {:induction false} FillersTouchOnlyFillers(e: Env, n: nat)
    ensures var r := Fillers(e, n);
            && r == e.(fs := r.fs)
            && e.fs.Keys <= r.fs.Keys
            && (forall p | p in r.fs && !IsFiller(p) :: p in e.fs && r.fs[p] == e.fs[p])
  {
    if n > 0 {
      FillersTouchOnlyFillers(e, n - 1);
      assert IsFiller(Filler(n));
    }
  }

  /** Every file of the loop is there afterwards, and no other is new. */
  lemma {:induction false} FillersWritten(e: Env, n: nat)
    ensures forall i | 1 <= i <= n :: Filler(i) in Fillers(e, n).fs
    ensures forall p | p in Fillers(e, n).fs && p !in e.fs :: exists i | 1 <= i <= n :: p == Filler(i)
  {
    hide Filler;
    if n > 0 {
      FillersWritten(e, n - 1);
      var r := Fillers(e, n - 1);
      forall p | p in Fillers(e, n).fs && p !in e.fs ensures exists i | 1 <= i <= n :: p == Filler(i) {
        if p != Filler(n) {
          assert p in r.fs;
        }
      }
    }
  }

  /**
   * After any part of the F-018 loop, Recover leaves everything that is not named like a filler alone.
   * It undoes the loop exactly when no file was named like one before.
   */
  lemma PartialFillersRecovered(h: Host, e: Env, n: nat)
    ensures var r := RecoverEffect(h, F018, Fillers(e, n));
            && r == Some(RemoveFillers(e))
            && (r == Some(e) <==> forall p | p in e.fs :: !IsFiller(p))
  {
    FillersTouchOnlyFillers(e, n);
    var r := RemoveFillers(Fillers(e, n));
    assert r.fs == RemoveFillers(e).fs;
    if forall p | p in e.fs :: !IsFiller(p) {
      assert r.fs == e.fs;
    }
  }

  /** Contrary to its interface comment, the Recover of a fault that is not reversible reports no error. */
  lemma IrreversibleRecoverSucceeds(h: Host, f: FaultId, e: Env)
    requires !IsReversible(f)
    ensures RecoverEffect(h, f, e).Some?
    ensures ContentOf(RecoverEffect(h, f, e).value.fs, ChaosEnvPath) == Some("")
  {
  }
}
