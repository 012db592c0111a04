/** What a canonical environment is, aspect by aspect, and what each fault leaves of it. */
module Canonical {
  import opened Common
  import opened Conformance
  import opened Record
  import opened Environment
  import opened Executor
  import opened Faults

  /** The separately damaged and repaired parts of the file layer. */
  datatype Aspect =
    | ABinary | AConfig | AUnit | ANginx | ALogDir | AStateDir
    | ALog | AChaos | AFillers | AFill | AManager | ANft

  const EMPTY_CHAOS := Node("", MODE_WORLD_READABLE, AppUser, AppUser)

  predicate RightLog(n: Node) {
    n.mode == MODE_LOG_FILE && n.owner == AppUser && n.group == AppUser
  }

  /** The aspect carries no damage. A missing log is none: the next start recreates it. */
  predicate CleanAt(h: Host, e: Env, a: Aspect) {
    match a
    case ABinary => BinaryPath in e.fs && e.fs[BinaryPath].mode == MODE_BINARY
    case AConfig => Lookup(e.fs, ConfigPath) == CanonicalNode(h, ConfigPath)
    case AUnit => Lookup(e.fs, UnitFilePath) == CanonicalNode(h, UnitFilePath)
    case ANginx => Lookup(e.fs, NginxConfigPath) == CanonicalNode(h, NginxConfigPath)
    case ALogDir => LogDir in e.fs && e.fs[LogDir].mode == MODE_LOG_DIR
    case AStateDir => StateDir in e.fs && e.fs[StateDir].mode == MODE_STATE_DIR
    case ALog => LogPath in e.fs ==> RightLog(e.fs[LogPath])
    case AChaos => Lookup(e.fs, ChaosEnvPath) == Some(EMPTY_CHAOS)
    case AFillers => forall p | p in e.fs :: !IsFiller(p)
    case AFill => FILL !in e.fs
    case AManager => e.manager == None
    case ANft => e.nft == []
  }

  /** What no fault removes and no reset restores. */
  predicate Skeleton(e: Env) {
    && BinaryPath in e.fs && e.fs[BinaryPath].owner == AppUser
    && LogDir in e.fs && e.fs[LogDir].owner == AppUser
    && StateDir in e.fs && e.fs[StateDir].owner == AppUser
  }

  predicate Clean(h: Host, e: Env) {
    && Skeleton(e)
    && forall a: Aspect :: CleanAt(h, e, a)
  }

  /** Both layers canonical: nothing damaged, the log there, and the loaded layer taken from this file layer. */
  predicate IsCanonical(h: Host, e: Env) {
    && Clean(h, e)
    && LogPath in e.fs
    && e.loadedUnit == Some(h.unitText)
    && e.app == Running(LaunchOf(e))
    && e.proxy == Some(h.nginxText)
  }

  /** The aspect is as before, except that a start may have put a missing log back. */
  ghost predicate SameAt(e: Env, r: Env, a: Aspect) {
    match a
    case ABinary => Lookup(r.fs, BinaryPath) == Lookup(e.fs, BinaryPath)
    case AConfig => Lookup(r.fs, ConfigPath) == Lookup(e.fs, ConfigPath)
    case AUnit => Lookup(r.fs, UnitFilePath) == Lookup(e.fs, UnitFilePath)
    case ANginx => Lookup(r.fs, NginxConfigPath) == Lookup(e.fs, NginxConfigPath)
    case ALogDir => Lookup(r.fs, LogDir) == Lookup(e.fs, LogDir)
    case AStateDir => Lookup(r.fs, StateDir) == Lookup(e.fs, StateDir)
    case ALog =>
      || Lookup(r.fs, LogPath) == Lookup(e.fs, LogPath)
      || (LogPath !in e.fs && Lookup(r.fs, LogPath) == Some(FRESH_LOG))
    case AChaos => Lookup(r.fs, ChaosEnvPath) == Lookup(e.fs, ChaosEnvPath)
    case AFillers => forall p | IsFiller(p) :: Lookup(r.fs, p) == Lookup(e.fs, p)
    case AFill => Lookup(r.fs, FILL) == Lookup(e.fs, FILL)
    case AManager => r.manager == e.manager
    case ANft => r.nft == e.nft
  }

  /** Files of the state directory that are neither fillers nor the fill file stay as they are. */
  ghost predicate SameElsewhere(e: Env, r: Env) {
    forall p: Path | p.InStateDir? && !IsFiller(p) && p != FILL :: Lookup(r.fs, p) == Lookup(e.fs, p)
  }

  lemma SameKeepsClean(h: Host, e: Env, r: Env, a: Aspect)
    requires SameAt(e, r, a) && CleanAt(h, e, a)
    ensures CleanAt(h, r, a)
  {
    if a == AFillers {
      forall p | p in r.fs ensures !IsFiller(p) {
        assert IsFiller(p) ==> Lookup(r.fs, p) == Lookup(e.fs, p);
      }
    }
  }

  lemma CleanGoesBack(h: Host, e: Env, r: Env, a: Aspect)
    requires SameAt(e, r, a) && CleanAt(h, r, a)
    ensures CleanAt(h, e, a)
  {
    if a == AFillers {
      forall p | p in e.fs ensures !IsFiller(p) {
        assert IsFiller(p) ==> Lookup(r.fs, p) == Lookup(e.fs, p);
      }
    }
  }

  /** The faults that look for a pattern in one of the three files with canonical content. */
  predicate EditsText(f: FaultId) {
    f in {F002, F006, F007, F013, F016}
  }

  function EditedPath(f: FaultId): (p: Path) {
    match f
    case F007 => NginxConfigPath
    case F006 | F013 => UnitFilePath
    case _ => ConfigPath
  }

  /** The parameters are those of a working host. */
  ghost predicate Sound(h: Host) {
    && Reliable(h)
    && h.accepts(h.nginxText)
    && (forall e: Env {:trigger h.boots(LaunchOf(e))} ::
          Clean(h, e) && e.loadedUnit == Some(h.unitText) ==> h.boots(LaunchOf(e)))
    && (forall e: Env :: IsCanonical(h, h.bootstrap(e)))
    && (forall e: Env, id: CheckId :: IsCanonical(h, e) && BlockingId(id) ==> Passes(h.observe(e), id))
    && (forall f | EditsText(f) && EditedPath(f) == NginxConfigPath ::
          h.accepts(ReplaceFirst(h.nginxText, Pattern(f), Replacement(f))))
  }

  /** So the suite accepts every canonical environment. */
  lemma CanonicalConforms(h: Host, e: Env)
    requires Sound(h) && IsCanonical(h, e)
    ensures Suite(h.observe(e)).classification.IsConformant()
  {
    hide IsCanonical, Suite, Passes;
    SuiteConformantMeaning(h.observe(e));
  }

  // ---- what a fault damages ----

  /** The aspects a fault leaves damaged; a removed log counts as none. */
  function Scar(f: FaultId): set<Aspect> {
    match f
    case F001 | F002 | F003 | F016 => {AConfig}
    case F004 => {AStateDir}
    case F005 => {ABinary}
    case F006 | F013 => {AUnit}
    case F007 | F015 => {ANginx}
    case F008 | F014 | F020 => {AChaos}
    case F009 => {ALog}
    case F010 => {}
    case F017 => {AManager}
    case F018 => {AFillers}
    case F019 => {AFill}
    case F021 => {ANft}
  }

  /** The loaded unit is the one on disk. */
  predicate UnitLoaded(e: Env) {
    e.loadedUnit == ContentOf(e.fs, UnitFilePath)
  }

  lemma RestartScarsNothing(h: Host, e: Env)
    ensures var r := Restart(h, e);
            && (forall a :: SameAt(e, r, a))
            && SameElsewhere(e, r)
            && (UnitLoaded(e) ==> UnitLoaded(r))
            && (Skeleton(e) ==> Skeleton(r))
  {
    RestartSettles(h, e);
  }

  /** Writing or removing one path leaves the aspects of all other paths as they were. */
  lemma WriteScarsOnePath(e: Env, p: Path, n: Node, a: Aspect)
    requires a != AspectOf(p)
    ensures SameAt(e, e.(fs := e.fs[p := n]), a)
    ensures SameAt(e, e.(fs := e.fs - {p}), a)
  {
  }

  function AspectOf(p: Path): Aspect {
    match p
    case BinaryPath => ABinary
    case ConfigPath => AConfig
    case ChaosEnvPath => AChaos
    case UnitFilePath => AUnit
    case NginxConfigPath => ANginx
    case LogDir => ALogDir
    case LogPath => ALog
    case StateDir => AStateDir
    case InStateDir(name) => if p == FILL then AFill else AFillers
  }

  lemma SameAtTransitive(e: Env, m: Env, r: Env, a: Aspect)
    requires SameAt(e, m, a) && SameAt(m, r, a)
    ensures SameAt(e, r, a)
  {
  }

  /** A write and a restart leave everything outside the written path as it was, but for a recreated log. */
  lemma WriteThenRestart(h: Host, e: Env, p: Path, n: Node, a: Aspect)
    requires a != AspectOf(p)
    ensures SameAt(e, Restart(h, e.(fs := e.fs[p := n])), a)
  {
    var e1 := e.(fs := e.fs[p := n]);
    WriteScarsOnePath(e, p, n, a);
    RestartScarsNothing(h, e1);
    SameAtTransitive(e, e1, Restart(h, e1), a);
  }

  /** Apply touches nothing outside its scar, but for a log that F-010 removes or a start recreates. */
  lemma ApplySameOutsideScar(h: Host, f: FaultId, e: Env, r: Env, a: Aspect)
    requires ApplyEffect(h, f, e) == Some(r)
    requires a !in Scar(f) && f != F010
    ensures SameAt(e, r, a) && SameElsewhere(e, r)
  {
    hide SameAt, SameElsewhere, ApplyEffect;
    ApplySameElsewhere(h, f, e, r);
    match f
    case F002 | F016 => ConfigSameOutsideScar(h, f, e, r, a);
    case F006 | F013 => UnitSameOutsideScar(h, f, e, r, a);
    case F007 | F015 => NginxSameOutsideScar(h, f, e, r, a);
    case F008 | F014 | F020 => ChaosSameOutsideScar(h, f, e, r, a);
    case F017 | F018 | F021 => SettingSameOutsideScar(h, f, e, r, a);
    case _ => OnePathSameOutsideScar(h, f, e, r, a);
  }

  /** No fault touches a file of the state directory but its own fillers and fill file. */
  lemma ApplySameElsewhere(h: Host, f: FaultId, e: Env, r: Env)
    requires ApplyEffect(h, f, e) == Some(r)
    ensures SameElsewhere(e, r)
  {
    hide Fillers, Pattern, Replacement, ReplaceFirst, ChaosText;
    if f == F018 {
      FillersTouchOnlyFillers(e, FILLER_COUNT);
    }
  }

  /** The faults that change the manager environment, the nftables chain or the fillers. */
  lemma SettingSameOutsideScar(h: Host, f: FaultId, e: Env, r: Env, a: Aspect)
    requires f == F017 || f == F018 || f == F021
    requires ApplyEffect(h, f, e) == Some(r) && a !in Scar(f)
    ensures SameAt(e, r, a)
  {
    match f
    case F017 =>
      hide Restart;
      var e1 := e.(manager := Some(""));
      RestartScarsNothing(h, e1);
      SameAtTransitive(e, e1, r, a);
    case F018 =>
      hide ApplyEffect, SameAt;
      FillersSameOutsideScar(h, e, r, a);
    case F021 =>
  }

  lemma FillersSameOutsideScar(h: Host, e: Env, r: Env, a: Aspect)
    requires ApplyEffect(h, F018, e) == Some(r) && a != AFillers
    ensures SameAt(e, r, a)
  {
    hide Fillers;
    FillersTouchOnlyFillers(e, FILLER_COUNT);
    assert forall p | !IsFiller(p) :: Lookup(r.fs, p) == Lookup(e.fs, p);
    assert !IsFiller(FILL);
  }

  /** The faults that change, remove or create a single path and nothing else. */
  lemma OnePathSameOutsideScar(h: Host, f: FaultId, e: Env, r: Env, a: Aspect)
    requires f in {F001, F003, F004, F005, F009, F019}
    requires ApplyEffect(h, f, e) == Some(r) && a !in Scar(f)
    ensures SameAt(e, r, a)
  {
    hide SameAt;
    match f
    case F001 => WriteScarsOnePath(e, ConfigPath, EMPTY_CHAOS, a);
    case F003 => WriteScarsOnePath(e, ConfigPath, r.fs[ConfigPath], a);
    case F004 => WriteScarsOnePath(e, StateDir, r.fs[StateDir], a);
    case F005 => WriteScarsOnePath(e, BinaryPath, r.fs[BinaryPath], a);
    case F009 => WriteScarsOnePath(e, LogPath, r.fs[LogPath], a);
    case F019 => WriteScarsOnePath(e, FILL, r.fs[FILL], a);
  }

  lemma ConfigSameOutsideScar(h: Host, f: FaultId, e: Env, r: Env, a: Aspect)
    requires f == F002 || f == F016
    requires ApplyEffect(h, f, e) == Some(r) && a != AConfig
    ensures SameAt(e, r, a)
  {
    hide SameAt, Restart, ReplaceFirst, Pattern, Replacement;
    var n := Node(ReplaceFirst(e.fs[ConfigPath].content, Pattern(f), Replacement(f)), MODE_CONFIG, AppUser, AppUser);
    WriteThenRestart(h, e, ConfigPath, n, a);
  }

  lemma ChaosSameOutsideScar(h: Host, f: FaultId, e: Env, r: Env, a: Aspect)
    requires f == F008 || f == F014 || f == F020
    requires ApplyEffect(h, f, e) == Some(r) && a != AChaos
    ensures SameAt(e, r, a)
  {
    hide SameAt, Restart, ChaosText;
    WriteThenRestart(h, e, ChaosEnvPath, Node(ChaosText(f), MODE_WORLD_READABLE, AppUser, AppUser), a);
  }

  lemma UnitSameOutsideScar(h: Host, f: FaultId, e: Env, r: Env, a: Aspect)
    requires f == F006 || f == F013
    requires ApplyEffect(h, f, e) == Some(r) && a != AUnit
    ensures SameAt(e, r, a)
  {
    hide SameAt, Restart, ReplaceFirst, Pattern, Replacement;
    var n := Node(ReplaceFirst(e.fs[UnitFilePath].content, Pattern(f), Replacement(f)), MODE_UNIT_FILE, Root, Root);
    var e1 := e.(fs := e.fs[UnitFilePath := n]);
    WriteScarsOnePath(e, UnitFilePath, n, a);
    ReloadScarsNothing(e1, a);
    SameAtTransitive(e, e1, DaemonReload(e1), a);
    if f == F006 {
      RestartScarsNothing(h, DaemonReload(e1));
      SameAtTransitive(e, DaemonReload(e1), r, a);
    }
  }

  lemma ReloadScarsNothing(e: Env, a: Aspect)
    ensures SameAt(e, DaemonReload(e), a)
  {
  }

  lemma NginxSameOutsideScar(h: Host, f: FaultId, e: Env, r: Env, a: Aspect)
    requires f == F007 || f == F015
    requires ApplyEffect(h, f, e) == Some(r) && a != ANginx
    ensures SameAt(e, r, a)
  {
    WriteScarsOnePath(e, NginxConfigPath, r.fs[NginxConfigPath], a);
  }

  /** An undamaged aspect outside the fault's scar stays undamaged. */
  lemma ApplyScars(h: Host, f: FaultId, e: Env, r: Env, a: Aspect)
    requires ApplyEffect(h, f, e) == Some(r)
    requires a !in Scar(f)
    ensures CleanAt(h, e, a) ==> CleanAt(h, r, a)
  {
    if f == F010 {
      if a != ALog {
        WriteScarsOnePath(e, LogPath, EMPTY_CHAOS, a);
      }
    } else {
      ApplySameOutsideScar(h, f, e, r, a);
    }
    if CleanAt(h, e, a) && !(f == F010 && a == ALog) {
      SameKeepsClean(h, e, r, a);
    }
  }

  /** No fault removes a directory or the binary or changes their owners. */
  lemma ApplyKeepsSkeleton(h: Host, f: FaultId, e: Env, r: Env)
    requires ApplyEffect(h, f, e) == Some(r)
    ensures Skeleton(e) ==> Skeleton(r)
  {
    hide Pattern, Replacement, ReplaceFirst, ChaosText, Fillers, Restart;
    if f !in {F004, F005, F010} {
      ApplySameOutsideScar(h, f, e, r, ABinary);
      ApplySameOutsideScar(h, f, e, r, ALogDir);
      ApplySameOutsideScar(h, f, e, r, AStateDir);
    }
  }

  /** After every fault the loaded unit is the one on disk, if it was before. */
  lemma ApplyKeepsUnitLoaded(h: Host, f: FaultId, e: Env, r: Env)
    requires ApplyEffect(h, f, e) == Some(r)
    ensures UnitLoaded(e) ==> UnitLoaded(r)
  {
    hide Pattern, Replacement, ReplaceFirst, ChaosText;
    match f
    case F006 =>
      var e1 := EditFile(e, UnitFilePath, Pattern(f), Replacement(f), MODE_UNIT_FILE, Root).value;
      RestartScarsNothing(h, DaemonReload(e1));
    case F010 | F013 =>
    case F018 => FillersTouchOnlyFillers(e, FILLER_COUNT);
    case _ => ApplySameOutsideScar(h, f, e, r, AUnit);
  }

  /** A fault applied to a canonical environment of a working host goes through. */
  lemma ApplySucceeds(h: Host, f: FaultId, c: Env)
    requires Sound(h) && IsCanonical(h, c)
    ensures ApplyEffect(h, f, c).Some?
  {
    hide Pattern, Replacement, ReplaceFirst, ChaosText, Fillers, Restart;
    assert CleanAt(h, c, AConfig) && CleanAt(h, c, AUnit) && CleanAt(h, c, ANginx);
    assert CleanAt(h, c, ABinary) && CleanAt(h, c, AStateDir);
  }

  /** The canonical text a fault looks into. */
  function CanonicalText(h: Host, f: FaultId): string {
    match f
    case F007 => h.nginxText
    case F006 | F013 => h.unitText
    case _ => h.configText
  }

  /** The canonical text is the same after the fault's replacement. */
  predicate EditFindsNothing(h: Host, f: FaultId) {
    EditsText(f) && ReplaceFirst(CanonicalText(h, f), Pattern(f), Replacement(f)) == CanonicalText(h, f)
  }

  /** A fault leaves a canonical environment canonical exactly when its replacement finds nothing to change. */
  lemma ApplyBreaksCanonical(h: Host, f: FaultId, c: Env)
    requires Sound(h) && IsCanonical(h, c) && ApplyEffect(h, f, c).Some?
    ensures IsCanonical(h, ApplyEffect(h, f, c).value) <==> EditFindsNothing(h, f)
  {
    hide ApplyEffect, CleanAt, EditFindsNothing, EditsText;
    var r := ApplyEffect(h, f, c).value;
    if f == F010 {
      RemovedLogIsDamage(h, c, r);
    } else {
      var a :| a in Scar(f);
      assert CleanAt(h, c, a);
      if EditFindsNothing(h, f) {
        EmptyEditIsNoDamage(h, f, c, r);
      } else if EditsText(f) {
        EditIsDamage(h, f, c, r, a);
      } else {
        ScarIsDamage(h, f, c, r, a);
      }
    }
  }

  lemma RemovedLogIsDamage(h: Host, c: Env, r: Env)
    requires ApplyEffect(h, F010, c) == Some(r)
    ensures !IsCanonical(h, r) && !EditFindsNothing(h, F010)
  {
    hide Clean, ReplaceFirst;
  }

  lemma ScarIsDamage(h: Host, f: FaultId, c: Env, r: Env, a: Aspect)
    requires ApplyEffect(h, f, c) == Some(r)
    requires a in Scar(f) && CleanAt(h, c, a) && !EditsText(f)
    ensures !CleanAt(h, r, a)
  {
    match f
    case F008 | F014 | F020 => ChaosIsDamage(h, f, c, r);
    case F015 =>
      hide ApplyEffect, CleanAt;
      BadDirectiveIsDamage(h, c, r);
    case F018 =>
      hide ApplyEffect, CleanAt;
      FillersAreDamage(h, c, r);
    case F021 => assert |r.nft| > 0;
    case _ =>
  }

  lemma ChaosIsDamage(h: Host, f: FaultId, c: Env, r: Env)
    requires f == F008 || f == F014 || f == F020
    requires ApplyEffect(h, f, c) == Some(r)
    ensures !CleanAt(h, r, AChaos)
  {
    RestartScarsNothing(h, WriteChaos(c, ChaosText(f)));
    assert |ChaosText(f)| > 0;
  }

  lemma BadDirectiveIsDamage(h: Host, c: Env, r: Env)
    requires ApplyEffect(h, F015, c) == Some(r) && CleanAt(h, c, ANginx)
    ensures !CleanAt(h, r, ANginx)
  {
    assert |BAD_DIRECTIVE| > 0;
    assert |r.fs[NginxConfigPath].content| > |h.nginxText|;
  }

  lemma FillersAreDamage(h: Host, c: Env, r: Env)
    requires ApplyEffect(h, F018, c) == Some(r)
    ensures !CleanAt(h, r, AFillers)
  {
    hide Fillers;
    FillersWritten(c, FILLER_COUNT);
    assert Filler(1) in r.fs && IsFiller(Filler(1));
  }

  lemma EditIsDamage(h: Host, f: FaultId, c: Env, r: Env, a: Aspect)
    requires ApplyEffect(h, f, c) == Some(r)
    requires a in Scar(f) && CleanAt(h, c, a)
    requires EditsText(f) && !EditFindsNothing(h, f)
    ensures !CleanAt(h, r, a)
  {
    hide Pattern, Replacement, ReplaceFirst;
    var p := EditedPath(f);
    assert Lookup(c.fs, p) == CanonicalNode(h, p);
    assert p in r.fs && r.fs[p].content == ReplaceFirst(CanonicalText(h, f), Pattern(f), Replacement(f));
  }

  lemma EmptyEditIsNoDamage(h: Host, f: FaultId, c: Env, r: Env)
    requires Sound(h) && IsCanonical(h, c)
    requires ApplyEffect(h, f, c) == Some(r) && EditFindsNothing(h, f)
    ensures r == c
  {
    CanonicalComesUp(h, c);
    assert CleanAt(h, c, AConfig) && CleanAt(h, c, AUnit) && CleanAt(h, c, ANginx);
    SameTextSettles(h, f, c, r);
  }

  lemma CanonicalComesUp(h: Host, c: Env)
    requires Sound(h) && IsCanonical(h, c)
    ensures ComesUp(h, c)
  {
    assert CleanAt(h, c, ALog);
  }

  lemma SameTextSettles(h: Host, f: FaultId, c: Env, r: Env)
    requires ApplyEffect(h, f, c) == Some(r) && EditFindsNothing(h, f)
    requires CleanAt(h, c, AConfig) && CleanAt(h, c, AUnit) && CleanAt(h, c, ANginx)
    requires ComesUp(h, c) && c.app == Running(LaunchOf(c)) && LogPath in c.fs
    requires c.loadedUnit == Some(h.unitText) && c.proxy == Some(h.nginxText)
    ensures r == c
  {
    hide Pattern, Replacement, ReplaceFirst;
    RewriteSettles(c, EditedPath(f));
  }

  // ---- what a fault reaches at once ----

  /** The faults whose Apply restarts the service. */
  predicate RestartsApp(f: FaultId) {
    f in {F002, F006, F008, F014, F016, F017, F020}
  }

  predicate NginxAccepts(h: Host, e: Env) {
    NginxConfigPath in e.fs && h.accepts(e.fs[NginxConfigPath].content)
  }

  /**
   * A fault that restarts the service is at work when Apply returns: the service runs from the damaged
   * file layer or not at all. Any other fault leaves the running service as it was. Only F-007 and F-015
   * reach the loaded nginx configuration, F-015 where nginx accepts what it wrote, and only F-006 and
   * F-013 the loaded unit.
   */
  lemma ApplyReachesService(h: Host, f: FaultId, e: Env, r: Env)
    requires ApplyEffect(h, f, e) == Some(r)
    ensures if RestartsApp(f) then r.app == (if ComesUp(h, r) then Running(LaunchOf(r)) else Stopped)
            else r.app == e.app
    ensures r.proxy == if f == F007 || (f == F015 && NginxAccepts(h, r)) then ContentOf(r.fs, NginxConfigPath)
                       else e.proxy
    ensures r.loadedUnit == if f == F006 || f == F013 then ContentOf(r.fs, UnitFilePath) else e.loadedUnit
  {
    hide ComesUp, Pattern, Replacement, ReplaceFirst, ChaosText;
    match f
    case F002 | F016 =>
      RestartLeaves(h, EditFile(e, ConfigPath, Pattern(f), Replacement(f), MODE_CONFIG, AppUser).value);
    case F006 =>
      var e1 := EditFile(e, UnitFilePath, Pattern(f), Replacement(f), MODE_UNIT_FILE, Root).value;
      RestartLeaves(h, DaemonReload(e1));
    case F008 | F014 | F020 => RestartLeaves(h, WriteChaos(e, ChaosText(f)));
    case F017 => RestartLeaves(h, e.(manager := Some("")));
    case F018 =>
      hide Fillers;
      FillersTouchOnlyFillers(e, FILLER_COUNT);
    case _ =>
  }

  /** The path whose mode a fault changes. */
  function ModePath(f: FaultId): Option<Path> {
    match f
    case F003 => Some(ConfigPath)
    case F004 => Some(StateDir)
    case F005 => Some(BinaryPath)
    case F009 => Some(LogPath)
    case _ => None
  }

  /** A fault that changes a mode changes nothing else of the file, and its Recover keeps the content too. */
  lemma ModeFaultsKeepContent(h: Host, f: FaultId, e: Env)
    requires ModePath(f).Some?
    ensures var p := ModePath(f).value;
            && (ApplyEffect(h, f, e).Some? <==> p in e.fs) && (RecoverEffect(h, f, e).Some? <==> p in e.fs)
            && (p in e.fs ==>
                  var r := ApplyEffect(h, f, e).value;
                  p in r.fs && r.fs[p] == e.fs[p].(mode := r.fs[p].mode))
            && (p in e.fs ==>
                  var r := RecoverEffect(h, f, e).value;
                  && p in r.fs && r.fs[p].content == e.fs[p].content
                  && (f != F009 ==> r.fs[p] == e.fs[p].(mode := r.fs[p].mode)))
  {
    hide ComesUp;
  }

  /** The faults whose Recover ends with a restart of the service. */
  predicate RecoverRestarts(f: FaultId) {
    f in {F002, F003, F005, F006, F008, F009, F010, F014, F016, F017, F020}
  }

  /**
   * A Recover that restarts the service ends with one that runs from what it recovered, or not at all.
   * That of F-013 does so for a service that was down, and leaves one that was up. Those of the nginx
   * faults load the canonical text. All others leave the loaded layer as it was.
   */
  lemma RecoverReachesService(h: Host, f: FaultId, e: Env, r: Env)
    requires RecoverEffect(h, f, e) == Some(r)
    ensures if RecoverRestarts(f) || (f == F013 && e.app.Stopped?)
            then r.app == (if ComesUp(h, r) then Running(LaunchOf(r)) else Stopped)
            else r.app == e.app
    ensures r.proxy == if f == F007 || f == F015 then Some(h.nginxText) else e.proxy
    ensures r.loadedUnit == if f == F006 || f == F013 then Some(h.unitText) else e.loadedUnit
  {
    hide ComesUp;
    match f
    case F002 | F016 => RestartLeaves(h, e.(fs := e.fs[ConfigPath := CanonicalNode(h, ConfigPath).value]));
    case F003 => RestartLeaves(h, Environment.Chmod(e, ConfigPath, MODE_CONFIG).value);
    case F005 => RestartLeaves(h, Environment.Chmod(e, BinaryPath, MODE_BINARY).value);
    case F006 | F013 =>
      RestartLeaves(h, DaemonReload(Environment.RestoreFile(h, e, UnitFilePath).value));
    case F008 | F014 | F020 => RestartLeaves(h, WriteChaos(e, ""));
    case F009 =>
      var e1 := Environment.Chmod(e, LogPath, MODE_LOG_FILE).value;
      RestartLeaves(h, Environment.Chown(e1, LogPath, AppUser, AppUser).value);
    case F010 => RestartLeaves(h, e);
    case F017 => RestartLeaves(h, e.(manager := None));
    case _ =>
  }

  lemma RestartLeaves(h: Host, e: Env)
    ensures var r := Restart(h, e);
            && r.app == (if ComesUp(h, r) then Running(LaunchOf(r)) else Stopped)
            && r.proxy == e.proxy && r.loadedUnit == e.loadedUnit
  {
    RestartReaches(h, e);
  }

  /** What a restart takes with it: the loaded unit, and the files and the manager environment as they are. */
  lemma RestartTakes(h: Host, e: Env)
    ensures var r := Restart(h, e);
            r.app.Running? ==>
              var l := r.app.launch;
              && l.unit == e.loadedUnit && l.manager == e.manager
              && l.binary == Lookup(e.fs, BinaryPath) && l.config == Lookup(e.fs, ConfigPath)
              && l.chaos == Lookup(e.fs, ChaosEnvPath)
    ensures Restart(h, e).app.Running? ==> LogPath in Restart(h, e).fs
    ensures LogPath !in e.fs && Restart(h, e).app.Running? ==>
              Restart(h, e).fs[LogPath] == Node("", MODE_LOG_FILE, AppUser, AppUser)
  {
  }

  lemma RestartReaches(h: Host, e: Env)
    ensures var r := Restart(h, e);
            r.app == (if ComesUp(h, r) then Running(LaunchOf(r)) else Stopped) && r.proxy == e.proxy
  {
    RestartSettles(h, e);
    assert LaunchOf(Restart(h, e)) == LaunchOf(e);
    assert OwnerWrites(MODE_LOG_FILE);
  }

  // ---- the hypotheses can be met ----

  function AllPass(): Answers {
    Answers({S001, S002, S003, S004, P001, P002, P003, P004, E001, E003, E004, E005,
             Fs001, Fs002, Fs003, Fs004, Fs005, Fs006, Fs007, L001, L002, L003, H001, H002}, Some(200))
  }

  function PristineFiles(config: string, unit: string, nginx: string): map<Path, Node> {
    map[BinaryPath := Node("binary", MODE_BINARY, AppUser, AppUser),
        ConfigPath := Node(config, MODE_CONFIG, AppUser, AppUser),
        UnitFilePath := Node(unit, MODE_UNIT_FILE, Root, Root),
        NginxConfigPath := Node(nginx, MODE_NGINX_CONFIG, Root, Root),
        ChaosEnvPath := EMPTY_CHAOS,
        LogDir := Node("", MODE_LOG_DIR, AppUser, AppUser),
        LogPath := FRESH_LOG,
        StateDir := Node("", MODE_STATE_DIR, AppUser, AppUser)]
  }

  function Pristine(config: string, unit: string, nginx: string): Env {
    var fs := PristineFiles(config, unit, nginx);
    var e := Env(fs, None, [], Some(unit), Stopped, Some(nginx));
    e.(app := Running(LaunchOf(e)))
  }

  lemma PristineIsCanonical(h: Host)
    ensures IsCanonical(h, Pristine(h.configText, h.unitText, h.nginxText))
  {
    var c := Pristine(h.configText, h.unitText, h.nginxText);
    forall a: Aspect ensures CleanAt(h, c, a) {
    }
  }

  /** For any three canonical texts there is a working host with a canonical environment. */
  lemma WorkingHostExists(config: string, unit: string, nginx: string) returns (h: Host)
    ensures h.configText == config && h.unitText == unit && h.nginxText == nginx
    ensures Sound(h) && IsCanonical(h, Pristine(config, unit, nginx))
    ensures forall e: Env, id: CheckId | BlockingId(id) :: Passes(h.observe(e), id)
  {
    hide Pristine, IsCanonical, Clean, ReplaceFirst;
    var c := Pristine(config, unit, nginx);
    h := Host(config, unit, nginx, l => true, s => true, e => c, e => AllPass(), n => true, (n, e) => e);
    PristineIsCanonical(h);
    forall e: Env, id: CheckId | BlockingId(id) ensures Passes(h.observe(e), id) {
      assert h.observe(e) == AllPass();
    }
  }
}
