/** What an automatic reset makes of an environment that any number of forced faults went over. */
module Coverage {
  import opened Common
  import opened Record
  import opened Environment
  import opened Executor
  import opened Faults
  import opened Canonical
  import opened Reset

  /** The loaded layer is the one the file layer would give. */
  predicate Synced(h: Host, e: Env) {
    && e.app == (if ComesUp(h, e) then Running(LaunchOf(e)) else Stopped)
    && e.proxy == ContentOf(e.fs, NginxConfigPath)
  }

  // ---- the recovery of one fault ----

  /** Recover touches what its fault scars and nothing else, but for a recreated log. */
  lemma RecoverSame(h: Host, f: FaultId, e: Env, r: Env, a: Aspect)
    requires RecoverEffect(h, f, e) == Some(r)
    requires a !in Scar(f)
    ensures SameAt(e, r, a) && SameElsewhere(e, r)
  {
    hide SameAt, SameElsewhere, RecoverEffect;
    RecoverSameElsewhere(h, f, e, r);
    match f
    case F002 | F003 | F005 | F008 | F014 | F016 | F020 => RewriteRecoverSame(h, f, e, r, a);
    case F006 | F013 => UnitRecoverSame(h, f, e, r, a);
    case F009 => LogRecoverSame(h, e, r, a);
    case F010 | F017 | F018 | F021 => SettingRecoverSame(h, f, e, r, a);
    case _ => OnePathRecoverSame(h, f, e, r, a);
  }

  /** No Recover touches a file of the state directory but fillers and the fill file. */
  lemma RecoverSameElsewhere(h: Host, f: FaultId, e: Env, r: Env)
    requires RecoverEffect(h, f, e) == Some(r)
    ensures SameElsewhere(e, r)
  {
    hide ComesUp, LaunchOf;
  }

  /** The recoveries that rewrite one file and restart. */
  lemma RewriteRecoverSame(h: Host, f: FaultId, e: Env, r: Env, a: Aspect)
    requires f in {F002, F003, F005, F008, F014, F016, F020}
    requires RecoverEffect(h, f, e) == Some(r) && a !in Scar(f)
    ensures SameAt(e, r, a)
  {
    hide SameAt, Restart;
    match f
    case F002 | F016 => WriteThenRestart(h, e, ConfigPath, CanonicalNode(h, ConfigPath).value, a);
    case F003 => WriteThenRestart(h, e, ConfigPath, e.fs[ConfigPath].(mode := MODE_CONFIG), a);
    case F005 => WriteThenRestart(h, e, BinaryPath, e.fs[BinaryPath].(mode := MODE_BINARY), a);
    case F008 | F014 | F020 => WriteThenRestart(h, e, ChaosEnvPath, EMPTY_CHAOS, a);
  }

  /** The recoveries that rewrite or remove one file and leave the service alone. */
  lemma OnePathRecoverSame(h: Host, f: FaultId, e: Env, r: Env, a: Aspect)
    requires f in {F001, F004, F007, F015, F019}
    requires RecoverEffect(h, f, e) == Some(r) && a !in Scar(f)
    ensures SameAt(e, r, a)
  {
    match f
    case F001 => WriteScarsOnePath(e, ConfigPath, r.fs[ConfigPath], a);
    case F004 => WriteScarsOnePath(e, StateDir, r.fs[StateDir], a);
    case F007 | F015 => WriteScarsOnePath(e, NginxConfigPath, r.fs[NginxConfigPath], a);
    case F019 => WriteScarsOnePath(e, FILL, EMPTY_CHAOS, a);
  }

  lemma SettingRecoverSame(h: Host, f: FaultId, e: Env, r: Env, a: Aspect)
    requires f in {F010, F017, F018, F021}
    requires RecoverEffect(h, f, e) == Some(r) && a !in Scar(f)
    ensures SameAt(e, r, a)
  {
    hide Restart;
    match f
    case F010 => RestartScarsNothing(h, e);
    case F017 =>
      RestartScarsNothing(h, e.(manager := None));
      SameAtTransitive(e, e.(manager := None), r, a);
    case F018 =>
    case F021 =>
  }

  lemma UnitRecoverSame(h: Host, f: FaultId, e: Env, r: Env, a: Aspect)
    requires f == F006 || f == F013
    requires RecoverEffect(h, f, e) == Some(r) && a != AUnit
    ensures SameAt(e, r, a)
  {
    hide SameAt, Restart;
    var n := CanonicalNode(h, UnitFilePath).value;
    var e1 := e.(fs := e.fs[UnitFilePath := n]);
    WriteScarsOnePath(e, UnitFilePath, n, a);
    ReloadScarsNothing(e1, a);
    SameAtTransitive(e, e1, DaemonReload(e1), a);
    RestartScarsNothing(h, DaemonReload(e1));
    SameAtTransitive(e, DaemonReload(e1), Restart(h, DaemonReload(e1)), a);
  }

  lemma LogRecoverSame(h: Host, e: Env, r: Env, a: Aspect)
    requires RecoverEffect(h, F009, e) == Some(r) && a != ALog
    ensures SameAt(e, r, a)
  {
    hide SameAt, Restart;
    var n := Node(e.fs[LogPath].content, MODE_LOG_FILE, AppUser, AppUser);
    var e2 := e.(fs := e.fs[LogPath := n]);
    var e1 := Environment.Chmod(e, LogPath, MODE_LOG_FILE).value;
    assert Environment.Chown(e1, LogPath, AppUser, AppUser).value.fs == e2.fs;
    WriteThenRestart(h, e, LogPath, n, a);
  }

  /** What Recover restores by itself is undamaged afterwards. */
  lemma RecoverCleans(h: Host, f: FaultId, e: Env, r: Env, a: Aspect)
    requires RecoverEffect(h, f, e) == Some(r)
    requires a in RecoverCovers(f)
    ensures CleanAt(h, r, a)
  {
    match f
    case F009 =>
    case F017 =>
    case F018 =>
    case F019 =>
    case F020 => RestartSettles(h, WriteChaos(e, ""));
    case F021 =>
  }

  lemma RecoverKeepsSkeleton(h: Host, f: FaultId, e: Env, r: Env)
    requires RecoverEffect(h, f, e) == Some(r) && Skeleton(e)
    ensures Skeleton(r)
  {
    hide Restart;
    if f == F005 {
      RestartScarsNothing(h, e.(fs := e.fs[BinaryPath := e.fs[BinaryPath].(mode := MODE_BINARY)]));
    } else if f != F004 {
      hide RecoverEffect;
      RecoverSame(h, f, e, r, ABinary);
      RecoverSame(h, f, e, r, ALogDir);
      RecoverSame(h, f, e, r, AStateDir);
    }
  }

  // ---- the tiers ----

  lemma ProxyHasNoAspect(m: Env, proxy: Option<string>, a: Aspect)
    ensures SameAt(m, m.(proxy := proxy), a)
  {
  }

  lemma R2PreparedCovers(h: Host, e: Env, a: Aspect)
    requires {BinaryPath, StateDir, LogDir} <= e.fs.Keys
    ensures a in R2_COVERED ==> CleanAt(h, R2Prepared(h, e), a)
    ensures a !in R2_COVERED ==> SameAt(e, R2Prepared(h, e), a)
  {
  }

  lemma R2PreparedSameElsewhere(h: Host, e: Env)
    requires {BinaryPath, StateDir, LogDir} <= e.fs.Keys
    ensures SameElsewhere(e, R2Prepared(h, e))
  {
  }

  /** R2 restores exactly its six aspects and synchronises the loaded layer, the unit included. */
  lemma R2Coverage(h: Host, e: Env, r: Env, a: Aspect)
    requires TierEffect(h, R2, e) == Some(r)
    ensures a in R2_COVERED ==> CleanAt(h, r, a)
    ensures a !in R2_COVERED ==> SameAt(e, r, a)
    ensures SameElsewhere(e, r)
  {
    hide TierEffect, R2Prepared, CleanAt, SameAt, Restart;
    R2Meaning(h, e);
    R2PreparedSameElsewhere(h, e);
    var p := R2Prepared(h, e);
    RestartScarsNothing(h, p);
    var m := Restart(h, p);
    assert SameAt(p, m, a);
    R2PreparedCovers(h, e, a);
    ProxyHasNoAspect(m, Some(h.nginxText), a);
    SameAtTransitive(p, m, r, a);
    if a !in R2_COVERED {
      SameAtTransitive(e, p, r, a);
    } else {
      SameKeepsClean(h, p, r, a);
    }
  }

  lemma R2Syncs(h: Host, e: Env, r: Env)
    requires TierEffect(h, R2, e) == Some(r)
    ensures Synced(h, r) && r.loadedUnit == Some(h.unitText)
    ensures Skeleton(e) ==> Skeleton(r)
  {
    R2Meaning(h, e);
    var p := R2Prepared(h, e);
    RestartedIsSynced(h, p, Some(h.nginxText));
    RestartScarsNothing(h, p);
    assert Lookup(r.fs, NginxConfigPath) == Lookup(p.fs, NginxConfigPath) by {
      assert SameAt(p, Restart(h, p), ANginx);
    }
  }

  lemma RestartedIsSynced(h: Host, p: Env, proxy: Option<string>)
    ensures var r := Restart(h, p).(proxy := proxy);
            && r.app == (if ComesUp(h, r) then Running(LaunchOf(r)) else Stopped)
            && r.loadedUnit == p.loadedUnit
  {
    RestartSettles(h, p);
    var r := Restart(h, p).(proxy := proxy);
    assert LaunchOf(r) == LaunchOf(p);
    assert OwnerWrites(MODE_LOG_FILE);
  }

  lemma R1Coverage(h: Host, e: Env, r: Env, a: Aspect)
    requires TierEffect(h, R1, e) == Some(r)
    ensures SameAt(e, r, a) && SameElsewhere(e, r)
    ensures Synced(h, r) && r.loadedUnit == e.loadedUnit
    ensures Skeleton(e) ==> Skeleton(r)
  {
    RestartScarsNothing(h, e);
    var m := Restart(h, e);
    assert SameAt(m, r, a);
    RestartedIsSynced(h, e, r.proxy);
    assert SameAt(e, m, ANginx);
  }

  // ---- a whole automatic reset ----

  /**
   * An automatic reset whose executor calls go through restores exactly what its tier and the Recover
   * of the recorded fault cover, leaves everything else as it was but for a recreated log, and leaves
   * the loaded layer taken from the final file layer.
   */
  lemma AutoResetCoverage(h: Host, fault: Option<FaultName>, e: Env, r: Env, a: Aspect)
    requires SelectTier(fault) != R3
    requires ResetEffect(h, SelectTier(fault), fault, e) == Some(r)
    ensures a in Covered(fault) ==> CleanAt(h, r, a)
    ensures a !in Covered(fault) ==> SameAt(e, r, a)
    ensures SameElsewhere(e, r)
    ensures Synced(h, r)
    ensures Skeleton(e) ==> Skeleton(r)
    ensures r.loadedUnit == if SelectTier(fault) == R2 then Some(h.unitText) else e.loadedUnit
  {
    hide TierEffect, CleanAt, SameAt, Skeleton, Synced;
    if fault.Some? && fault.value.Known? {
      var f := fault.value.fault;
      var e0 := RecoverEffect(h, f, e).value;
      if Skeleton(e) {
        RecoverKeepsSkeleton(h, f, e, e0);
      }
      if f == F010 {
        RecoverSame(h, f, e, e0, a);
        R1Coverage(h, e0, r, a);
        SameAtTransitive(e, e0, r, a);
        RestartSettles(h, e);
      } else {
        R2Syncs(h, e0, r);
        R2Coverage(h, e0, r, a);
        RecoverSameElsewhere(h, f, e, e0);
        ReversibleResetCoverage(h, f, e, e0, r, a);
      }
    } else {
      R2Coverage(h, e, r, a);
      R2Syncs(h, e, r);
    }
  }

  lemma ReversibleResetCoverage(h: Host, f: FaultId, e: Env, e0: Env, r: Env, a: Aspect)
    requires ResetTier(f) == R2
    requires RecoverEffect(h, f, e) == Some(e0) && TierEffect(h, R2, e0) == Some(r)
    ensures a in Covered(Some(Known(f))) ==> CleanAt(h, r, a)
    ensures a !in Covered(Some(Known(f))) ==> SameAt(e, r, a)
  {
    hide RecoverEffect, TierEffect, CleanAt, SameAt;
    R2Coverage(h, e0, r, a);
    if a in RecoverCovers(f) {
      RecoverCleans(h, f, e, e0, a);
      SameKeepsClean(h, e0, r, a);
    } else if a !in R2_COVERED {
      ScarsAreCovered(f);
      RecoverSame(h, f, e, e0, a);
      SameAtTransitive(e, e0, r, a);
    }
  }

  /** The automatic reset of a fault whose tier is not R3 covers everything that fault scars. */
  lemma ScarsAreCovered(f: FaultId)
    requires ResetTier(f) != R3
    ensures Scar(f) <= Covered(Some(Known(f)))
  {
  }

  // ---- forced faults, one after the other ----

  /** Each Apply goes through on what the previous ones left. */
  function ForcedApplies(h: Host, e: Env, faults: seq<FaultId>): Option<Env> {
    if faults == [] then Some(e)
    else
      var e1 :- ForcedApplies(h, e, faults[..|faults| - 1]);
      ApplyEffect(h, faults[|faults| - 1], e1)
  }

  lemma {:induction false} ForcedScars(h: Host, c: Env, faults: seq<FaultId>, e: Env, a: Aspect)
    requires ForcedApplies(h, c, faults) == Some(e)
    requires forall f | f in faults :: a !in Scar(f)
    ensures CleanAt(h, c, a) ==> CleanAt(h, e, a)
  {
    if faults != [] {
      var front := faults[..|faults| - 1];
      var m := ForcedApplies(h, c, front).value;
      ForcedScars(h, c, front, m, a);
      ApplyScars(h, faults[|faults| - 1], m, e, a);
    }
  }

  lemma {:induction false} ForcedKeeps(h: Host, c: Env, faults: seq<FaultId>, e: Env)
    requires ForcedApplies(h, c, faults) == Some(e)
    ensures Skeleton(c) ==> Skeleton(e)
    ensures UnitLoaded(c) ==> UnitLoaded(e)
  {
    if faults != [] {
      var front := faults[..|faults| - 1];
      var m := ForcedApplies(h, c, front).value;
      ForcedKeeps(h, c, front, m);
      ApplyKeepsSkeleton(h, faults[|faults| - 1], m, e);
      ApplyKeepsUnitLoaded(h, faults[|faults| - 1], m, e);
    }
  }

  /** A clean, synchronised environment whose loaded unit is the canonical one is canonical on a working host. */
  lemma CleanAndSynced(h: Host, r: Env)
    requires Sound(h) && Clean(h, r) && Synced(h, r) && r.loadedUnit == Some(h.unitText)
    ensures ComesUp(h, r) && r.proxy == Some(h.nginxText)
    ensures LogPath in r.fs ==> IsCanonical(h, r)
  {
    assert CleanAt(h, r, ALog) && CleanAt(h, r, ALogDir) && CleanAt(h, r, ANginx);
    assert OwnerWrites(MODE_LOG_FILE) && OwnerWrites(MODE_LOG_DIR);
  }

  /** A tier that ends with a running service leaves it a log. */
  lemma RunningHasLog(h: Host, tier: Tier, e: Env, r: Env)
    requires tier == R1 || tier == R2
    requires TierEffect(h, tier, e) == Some(r) && r.app.Running?
    ensures LogPath in r.fs
  {
    if tier == R2 {
      R2Meaning(h, e);
    }
  }

  /**
   * After any series of forced faults, the last one being f, an automatic reset that goes through makes
   * the environment canonical exactly when every aspect outside its coverage carries no damage; so it
   * does whenever each fault of the series scars only what the reset of f covers.
   */
  lemma ForcedFaultsThenReset(h: Host, c: Env, earlier: seq<FaultId>, f: FaultId, e: Env, r: Env)
    requires Sound(h) && IsCanonical(h, c)
    requires ForcedApplies(h, c, earlier + [f]) == Some(e)
    requires ResetEffect(h, SelectTier(Some(Known(f))), Some(Known(f)), e) == Some(r)
    ensures SelectTier(Some(Known(f))) != R3 ==>
              (IsCanonical(h, r) <==> forall a | a !in Covered(Some(Known(f))) :: CleanAt(h, e, a))
    ensures SelectTier(Some(Known(f))) == R3 || (forall g | g in earlier :: Scar(g) <= Covered(Some(Known(f)))) ==>
              IsCanonical(h, r)
  {
    if ResetTier(f) != R3 {
      hide ForcedApplies, ResetEffect, CleanAt, SameAt, Synced, Skeleton;
      var last := Some(Known(f));
      forall a
        ensures a in Covered(last) ==> CleanAt(h, r, a)
        ensures a !in Covered(last) ==> (CleanAt(h, r, a) <==> CleanAt(h, e, a))
      {
        AutoResetCoverage(h, last, e, r, a);
        if a !in Covered(last) {
          if CleanAt(h, e, a) {
            SameKeepsClean(h, e, r, a);
          }
          if CleanAt(h, r, a) {
            CleanGoesBack(h, e, r, a);
          }
        }
      }
      ForcedUndamagedIsCanonical(h, c, earlier + [f], f, e, r);
      if forall g | g in earlier :: Scar(g) <= Covered(last) {
        ScarsAreCovered(f);
        forall a | a !in Covered(last) ensures CleanAt(h, e, a) {
          ForcedScars(h, c, earlier + [f], e, a);
        }
      }
    }
  }

  lemma ForcedUndamagedIsCanonical(h: Host, c: Env, faults: seq<FaultId>, f: FaultId, e: Env, r: Env)
    requires Sound(h) && IsCanonical(h, c)
    requires ForcedApplies(h, c, faults) == Some(e)
    requires ResetTier(f) != R3 && ResetEffect(h, ResetTier(f), Some(Known(f)), e) == Some(r)
    ensures (forall a :: CleanAt(h, r, a)) ==> IsCanonical(h, r)
  {
    hide ForcedApplies, ResetEffect, Sound, IsCanonical, Clean, Skeleton, UnitLoaded, Synced, ComesUp;
    ForcedKeeps(h, c, faults, e);
    CanonicalStart(h, c);
    if forall a :: CleanAt(h, r, a) {
      assert CleanAt(h, r, AUnit);
      LoadedUnitAfterReset(h, f, e, r);
      EverythingClean(h, r);
      CleanAndSynced(h, r);
      SyncedRuns(h, r);
      ResetLeavesLog(h, f, e, r);
    }
  }

  lemma CanonicalStart(h: Host, c: Env)
    requires IsCanonical(h, c)
    ensures Skeleton(c) && UnitLoaded(c)
  {
    assert CleanAt(h, c, AUnit);
  }

  lemma EverythingClean(h: Host, r: Env)
    requires Skeleton(r) && forall a :: CleanAt(h, r, a)
    ensures Clean(h, r)
  {
  }

  lemma SyncedRuns(h: Host, r: Env)
    requires Synced(h, r) && ComesUp(h, r)
    ensures r.app.Running?
  {
  }

  lemma LoadedUnitAfterReset(h: Host, f: FaultId, e: Env, r: Env)
    requires ResetTier(f) != R3 && ResetEffect(h, ResetTier(f), Some(Known(f)), e) == Some(r)
    requires UnitLoaded(e) && CleanAt(h, r, AUnit)
    ensures r.loadedUnit == Some(h.unitText) && Synced(h, r)
    ensures Skeleton(e) ==> Skeleton(r)
  {
    AutoResetCoverage(h, Some(Known(f)), e, r, AUnit);
  }

  lemma ResetLeavesLog(h: Host, f: FaultId, e: Env, r: Env)
    requires ResetTier(f) != R3 && ResetEffect(h, ResetTier(f), Some(Known(f)), e) == Some(r)
    requires r.app.Running?
    ensures LogPath in r.fs
  {
    RunningHasLog(h, ResetTier(f), RecoverEffect(h, f, e).value, r);
  }

  // ---- when an automatic reset goes through ----

  /** Recover goes through exactly when the path whose mode it sets is there and nginx accepts what it gets back. */
  lemma RecoverNeeds(h: Host, f: FaultId, e: Env)
    ensures RecoverEffect(h, f, e).Some? <==>
            && (ModePath(f).Some? ==> ModePath(f).value in e.fs)
            && (f == F007 || f == F015 ==> h.accepts(h.nginxText))
  {
    hide Restart, Start;
  }

  /** Whatever was there before, the fault that has just been applied can be recovered from. */
  lemma RecoverAfterApply(h: Host, f: FaultId, m: Env, e: Env)
    requires ApplyEffect(h, f, m) == Some(e) && h.accepts(h.nginxText)
    ensures RecoverEffect(h, f, e).Some?
  {
    hide Restart, Fillers, ReplaceFirst, Pattern, Replacement, ChaosText;
  }

  /**
   * After any series of forced faults, the last one being f, the automatic reset goes through for every
   * f but F-010. For F-010 it does exactly when nginx accepts its configuration as it is: R1 does not
   * restore that file.
   */
  lemma ForcedResetGoesThrough(h: Host, c: Env, earlier: seq<FaultId>, f: FaultId, e: Env)
    requires Sound(h) && IsCanonical(h, c)
    requires ForcedApplies(h, c, earlier + [f]) == Some(e)
    ensures ResetEffect(h, SelectTier(Some(Known(f))), Some(Known(f)), e).Some? <==> f != F010 || NginxAccepts(h, e)
  {
    hide Sound, IsCanonical, ApplyEffect, RecoverEffect, ResetEffect, NginxAccepts, Skeleton, UnitLoaded, ForcedApplies;
    if f == F010 {
      LogResetNeedsNginx(h, e);
    } else if IsReversible(f) {
      CanonicalStart(h, c);
      ForcedKeeps(h, c, earlier + [f], e);
      SoundAcceptsNginx(h);
      var m := LastForced(h, c, earlier, f, e);
      RecoverAfterApply(h, f, m, e);
      RecoverAndR2GoThrough(h, f, e);
    } else {
      BootstrapGoesThrough(h, f, e);
    }
  }

  lemma RecoverAndR2GoThrough(h: Host, f: FaultId, e: Env)
    requires ResetTier(f) == R2 && RecoverEffect(h, f, e).Some?
    requires Skeleton(e) && h.accepts(h.nginxText)
    ensures ResetEffect(h, R2, Some(Known(f)), e).Some?
  {
    hide RecoverEffect, TierEffect, Skeleton;
    var e0 := RecoverEffect(h, f, e).value;
    RecoverKeepsSkeleton(h, f, e, e0);
    R2GoesThrough(h, e0);
  }

  lemma BootstrapGoesThrough(h: Host, f: FaultId, e: Env)
    requires !IsReversible(f)
    ensures ResetEffect(h, R3, Some(Known(f)), e).Some?
  {
  }

  lemma SoundAcceptsNginx(h: Host)
    requires Sound(h)
    ensures h.accepts(h.nginxText)
  {
  }

  lemma LastForced(h: Host, c: Env, earlier: seq<FaultId>, f: FaultId, e: Env) returns (m: Env)
    requires ForcedApplies(h, c, earlier + [f]) == Some(e)
    ensures ForcedApplies(h, c, earlier) == Some(m) && ApplyEffect(h, f, m) == Some(e)
  {
    hide ApplyEffect;
    assert (earlier + [f])[..|earlier|] == earlier;
    m := ForcedApplies(h, c, earlier).value;
  }

  lemma LogResetNeedsNginx(h: Host, e: Env)
    ensures ResetEffect(h, R1, Some(Known(F010)), e).Some? <==> NginxAccepts(h, e)
    ensures ResetEffect(h, R1, Some(Known(F010)), e).None? ==>
              !NginxAccepts(h, ResetLeaves(h, R1, Some(Known(F010)), e))
  {
    RestartScarsNothing(h, e);
    RestartSettles(h, e);
    var once := Restart(h, e);
    assert SameAt(e, once, ANginx);
  }

  /** So a forced F-015 and then a forced F-010 leave a reset that fails where nginx refuses the bad directive. */
  lemma SpoiledNginxBlocksReset(h: Host, c: Env)
    requires Sound(h) && IsCanonical(h, c)
    ensures ForcedApplies(h, c, [F015, F010]).Some?
    ensures var e := ForcedApplies(h, c, [F015, F010]).value;
            ResetEffect(h, SelectTier(Some(Known(F010))), Some(Known(F010)), e).Some? <==>
            h.accepts(h.nginxText + BAD_DIRECTIVE)
  {
    hide Sound;
    ApplySucceeds(h, F015, c);
    var m := ApplyEffect(h, F015, c).value;
    CanonicalIsClean(h, c, ANginx);
    assert LogPath in m.fs && m.fs[NginxConfigPath].content == h.nginxText + BAD_DIRECTIVE;
    var e := ApplyEffect(h, F010, m).value;
    OneMoreForced(h, c, [], F015, c, m);
    OneMoreForced(h, c, [F015], F010, m, e);
    assert [] + [F015] == [F015] && [F015] + [F010] == [F015, F010];
    ForcedResetGoesThrough(h, c, [F015], F010, e);
  }

  lemma OneMoreForced(h: Host, c: Env, earlier: seq<FaultId>, f: FaultId, m: Env, e: Env)
    requires ForcedApplies(h, c, earlier) == Some(m) && ApplyEffect(h, f, m) == Some(e)
    ensures ForcedApplies(h, c, earlier + [f]) == Some(e)
  {
    hide ApplyEffect;
    assert (earlier + [f])[..|earlier|] == earlier;
  }

  // ---- a log that cannot be opened ----

  /**
   * F-009 leaves the running service alone and keeps every later start down: R1 and R2 restart it in vain,
   * since neither touches the log. After its own Recover the service comes up exactly when it boots.
   */
  lemma ClosedLogKeepsServiceDown(h: Host, e: Env, r: Env)
    requires ApplyEffect(h, F009, e) == Some(r)
    ensures r.app == e.app && Restart(h, r).app == Stopped
    ensures TierEffect(h, R1, r).Some? ==> TierEffect(h, R1, r).value.app == Stopped
    ensures TierEffect(h, R2, r).Some? ==> TierEffect(h, R2, r).value.app == Stopped
    ensures RecoverEffect(h, F009, r).Some?
    ensures RecoverEffect(h, F009, r).value.app.Running? <==> h.boots(LaunchOf(r))
  {
    hide TierEffect;
    assert !LogOpens(r.fs);
    R2Meaning(h, r);
    R1Effect(h, r);
    assert OwnerWrites(MODE_LOG_FILE);
  }

  lemma R1Effect(h: Host, e: Env)
    ensures TierEffect(h, R1, e).Some? ==> TierEffect(h, R1, e).value.app == Restart(h, e).app
  {
  }

  // ---- an apply that was never recorded ----

  /**
   * A reset by R2, whatever it started from, makes the environment canonical exactly when every aspect
   * outside its coverage carries no damage.
   */
  lemma R2ResetRestores(h: Host, fault: Option<FaultName>, e: Env, r: Env)
    requires Sound(h) && Skeleton(e)
    requires SelectTier(fault) == R2 && ResetEffect(h, R2, fault, e) == Some(r)
    ensures IsCanonical(h, r) <==> forall a | a !in Covered(fault) :: CleanAt(h, e, a)
  {
    hide Sound, IsCanonical, ResetEffect, CleanAt, SameAt, Skeleton, Synced, ComesUp, Covered;
    forall a
      ensures a in Covered(fault) ==> CleanAt(h, r, a)
      ensures a !in Covered(fault) ==> (CleanAt(h, r, a) <==> CleanAt(h, e, a))
    {
      AutoResetCoverage(h, fault, e, r, a);
      if a !in Covered(fault) {
        if CleanAt(h, e, a) {
          SameKeepsClean(h, e, r, a);
        }
        if CleanAt(h, r, a) {
          CleanGoesBack(h, e, r, a);
        }
      }
    }
    AutoResetCoverage(h, fault, e, r, ABinary);
    if forall a :: CleanAt(h, r, a) {
      EverythingClean(h, r);
      CleanAndSynced(h, r);
      SyncedRuns(h, r);
      R2ResetLeavesLog(h, fault, e, r);
      assert IsCanonical(h, r);
      assert forall a | a !in Covered(fault) :: CleanAt(h, r, a) && CleanAt(h, e, a);
    } else {
      var a :| !CleanAt(h, r, a);
      assert a !in Covered(fault) && !CleanAt(h, e, a);
      DamagedIsNotCanonical(h, r, a);
    }
  }

  lemma R2ResetLeavesLog(h: Host, fault: Option<FaultName>, e: Env, r: Env)
    requires ResetEffect(h, R2, fault, e) == Some(r) && r.app.Running?
    ensures LogPath in r.fs
  {
    hide RecoverEffect;
    RunningHasLog(h, R2, if RecoversFirst(fault) then RecoverEffect(h, fault.value.fault, e).value else e, r);
  }

  /**
   * When the record of an apply was lost, an automatic reset knows of no fault and runs R2. It goes
   * through, and restores exactly the faults whose scar R2 covers.
   */
  lemma UnrecordedApplyThenReset(h: Host, f: FaultId, c: Env, e: Env)
    requires Sound(h) && IsCanonical(h, c) && ApplyEffect(h, f, c) == Some(e)
    ensures ResetEffect(h, SelectTier(None), None, e).Some?
    ensures IsCanonical(h, ResetEffect(h, SelectTier(None), None, e).value) <==> Scar(f) <= R2_COVERED
  {
    hide Sound, IsCanonical, ApplyEffect, TierEffect, CleanAt, Skeleton, UnitLoaded;
    CanonicalStart(h, c);
    ApplyKeepsSkeleton(h, f, c, e);
    SoundAcceptsNginx(h);
    R2GoesThrough(h, e);
    R2ResetRestores(h, None, e, TierEffect(h, R2, e).value);
    forall a | a !in R2_COVERED ensures CleanAt(h, e, a) <==> a !in Scar(f) {
      CanonicalIsClean(h, c, a);
      if a !in Scar(f) {
        ApplyScars(h, f, c, e, a);
      } else {
        ScarIsDamage(h, f, c, e, a);
      }
    }
    if !(Scar(f) <= R2_COVERED) {
      var a :| a in Scar(f) && a !in R2_COVERED;
      assert !CleanAt(h, e, a);
    }
  }

  // ---- an apply or a reset that stopped ----

  /** An Apply that stopped has touched nothing outside its scar, and not the service or nginx. */
  lemma StoppedApplyStaysInScar(h: Host, f: FaultId, e: Env, m: Env, a: Aspect)
    requires MidApply(h, f, e, m) && a !in Scar(f)
    ensures SameAt(e, m, a) && SameElsewhere(e, m)
    ensures m.app == e.app && m.proxy == e.proxy
    ensures m.loadedUnit == e.loadedUnit || (f == F006 && m.loadedUnit == ContentOf(m.fs, UnitFilePath))
  {
    hide SameAt, SameElsewhere, Pattern, Replacement, ReplaceFirst, ChaosText, Fillers;
    if m == e {
      SameItself(e, a);
    } else if f == F017 {
      ManagerSame(e, m, a);
    } else if f == F018 {
      StoppedFillersSame(e, m);
      FillersAloneSame(e, m, a);
    } else {
      OneWriteSame(e, m, if EditedFile(f).Some? then EditedFile(f).value else ChaosEnvPath, a);
    }
  }

  lemma ManagerSame(e: Env, m: Env, a: Aspect)
    requires m == e.(manager := m.manager) && a != AManager
    ensures SameAt(e, m, a) && SameElsewhere(e, m)
  {
  }

  lemma FillersAloneSame(e: Env, m: Env, a: Aspect)
    requires m == e.(fs := m.fs) && forall p | !IsFiller(p) :: Lookup(m.fs, p) == Lookup(e.fs, p)
    requires a != AFillers
    ensures SameAt(e, m, a) && SameElsewhere(e, m)
  {
    assert !IsFiller(FILL);
  }

  lemma OneWriteSame(e: Env, m: Env, p: Path, a: Aspect)
    requires p in m.fs && !p.InStateDir? && a != AspectOf(p)
    requires m == e.(fs := e.fs[p := m.fs[p]], loadedUnit := m.loadedUnit)
    ensures SameAt(e, m, a) && SameElsewhere(e, m)
  {
  }

  lemma StoppedFillersSame(e: Env, m: Env)
    requires exists n: nat :: n <= FILLER_COUNT && m == Fillers(e, n)
    ensures m == e.(fs := m.fs) && forall p | !IsFiller(p) :: Lookup(m.fs, p) == Lookup(e.fs, p)
  {
    hide Fillers;
    var n: nat :| n <= FILLER_COUNT && m == Fillers(e, n);
    FillersTouchOnlyFillers(e, n);
  }

  lemma StoppedApplyKeepsSkeleton(h: Host, f: FaultId, e: Env, m: Env)
    requires MidApply(h, f, e, m) && Skeleton(e)
    ensures Skeleton(m)
  {
    hide Pattern, Replacement, ReplaceFirst, ChaosText, Fillers;
    if f == F018 && m != e {
      StoppedFillersSame(e, m);
      assert Lookup(m.fs, BinaryPath) == Lookup(e.fs, BinaryPath);
      assert Lookup(m.fs, LogDir) == Lookup(e.fs, LogDir) && Lookup(m.fs, StateDir) == Lookup(e.fs, StateDir);
    }
  }

  /**
   * An Apply that stopped on a canonical environment is not recorded. The next automatic reset that runs
   * a tier runs R2: it goes through, and restores exactly when R2 covers the scar or the scar is not
   * damaged yet.
   */
  lemma StoppedApplyThenReset(h: Host, f: FaultId, c: Env, m: Env)
    requires Sound(h) && IsCanonical(h, c) && MidApply(h, f, c, m)
    ensures ResetEffect(h, SelectTier(None), None, m).Some?
    ensures IsCanonical(h, ResetEffect(h, SelectTier(None), None, m).value) <==>
            Scar(f) <= R2_COVERED || forall a | a in Scar(f) :: CleanAt(h, m, a)
  {
    hide Sound, IsCanonical, MidApply, TierEffect, CleanAt, SameAt, Skeleton, UnitLoaded;
    CanonicalStart(h, c);
    StoppedApplyKeepsSkeleton(h, f, c, m);
    SoundAcceptsNginx(h);
    R2GoesThrough(h, m);
    R2ResetRestores(h, None, m, TierEffect(h, R2, m).value);
    forall a | a !in Scar(f) ensures CleanAt(h, m, a) {
      CanonicalIsClean(h, c, a);
      StoppedApplyStaysInScar(h, f, c, m, a);
      SameKeepsClean(h, c, m, a);
    }
    ScarIsOneAspect(f);
  }

  lemma ScarIsOneAspect(f: FaultId)
    ensures Scar(f) <= R2_COVERED || Scar(f) !! R2_COVERED
  {
  }

  lemma StoppedRecoverSame(h: Host, f: FaultId, e: Env, m: Env, a: Aspect)
    requires MidRecover(h, f, e, m) && a !in Scar(f)
    ensures SameAt(e, m, a)
  {
  }

  lemma StoppedRecoverKeepsSkeleton(h: Host, f: FaultId, e: Env, m: Env)
    requires MidRecover(h, f, e, m) && Skeleton(e)
    ensures Skeleton(m)
  {
  }

  lemma StoppedR2Same(h: Host, e: Env, m: Env, a: Aspect)
    requires MidTier(h, R2, e, m)
    ensures a !in R2_COVERED ==> SameAt(e, m, a)
    ensures Skeleton(e) ==> Skeleton(m)
  {
    hide SameAt, Skeleton, Restart, MidR2;
    if m != e {
      MidR2Means(h, e, m);
      if UpToR2(e, m) {
        UpToR2Same(e, m, a);
      } else {
        UpToR2Prepared(h, e);
        UpToR2Same(e, R2Prepared(h, e), a);
        RestartScarsNothing(h, R2Prepared(h, e));
        if a !in R2_COVERED {
          SameAtTransitive(e, R2Prepared(h, e), m, a);
        }
      }
    } else {
      SameItself(e, a);
    }
  }

  lemma SameItself(e: Env, a: Aspect)
    ensures SameAt(e, e, a) && SameElsewhere(e, e)
  {
  }

  lemma UpToR2Prepared(h: Host, e: Env)
    requires {BinaryPath, StateDir, LogDir} <= e.fs.Keys
    ensures UpToR2(e, R2Prepared(h, e))
  {
  }

  lemma UpToR2Same(e: Env, m: Env, a: Aspect)
    requires UpToR2(e, m)
    ensures a !in R2_COVERED ==> SameAt(e, m, a)
    ensures Skeleton(e) ==> Skeleton(m)
  {
  }

  /** Outside what the reset covers, it has changed nothing when it stops. */
  lemma StoppedResetSame(h: Host, fault: Option<FaultName>, e: Env, m: Env, a: Aspect)
    requires SelectTier(fault) == R2 && MidReset(h, R2, fault, e, m)
    ensures a !in Covered(fault) ==> SameAt(e, m, a)
    ensures Skeleton(e) ==> Skeleton(m)
  {
    hide SameAt, Skeleton, MidRecover, MidTier, RecoverEffect;
    if RecoversFirst(fault) {
      var f := fault.value.fault;
      ScarsAreCovered(f);
      if MidRecover(h, f, e, m) {
        StoppedRecoverStays(h, f, e, m, a);
      } else {
        var e0 := RecoverEffect(h, f, e).value;
        if Skeleton(e) {
          RecoverKeepsSkeleton(h, f, e, e0);
        }
        StoppedR2Same(h, e0, m, a);
        if a !in Covered(fault) {
          RecoverSame(h, f, e, e0, a);
          SameAtTransitive(e, e0, m, a);
        }
      }
    } else {
      StoppedR2Same(h, e, m, a);
    }
  }

  lemma StoppedRecoverStays(h: Host, f: FaultId, e: Env, m: Env, a: Aspect)
    requires MidRecover(h, f, e, m)
    ensures a !in Scar(f) ==> SameAt(e, m, a)
    ensures Skeleton(e) ==> Skeleton(m)
  {
    hide SameAt, Skeleton, MidRecover;
    if Skeleton(e) {
      StoppedRecoverKeepsSkeleton(h, f, e, m);
    }
    if a !in Scar(f) {
      StoppedRecoverSame(h, f, e, m, a);
    }
  }

  /**
   * A reset by R2 that stopped anywhere, in Recover or in the tier, and left what its calls before that
   * had done, where undisturbed it would have gone through: the next automatic reset does go through, and
   * makes the environment canonical exactly when the first one would have.
   */
  lemma StoppedResetThenReset(h: Host, fault: Option<FaultName>, e: Env, m: Env, r: Env)
    requires Sound(h) && Skeleton(e) && SelectTier(fault) == R2
    requires MidReset(h, R2, fault, e, m)
    requires ResetEffect(h, R2, fault, e) == Some(r)
    ensures ResetEffect(h, SelectTier(fault), fault, m).Some?
    ensures IsCanonical(h, ResetEffect(h, SelectTier(fault), fault, m).value) <==> IsCanonical(h, r)
  {
    hide Sound, IsCanonical, CleanAt, SameAt, Skeleton, Covered, ResetEffect, MidReset, RecoversFirst;
    forall a ensures a !in Covered(fault) ==> (CleanAt(h, m, a) <==> CleanAt(h, e, a)) {
      if a !in Covered(fault) {
        StoppedResetSame(h, fault, e, m, a);
        if CleanAt(h, e, a) {
          SameKeepsClean(h, e, m, a);
        } else if CleanAt(h, m, a) {
          CleanGoesBack(h, e, m, a);
        }
      }
    }
    StoppedResetSame(h, fault, e, m, ALog);
    StoppedResetGoesThrough(h, fault, e, m, r);
    R2ResetRestores(h, fault, m, ResetEffect(h, R2, fault, m).value);
    R2ResetRestores(h, fault, e, r);
  }

  lemma StoppedResetGoesThrough(h: Host, fault: Option<FaultName>, e: Env, m: Env, r: Env)
    requires Sound(h) && Skeleton(e) && Skeleton(m) && SelectTier(fault) == R2
    requires MidReset(h, R2, fault, e, m) && ResetEffect(h, R2, fault, e) == Some(r)
    ensures ResetEffect(h, R2, fault, m).Some?
  {
    hide Sound, Skeleton, RecoverEffect, MidRecover, TierEffect, MidTier;
    SoundAcceptsNginx(h);
    if RecoversFirst(fault) {
      var f := fault.value.fault;
      if MidRecover(h, f, e, m) {
        RecoverResumes(h, f, e, m);
      } else {
        RecoverIsIdempotent(h, f, e);
        var e0 := RecoverEffect(h, f, e).value;
        RecoverNeeds(h, f, e0);
        StoppedR2KeepsPaths(h, e0, m);
        RecoverNeeds(h, f, m);
      }
      RecoverAndR2GoThrough(h, f, m);
    } else {
      R2GoesThrough(h, m);
    }
  }

  lemma StoppedR2KeepsPaths(h: Host, e: Env, m: Env)
    requires MidTier(h, R2, e, m)
    ensures e.fs.Keys <= m.fs.Keys
  {
    hide MidR2, R2Prepared;
    if m != e {
      MidR2Means(h, e, m);
      if !UpToR2(e, m) {
        UpToR2Prepared(h, e);
        RestartSettles(h, R2Prepared(h, e));
      }
    }
  }

  lemma R2GoesThrough(h: Host, e: Env)
    requires Skeleton(e) && h.accepts(h.nginxText)
    ensures TierEffect(h, R2, e).Some?
  {
    hide TierEffect;
    R2Meaning(h, e);
  }

  lemma CanonicalIsClean(h: Host, c: Env, a: Aspect)
    requires IsCanonical(h, c)
    ensures CleanAt(h, c, a)
  {
  }

  lemma DamagedIsNotCanonical(h: Host, r: Env, a: Aspect)
    requires !CleanAt(h, r, a)
    ensures !IsCanonical(h, r)
  {
  }

  // ---- explicit tiers after forced faults ----

  function TierCovered(tier: Tier): set<Aspect> {
    if tier == R2 then R2_COVERED else {}
  }

  /** The Recover of a fault leaves these of its scar undamaged, whatever they were like. */
  function FullyRestored(f: FaultId): set<Aspect> {
    if f == F003 then {} else Scar(f)
  }

  /** The aspect is undamaged, or the Recover of f repairs it; that of F-003 repairs a mode and no more. */
  predicate RepairedAt(h: Host, f: FaultId, e: Env, a: Aspect) {
    || CleanAt(h, e, a)
    || a in FullyRestored(f)
    || (f == F003 && a == AConfig && ConfigPath in e.fs &&
        Some(e.fs[ConfigPath].(mode := MODE_CONFIG)) == CanonicalNode(h, ConfigPath))
  }

  lemma RecoverRepairs(h: Host, f: FaultId, e: Env, e0: Env, a: Aspect)
    requires IsReversible(f) && RecoverEffect(h, f, e) == Some(e0)
    ensures CleanAt(h, e0, a) <==> RepairedAt(h, f, e, a)
  {
    if a !in Scar(f) {
      hide RecoverEffect, CleanAt, SameAt;
      RecoverSame(h, f, e, e0, a);
      if CleanAt(h, e, a) {
        SameKeepsClean(h, e, e0, a);
      }
      if CleanAt(h, e0, a) {
        CleanGoesBack(h, e, e0, a);
      }
    } else if f == F003 {
      hide CleanAt, RecoverEffect;
      ModeRepaired(h, e, e0);
    } else {
      hide RecoverEffect, CleanAt;
      RecoverRestores(h, f, e, e0, a);
    }
  }

  lemma ModeRepaired(h: Host, e: Env, e0: Env)
    requires RecoverEffect(h, F003, e) == Some(e0)
    ensures CleanAt(h, e0, AConfig) <==> RepairedAt(h, F003, e, AConfig)
  {
    hide Restart;
    WriteAndRestartSettle(h, e, ConfigPath, e.fs[ConfigPath].(mode := MODE_CONFIG));
    assert CleanAt(h, e, AConfig) ==> e.fs[ConfigPath].(mode := MODE_CONFIG) == e.fs[ConfigPath];
  }

  lemma RecoverRestores(h: Host, f: FaultId, e: Env, e0: Env, a: Aspect)
    requires IsReversible(f) && a in FullyRestored(f) && RecoverEffect(h, f, e) == Some(e0)
    ensures CleanAt(h, e0, a)
  {
    hide Restart;
    match f
    case F001 | F004 | F007 | F015 =>
    case F002 | F016 => WriteAndRestartSettle(h, e, ConfigPath, CanonicalNode(h, ConfigPath).value);
    case F005 => WriteAndRestartSettle(h, e, BinaryPath, e.fs[BinaryPath].(mode := MODE_BINARY));
    case F006 | F013 =>
      RestartSettles(h, DaemonReload(Environment.RestoreFile(h, e, UnitFilePath).value));
    case F009 | F017 | F018 | F019 | F020 | F021 =>
      hide RecoverEffect, CleanAt;
      RecoverCleans(h, f, e, e0, a);
  }
}
