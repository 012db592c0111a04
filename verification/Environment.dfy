/**
 * The mutated system, in two layers. The file layer is what is on disk, in the systemd manager
 * environment and in the nftables chain. The loaded layer is what daemon-reload, restart and
 * nginx reload last took from it.
 */
module Environment {
  import opened Common
  import opened Conformance

  /** Paths of internal/config/config.go. */
  datatype Path =
    | BinaryPath | ConfigPath | ChaosEnvPath | UnitFilePath | NginxConfigPath
    | LogDir | LogPath | StateDir | InStateDir(name: string)

  type Mode = bv12

  const MODE_BINARY: Mode := 0x1E8
  const MODE_CONFIG: Mode := 0x1A0
  const MODE_LOG_DIR: Mode := 0x1ED
  const MODE_LOG_FILE: Mode := 0x1A0
  const MODE_STATE_DIR: Mode := 0x1ED
  const MODE_UNIT_FILE: Mode := 0x1A4
  const MODE_NGINX_CONFIG: Mode := 0x1A4
  const MODE_WORLD_READABLE: Mode := 0x1A4

  datatype User = AppUser | Root | OtherUser(name: string)

  datatype Node = Node(content: string, mode: Mode, owner: User, group: User)

  /** Everything a starting service takes with it. */
  datatype Launch = Launch(
    unit: Option<string>, binary: Option<Node>, config: Option<Node>, chaos: Option<Node>, manager: Option<string>)

  datatype App = Stopped | Running(launch: Launch)

  datatype Env = Env(
    fs: map<Path, Node>,
    manager: Option<string>,
    nft: seq<string>,
    loadedUnit: Option<string>,
    app: App,
    proxy: Option<string>)

  /**
   * What the model does not decide: the embedded canonical texts, whether a launch reaches the point
   * where the service runs, whether nginx -t accepts a text, what bootstrap leaves behind, what an
   * observer answers, which executor calls go through, and what one that does not leaves behind.
   */
  datatype Host = Host(
    configText: string,
    unitText: string,
    nginxText: string,
    boots: Launch -> bool,
    accepts: string -> bool,
    bootstrap: Env -> Env,
    observe: Env -> Answers,
    goesThrough: nat -> bool,
    wreck: (nat, Env) -> Env)

  function Lookup(fs: map<Path, Node>, p: Path): Option<Node> {
    if p in fs then Some(fs[p]) else None
  }

  function ContentOf(fs: map<Path, Node>, p: Path): Option<string> {
    if p in fs then Some(fs[p].content) else None
  }

  // ---- single operations, when they go through ----

  function WriteFile(e: Env, p: Path, content: string, mode: Mode, owner: User, group: User): Env {
    e.(fs := e.fs[p := Node(content, mode, owner, group)])
  }

  function Chmod(e: Env, p: Path, mode: Mode): Option<Env> {
    if p in e.fs then Some(e.(fs := e.fs[p := e.fs[p].(mode := mode)])) else None
  }

  function Chown(e: Env, p: Path, owner: User, group: User): Option<Env> {
    if p in e.fs then Some(e.(fs := e.fs[p := e.fs[p].(owner := owner, group := group)])) else None
  }

  function Remove(e: Env, p: Path): Option<Env> {
    if p in e.fs then Some(e.(fs := e.fs - {p})) else None
  }

  /** The file systems differ at one path at most. */
  ghost predicate DifferAt(fs: map<Path, Node>, fs': map<Path, Node>, p: Path) {
    forall q | q != p :: Lookup(fs', q) == Lookup(fs, q)
  }

  /**
   * Each file operation touches one path and no other part of the environment: a write puts the node
   * there, chmod and chown change what they are for on a node that is there, and remove takes one away.
   */
  lemma OperationsTouchOnePath(e: Env, p: Path, content: string, mode: Mode, owner: User, group: User)
    ensures var r := WriteFile(e, p, content, mode, owner, group);
            r == e.(fs := r.fs) && DifferAt(e.fs, r.fs, p) && Lookup(r.fs, p) == Some(Node(content, mode, owner, group))
    ensures Chmod(e, p, mode).Some? <==> p in e.fs
    ensures p in e.fs ==>
              var r := Chmod(e, p, mode).value;
              && r == e.(fs := r.fs) && DifferAt(e.fs, r.fs, p)
              && Lookup(r.fs, p) == Some(Node(e.fs[p].content, mode, e.fs[p].owner, e.fs[p].group))
    ensures Chown(e, p, owner, group).Some? <==> p in e.fs
    ensures p in e.fs ==>
              var r := Chown(e, p, owner, group).value;
              && r == e.(fs := r.fs) && DifferAt(e.fs, r.fs, p)
              && Lookup(r.fs, p) == Some(Node(e.fs[p].content, e.fs[p].mode, owner, group))
    ensures Remove(e, p).Some? <==> p in e.fs
    ensures p in e.fs ==>
              var r := Remove(e, p).value;
              r == e.(fs := r.fs) && DifferAt(e.fs, r.fs, p) && p !in r.fs
  {
  }

  /** The canonical node RestoreFile writes; only three paths have one. */
  function CanonicalNode(h: Host, p: Path): Option<Node> {
    match p
    case ConfigPath => Some(Node(h.configText, MODE_CONFIG, AppUser, AppUser))
    case UnitFilePath => Some(Node(h.unitText, MODE_UNIT_FILE, Root, Root))
    case NginxConfigPath => Some(Node(h.nginxText, MODE_NGINX_CONFIG, Root, Root))
    case _ => None
  }

  function RestoreFile(h: Host, e: Env, p: Path): Option<Env> {
    var n :- CanonicalNode(h, p);
    Some(WriteFile(e, p, n.content, n.mode, n.owner, n.group))
  }

  function DaemonReload(e: Env): Env {
    e.(loadedUnit := ContentOf(e.fs, UnitFilePath))
  }

  function LaunchOf(e: Env): Launch {
    Launch(e.loadedUnit, Lookup(e.fs, BinaryPath), Lookup(e.fs, ConfigPath), Lookup(e.fs, ChaosEnvPath), e.manager)
  }

  predicate OwnerWrites(mode: Mode) {
    mode & 0x80 != 0
  }

  /** The service opens its log for append and creates it when it is missing. */
  predicate LogOpens(fs: map<Path, Node>) {
    if LogPath in fs then fs[LogPath].owner == AppUser && OwnerWrites(fs[LogPath].mode)
    else LogDir in fs && fs[LogDir].owner == AppUser && OwnerWrites(fs[LogDir].mode)
  }

  const FRESH_LOG := Node("", MODE_LOG_FILE, AppUser, AppUser)

  predicate ComesUp(h: Host, e: Env) {
    h.boots(LaunchOf(e)) && LogOpens(e.fs)
  }

  /** systemctl restart: a service that comes up takes a snapshot and recreates a missing log. */
  function Restart(h: Host, e: Env): Env {
    if ComesUp(h, e) then
      e.(app := Running(LaunchOf(e)),
         fs := if LogPath in e.fs then e.fs else e.fs[LogPath := FRESH_LOG])
    else e.(app := Stopped)
  }

  /** systemctl start: nothing happens to a service that is running. */
  function Start(h: Host, e: Env): Env {
    if e.app.Running? then e else Restart(h, e)
  }

  /** nginx -t && nginx -s reload. */
  function NginxReload(h: Host, e: Env): Option<Env> {
    if NginxConfigPath in e.fs && h.accepts(e.fs[NginxConfigPath].content)
    then Some(e.(proxy := Some(e.fs[NginxConfigPath].content)))
    else None
  }

  /** The names matched by /var/lib/app/file_*. */
  predicate IsFiller(p: Path) {
    p.InStateDir? && "file_" <= p.name
  }

  function RemoveFillers(e: Env): Env {
    e.(fs := map p | p in e.fs && !IsFiller(p) :: e.fs[p])
  }

  /** rm -f of one path. */
  function ForceRemove(e: Env, p: Path): Env {
    e.(fs := e.fs - {p})
  }

  // ---- text editing ----

  /** The text reads like the pattern from position i on, character by character. */
  predicate OccursAt(s: string, pattern: string, i: nat) {
    i + |pattern| <= |s| && forall k | 0 <= k < |pattern| :: CharAt(pattern, k) == CharAt(s, i + k)
  }

  lemma OccursAsSlice(s: string, pattern: string, i: nat)
    ensures OccursAt(s, pattern, i) <==> i + |pattern| <= |s| && s[i..i + |pattern|] == pattern
  {
    if i + |pattern| <= |s| {
      var part := s[i..i + |pattern|];
      if OccursAt(s, pattern, i) {
        forall k | 0 <= k < |pattern| ensures part[k] == pattern[k] {
          assert CharAt(pattern, k) == CharAt(s, i + k);
        }
        assert part == pattern;
      }
    }
  }

  /** The first occurrence of the pattern at or after `from`. */
  function IndexFrom(s: string, pattern: string, from: nat): (r: Option<nat>)
    ensures r.Some? ==> from <= r.value && OccursAt(s, pattern, r.value)
    ensures r.Some? ==> forall j: nat | from <= j < r.value :: !OccursAt(s, pattern, j)
    ensures r.None? ==> forall j: nat | from <= j :: !OccursAt(s, pattern, j)
    decreases |s| - from
  {
    if OccursAt(s, pattern, from) then Some(from)
    else if from >= |s| then None
    else IndexFrom(s, pattern, from + 1)
  }

  /** strings.Replace(s, pattern, by, 1). */
  function ReplaceFirst(s: string, pattern: string, newText: string): string {
    var at := IndexFrom(s, pattern, 0);
    if at.None? then s else s[..at.value] + newText + s[at.value + |pattern|..]
  }

  /** Without an occurrence nothing changes; the first one, wherever it is, gives way to the new text. */
  lemma ReplacePutsNewText(s: string, pattern: string, newText: string)
    ensures var at, edited := IndexFrom(s, pattern, 0), ReplaceFirst(s, pattern, newText);
            if at.None? then edited == s
            else
              && OccursAt(s, pattern, at.value) && (forall j: nat | j < at.value :: !OccursAt(s, pattern, j))
              && |edited| + |pattern| == |s| + |newText|
              && edited[..at.value] == s[..at.value]
              && OccursAt(edited, newText, at.value)
              && edited[at.value + |newText|..] == s[at.value + |pattern|..]
  {
    var at, edited := IndexFrom(s, pattern, 0), ReplaceFirst(s, pattern, newText);
    if at.Some? {
      OccursAsSlice(edited, newText, at.value);
    }
  }

  /**
   * Replacing the first occurrence leaves everything from a later point of the text as it was. The
   * edit reaches an occurrence at `key` exactly when no earlier one is there.
   */
  lemma ReplaceTouchesOnlyFirst(s: string, pattern: string, newText: string, key: nat)
    requires |pattern| > 0 && OccursAt(s, pattern, key)
    ensures var at := IndexFrom(s, pattern, 0);
            && at.Some? && at.value <= key
            && (at.value == key <==> forall j: nat | j < key :: !OccursAt(s, pattern, j))
            && (at.value + |pattern| <= key ==>
                  var edited := ReplaceFirst(s, pattern, newText);
                  && |edited| >= |s| - key
                  && edited[|edited| - (|s| - key)..] == s[key..])
  {
    var at := IndexFrom(s, pattern, 0);
    if at.value + |pattern| <= key {
      var edited := ReplaceFirst(s, pattern, newText);
      assert s[key..] == s[at.value + |pattern|..][key - at.value - |pattern|..];
    }
  }

  const APP_BIND_ADDR := "127.0.0.1:8080"

  /**
   * A configuration that mentions the canonical address in a line before the one that sets it, as the
   * embedded one does, keeps that setting whatever F-002 and F-016 write in place of the address.
   */
  lemma AddressEditStopsAtComment(head: string, between: string, tail: string, newText: string)
    ensures var s := head + APP_BIND_ADDR + between + APP_BIND_ADDR + tail;
            var edited := ReplaceFirst(s, APP_BIND_ADDR, newText);
            && |edited| >= |APP_BIND_ADDR + tail|
            && edited[|edited| - |APP_BIND_ADDR + tail|..] == APP_BIND_ADDR + tail
  {
    var s := head + APP_BIND_ADDR + between + APP_BIND_ADDR + tail;
    var key := |head| + |APP_BIND_ADDR| + |between|;
    assert OccursAt(s, APP_BIND_ADDR, key);
    assert OccursAt(s, APP_BIND_ADDR, |head|);
    assert s[key..] == APP_BIND_ADDR + tail;
    ReplaceTouchesOnlyFirst(s, APP_BIND_ADDR, newText, |head|);
    ReplaceTouchesOnlyFirst(s, APP_BIND_ADDR, newText, key);
  }

  /**
   * The same edit made a second time does reach that setting, when no other mention of the address is in
   * its way: the first one has replaced the mention before it.
   */
  lemma SecondEditReachesSetting(head: string, between: string, tail: string, newText: string)
    requires IndexFrom(head + APP_BIND_ADDR + (between + APP_BIND_ADDR + tail), APP_BIND_ADDR, 0) == Some(|head|)
    requires var edited := head + newText + between;
             IndexFrom(edited + APP_BIND_ADDR + tail, APP_BIND_ADDR, 0) == Some(|edited|)
    ensures var s := head + APP_BIND_ADDR + (between + APP_BIND_ADDR + tail);
            ReplaceFirst(ReplaceFirst(s, APP_BIND_ADDR, newText), APP_BIND_ADDR, newText) ==
            head + newText + between + newText + tail
  {
    hide ReplaceFirst, IndexFrom;
    var rest := between + APP_BIND_ADDR + tail;
    ReplaceAt(head, APP_BIND_ADDR, rest, newText);
    assert head + newText + rest == head + newText + between + APP_BIND_ADDR + tail;
    ReplaceAt(head + newText + between, APP_BIND_ADDR, tail, newText);
  }

  lemma ReplaceAt(before: string, pattern: string, rest: string, newText: string)
    requires IndexFrom(before + pattern + rest, pattern, 0) == Some(|before|)
    ensures ReplaceFirst(before + pattern + rest, pattern, newText) == before + newText + rest
  {
    var s := before + pattern + rest;
    assert s[..|before|] == before;
    assert s[|before| + |pattern|..] == rest;
  }
}
