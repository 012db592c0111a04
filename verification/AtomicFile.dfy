/**
 * Write-to-temp-and-rename, as in Store.Write, Real.atomicWrite and the service's writeAtomic:
 * internal/state/store.go, internal/executor/real.go, service/signals/signals.go.
 */
module AtomicFile {
  import opened Common

  // ---- one writer, undisturbed ----

  datatype Name = Target | Temp(id: nat)

  /** A directory; the outcome of each operation is decided from outside, and whether files can be removed. */
  class Directory {
    var files: map<Name, string>
    var ops: nat
    const succeeds: nat -> bool
    const removable: bool

    constructor (files: map<Name, string>, succeeds: nat -> bool, removable: bool)
      ensures this.files == files && this.succeeds == succeeds && this.removable == removable
    {
      this.files, this.ops, this.succeeds, this.removable := files, 0, succeeds, removable;
    }

    method CreateTemp() returns (name: Option<Name>)
      modifies this
      ensures name.None? ==> files == old(files) && !succeeds(old(ops))
      ensures name.Some? ==> name.value.Temp? && name.value !in old(files) && files == old(files)[name.value := ""]
    {
      var ok := succeeds(ops);
      ops := ops + 1;
      if !ok {
        return None;
      }
      var id := FreshId(files.Keys);
      files := files[Temp(id) := ""];
      name := Some(Temp(id));
    }

    /** Appends to a file; a failed append may leave part of the chunk behind. */
    method Append(name: Name, chunk: string) returns (ok: bool)
      requires name in files
      modifies this
      ensures ok == succeeds(old(ops))
      ensures ok ==> files == old(files)[name := old(files)[name] + chunk]
      ensures !ok ==> exists n: nat :: n <= |chunk| && files == old(files)[name := old(files)[name] + chunk[..n]]
    {
      ok := succeeds(ops);
      ops := ops + 1;
      var n := if ok then |chunk| else |chunk| / 2;
      assert chunk[..|chunk|] == chunk;
      files := files[name := files[name] + chunk[..n]];
    }

    /** sync, close, chmod and chown: no content changes. */
    method Seal() returns (ok: bool)
      modifies this`ops
      ensures ok == succeeds(old(ops))
    {
      ok := succeeds(ops);
      ops := ops + 1;
    }

    method Rename(from: Name, to: Name) returns (ok: bool)
      requires from in files && from != to
      modifies this
      ensures ok == succeeds(old(ops))
      ensures files == if ok then old(files)[to := old(files)[from]] - {from} else old(files)
    {
      ok := succeeds(ops);
      ops := ops + 1;
      if ok {
        files := files[to := files[from]] - {from};
      }
    }

    method Remove(name: Name)
      modifies this`files
      ensures files == if removable then old(files) - {name} else old(files)
    {
      if removable {
        files := files - {name};
      }
    }

    /**
     * Either the whole payload is installed under the target, or the directory is as it was, but for a
     * temp file that could not be removed.
     */
    method AtomicWrite(payload: seq<string>) returns (ok: bool)
      modifies this
      ensures (forall n :: succeeds(n)) ==> ok
      ensures ok ==> files == old(files)[Target := Flat(payload)]
      ensures !ok && removable ==> files == old(files)
      ensures !ok ==> files == old(files) || exists id :: Temp(id) !in old(files) && files - {Temp(id)} == old(files)
    {
      var created := CreateTemp();
      if created.None? {
        return false;
      }
      var tmp := created.value;
      ghost var before := old(files);
      var success := true;
      var i := 0;
      while i < |payload| && success
        invariant i <= |payload|
        invariant tmp in files && files - {tmp} == before
        invariant success ==> files[tmp] == Flat(payload[..i])
        invariant (forall n :: succeeds(n)) ==> success
      {
        assert payload[..i + 1][..i] == payload[..i];
        success := Append(tmp, payload[i]);
        i := i + 1;
        KeepOthers(before, files, tmp);
      }
      assert payload[..|payload|] == payload;
      if success {
        success := Seal();
      }
      if success {
        success := Rename(tmp, Target);
        if success {
          assert files == before[Target := Flat(payload)];
        }
      }
      if !success {
        Remove(tmp);
      }
      ok := success;
    }
  }

  lemma KeepOthers(before: map<Name, string>, files: map<Name, string>, tmp: Name)
    requires tmp in files
    requires forall n | n != tmp :: (n in files <==> n in before) && (n in before ==> files[n] == before[n])
    requires tmp !in before
    ensures files - {tmp} == before
  {
  }

  function Flat(chunks: seq<string>): string {
    if chunks == [] then "" else Flat(chunks[..|chunks| - 1]) + chunks[|chunks| - 1]
  }

  /** The chunks of a payload, one after the other. */
  lemma {:induction false} FlatOfParts(a: seq<string>, b: seq<string>, chunk: string)
    ensures Flat(a + b) == Flat(a) + Flat(b)
    ensures Flat([chunk]) == chunk && Flat([]) == ""
  {
    assert [chunk][..0] == [];
    assert Flat([]) == "";
    assert Flat([chunk]) == "" + chunk;
    if b == [] {
      assert a + b == a;
    } else {
      var front := b[..|b| - 1];
      assert (a + b)[..|a + b| - 1] == a + front;
      FlatOfParts(a, front, chunk);
    }
  }

  method FreshId(names: set<Name>) returns (id: nat)
    ensures Temp(id) !in names
  {
    id := 0;
    var left := names;
    while left != {}
      invariant left <= names
      invariant forall n | n in names - left && n.Temp? :: n.id < id
      decreases |left|
    {
      var n :| n in left;
      if n.Temp? && n.id >= id {
        id := n.id + 1;
      }
      left := left - {n};
    }
  }

  // ---- any number of writers, one file operation at a time ----

  type Writer = nat

  datatype Phase =
    | Writing(temp: nat, payload: string, written: nat)
    | Sealed(temp: nat, payload: string)
    | Failing(temp: nat)
    | Returned(ok: bool)

  datatype System = System(
    target: Option<string>,
    temps: map<nat, string>,
    phase: map<Writer, Phase>,
    crashed: set<Writer>,
    nextTemp: nat,
    leftovers: set<nat>,
    installs: seq<(Writer, string)>)

  datatype Step =
    | CreateTemp(w: Writer, payload: string)
    | CreateFails(w: Writer)
    | WriteSome(w: Writer, n: nat)
    | Seal(w: Writer)
    | Fail(w: Writer)
    | Rename(w: Writer)
    | CleanUp(w: Writer)
    | CleanUpFails(w: Writer)
    | Crash(w: Writer)

  /** One operation of one writer that has not crashed; each writer writes once. */
  function Next(s: System, step: Step): Option<System> {
    if step.w in s.crashed then None
    else
      match step
      case CreateTemp(w, payload) =>
        if w in s.phase then None
        else Some(s.(temps := s.temps[s.nextTemp := ""], phase := s.phase[w := Writing(s.nextTemp, payload, 0)],
                     nextTemp := s.nextTemp + 1))
      case CreateFails(w) =>
        if w in s.phase then None else Some(s.(phase := s.phase[w := Returned(false)]))
      case WriteSome(w, n) =>
        if w in s.phase && s.phase[w].Writing? && s.phase[w].temp in s.temps &&
           s.phase[w].written + n <= |s.phase[w].payload|
        then
          var ph := s.phase[w];
          Some(s.(temps := s.temps[ph.temp := s.temps[ph.temp] + ph.payload[ph.written..ph.written + n]],
                  phase := s.phase[w := ph.(written := ph.written + n)]))
        else None
      case Seal(w) =>
        if w in s.phase && s.phase[w].Writing? && s.phase[w].written == |s.phase[w].payload|
        then Some(s.(phase := s.phase[w := Sealed(s.phase[w].temp, s.phase[w].payload)]))
        else None
      case Fail(w) =>
        if w in s.phase && (s.phase[w].Writing? || s.phase[w].Sealed?)
        then Some(s.(phase := s.phase[w := Failing(s.phase[w].temp)]))
        else None
      case Rename(w) =>
        if w in s.phase && s.phase[w].Sealed? && s.phase[w].temp in s.temps then
          var ph := s.phase[w];
          Some(s.(target := Some(s.temps[ph.temp]), temps := s.temps - {ph.temp},
                  phase := s.phase[w := Returned(true)],
                  installs := s.installs + [(w, ph.payload)]))
        else None
      case CleanUp(w) =>
        if w in s.phase && s.phase[w].Failing? then
          Some(s.(temps := s.temps - {s.phase[w].temp}, phase := s.phase[w := Returned(false)]))
        else None
      case CleanUpFails(w) =>
        if w in s.phase && s.phase[w].Failing? then
          Some(s.(leftovers := s.leftovers + {s.phase[w].temp}, phase := s.phase[w := Returned(false)]))
        else None
      case Crash(w) => Some(s.(crashed := s.crashed + {w}))
  }

  function After(s: System, steps: seq<Step>): Option<System> {
    if steps == [] then Some(s)
    else
      var before :- After(s, steps[..|steps| - 1]);
      Next(before, steps[|steps| - 1])
  }

  predicate OwnsTemp(ph: Phase) {
    !ph.Returned?
  }

  /** A writer under way has its temp file, holding as much of its payload as it wrote. */
  predicate HoldsItsPart(temps: map<nat, string>, ph: Phase) {
    match ph
    case Writing(t, payload, written) => t in temps && written <= |payload| && temps[t] == payload[..written]
    case Sealed(t, payload) => t in temps && temps[t] == payload
    case Failing(t) => t in temps
    case Returned(_) => true
  }

  /** No two writers share a temp file. */
  ghost predicate OwnTemps(phase: map<Writer, Phase>) {
    forall w, v | w in phase && v in phase && w != v && OwnsTemp(phase[w]) && OwnsTemp(phase[v]) ::
      phase[w].temp != phase[v].temp
  }

  ghost predicate Consistent(s: System) {
    && (forall t | t in s.temps :: t < s.nextTemp)
    && (forall w | w in s.phase :: HoldsItsPart(s.temps, s.phase[w]))
    && OwnTemps(s.phase)
  }

  /** A writer is told it succeeded exactly when its payload was installed. */
  ghost predicate Reported(s: System) {
    && (forall w | w in s.phase && s.phase[w] == Returned(true) ::
          exists i | 0 <= i < |s.installs| :: s.installs[i].0 == w)
    && (forall i | 0 <= i < |s.installs| :: s.installs[i].0 in s.phase && s.phase[s.installs[i].0] == Returned(true))
  }

  /** The temp files are those of writers that have not returned, and those that could not be removed. */
  ghost predicate TempsAreOwned(s: System) {
    forall t | t in s.temps && t !in s.leftovers ::
      exists w | w in s.phase :: OwnsTemp(s.phase[w]) && s.phase[w].temp == t
  }

  /** An atomic register: it holds what was last installed. */
  function Register(initial: Option<string>, installs: seq<(Writer, string)>): Option<string> {
    if installs == [] then initial else Some(installs[|installs| - 1].1)
  }

  ghost predicate Inv(s: System, initial: Option<string>) {
    Consistent(s) && Reported(s) && TempsAreOwned(s) && s.target == Register(initial, s.installs)
  }

  /** Every file operation leaves the register alone or installs one writer's complete payload. */
  lemma StepRefinesRegister(s: System, step: Step, s': System, initial: Option<string>)
    requires Inv(s, initial) && Next(s, step) == Some(s')
    ensures s'.target == Register(initial, s'.installs)
    ensures (s'.installs == s.installs && s'.target == s.target) ||
            (step.Rename? && s'.installs == s.installs + [(step.w, s.phase[step.w].payload)])
  {
  }

  lemma StepKeepsConsistent(s: System, step: Step, s': System)
    requires Consistent(s) && Next(s, step) == Some(s')
    ensures Consistent(s')
  {
    match step
    case CreateTemp(w, payload) =>
      hide Next, Consistent;
      CreateKeepsConsistent(s, w, payload, s');
    case WriteSome(w, n) =>
      hide Next, Consistent;
      WriteKeepsConsistent(s, w, n, s');
    case Rename(w) =>
      hide Next, Consistent;
      GoneKeepsConsistent(s, step, s');
    case CleanUp(w) =>
      hide Next, Consistent;
      GoneKeepsConsistent(s, step, s');
    case _ =>
      hide Next, Consistent;
      PhaseKeepsConsistent(s, step, s');
  }

  lemma CreateKeepsConsistent(s: System, w: Writer, payload: string, s': System)
    requires Consistent(s) && Next(s, CreateTemp(w, payload)) == Some(s')
    ensures Consistent(s')
  {
    assert payload[..0] == "";
    forall v | v in s'.phase ensures HoldsItsPart(s'.temps, s'.phase[v]) {
      if v != w {
        assert HoldsItsPart(s.temps, s.phase[v]);
      }
    }
  }

  lemma WriteKeepsConsistent(s: System, w: Writer, n: nat, s': System)
    requires Consistent(s) && Next(s, WriteSome(w, n)) == Some(s')
    ensures Consistent(s')
  {
    var ph := s.phase[w];
    assert HoldsItsPart(s.temps, ph);
    assert ph.payload[..ph.written] + ph.payload[ph.written..ph.written + n] == ph.payload[..ph.written + n];
    forall v | v in s'.phase ensures HoldsItsPart(s'.temps, s'.phase[v]) {
      if v != w {
        assert HoldsItsPart(s.temps, s.phase[v]);
      }
    }
  }

  /** The temp file goes, under its new name or for good, and its writer has returned. */
  lemma GoneKeepsConsistent(s: System, step: Step, s': System)
    requires step.Rename? || step.CleanUp?
    requires Consistent(s) && Next(s, step) == Some(s')
    ensures Consistent(s')
  {
    forall v | v in s'.phase ensures HoldsItsPart(s'.temps, s'.phase[v]) {
      if v != step.w {
        assert HoldsItsPart(s.temps, s.phase[v]);
      }
    }
  }

  /** Steps that touch no temp file. */
  lemma PhaseKeepsConsistent(s: System, step: Step, s': System)
    requires !step.CreateTemp? && !step.WriteSome? && !step.Rename? && !step.CleanUp?
    requires Consistent(s) && Next(s, step) == Some(s')
    ensures Consistent(s')
  {
    assert s'.temps == s.temps;
    forall v | v in s'.phase ensures HoldsItsPart(s'.temps, s'.phase[v]) {
      if v in s.phase {
        assert HoldsItsPart(s.temps, s.phase[v]);
      }
    }
  }

  lemma StepReports(s: System, step: Step, s': System, initial: Option<string>)
    requires Inv(s, initial) && Next(s, step) == Some(s')
    ensures Reported(s')
  {
    forall w | w in s'.phase && s'.phase[w] == Returned(true)
      ensures exists i | 0 <= i < |s'.installs| :: s'.installs[i].0 == w
    {
      if step.Rename? && w == step.w {
        assert s'.installs[|s.installs|].0 == w;
      } else {
        assert w in s.phase && s.phase[w] == Returned(true);
        var i :| 0 <= i < |s.installs| && s.installs[i].0 == w;
        assert s'.installs[i].0 == w;
      }
    }
  }

  lemma StepKeepsTempsOwned(s: System, step: Step, s': System, initial: Option<string>)
    requires Inv(s, initial) && Next(s, step) == Some(s')
    ensures TempsAreOwned(s')
  {
    forall t | t in s'.temps && t !in s'.leftovers
      ensures exists w | w in s'.phase :: OwnsTemp(s'.phase[w]) && s'.phase[w].temp == t {
      if step.CreateTemp? && t == s.nextTemp {
        assert OwnsTemp(s'.phase[step.w]);
      } else {
        var w :| w in s.phase && OwnsTemp(s.phase[w]) && s.phase[w].temp == t;
        assert w in s'.phase && OwnsTemp(s'.phase[w]) && s'.phase[w].temp == t;
      }
    }
  }

  lemma {:induction false} RunKeeps(s: System, steps: seq<Step>, s': System, initial: Option<string>)
    requires Inv(s, initial) && After(s, steps) == Some(s')
    ensures Inv(s', initial)
  {
    if steps != [] {
      var before := After(s, steps[..|steps| - 1]).value;
      RunKeeps(s, steps[..|steps| - 1], before, initial);
      var step := steps[|steps| - 1];
      StepRefinesRegister(before, step, s', initial);
      StepKeepsConsistent(before, step, s');
      StepReports(before, step, s', initial);
      StepKeepsTempsOwned(before, step, s', initial);
    }
  }

  /** Before any writer starts. */
  predicate Quiet(s: System) {
    s.temps == map[] && s.phase == map[] && s.installs == [] && s.leftovers == {}
  }

  predicate PayloadOf(steps: seq<Step>, w: Writer, payload: string) {
    CreateTemp(w, payload) in steps
  }

  /** A writer's payload is the one it was called with, all through the run. */
  ghost predicate PayloadsGiven(s: System, steps: seq<Step>) {
    && (forall w | w in s.phase && (s.phase[w].Writing? || s.phase[w].Sealed?) ::
          PayloadOf(steps, w, s.phase[w].payload))
    && (forall i | 0 <= i < |s.installs| :: PayloadOf(steps, s.installs[i].0, s.installs[i].1))
  }

  lemma {:induction false} RunGivesPayloads(s: System, steps: seq<Step>, s': System)
    requires Quiet(s) && After(s, steps) == Some(s')
    ensures PayloadsGiven(s', steps)
  {
    if steps != [] {
      var front := steps[..|steps| - 1];
      var before := After(s, front).value;
      RunGivesPayloads(s, front, before);
      assert forall step | step in front :: step in steps;
      assert steps[|steps| - 1] in steps;
    }
  }

  lemma {:induction false} NoLeftovers(s: System, steps: seq<Step>, s': System)
    requires After(s, steps) == Some(s')
    requires forall step | step in steps :: !step.CleanUpFails?
    ensures s'.leftovers == s.leftovers
  {
    if steps != [] {
      NoLeftovers(s, steps[..|steps| - 1], After(s, steps[..|steps| - 1]).value);
      assert steps[|steps| - 1] in steps;
    }
  }

  /**
   * With any number of writers, writing in any chunks, failing and crashing anywhere: the target is
   * always the initial content or one complete payload; success means this payload was installed; an
   * error means it never was; and every temp file left belongs to a writer that has not returned, or
   * could not be removed.
   */
  lemma RenameIsAtomic(s: System, steps: seq<Step>, s': System, w: Writer)
    requires Quiet(s) && After(s, steps) == Some(s')
    ensures s'.target == s.target || exists v, payload :: PayloadOf(steps, v, payload) && s'.target == Some(payload)
    ensures w in s'.phase && s'.phase[w] == Returned(true) ==>
              exists i | 0 <= i < |s'.installs| :: s'.installs[i].0 == w && PayloadOf(steps, w, s'.installs[i].1)
    ensures w in s'.phase && s'.phase[w] == Returned(false) ==>
              forall i | 0 <= i < |s'.installs| :: s'.installs[i].0 != w
    ensures TempsAreOwned(s')
    ensures (forall step | step in steps :: !step.CleanUpFails?) ==> s'.leftovers == {}
  {
    RunKeeps(s, steps, s', s.target);
    if forall step | step in steps :: !step.CleanUpFails? {
      NoLeftovers(s, steps, s');
    }
    RunGivesPayloads(s, steps, s');
    if s'.installs != [] {
      var last := s'.installs[|s'.installs| - 1];
      assert PayloadOf(steps, last.0, last.1);
    }
  }

  lemma AfterNone(s: System)
    ensures After(s, []) == Some(s)
  {
  }

  lemma AfterOneMore(s: System, steps: seq<Step>, step: Step)
    requires After(s, steps).Some?
    ensures After(s, steps + [step]) == Next(After(s, steps).value, step)
  {
    assert (steps + [step])[..|steps|] == steps;
  }

  /** A writer that nothing gets in the way of installs its payload, from any state and in any two chunks. */
  lemma LoneWriterInstalls(s: System, w: Writer, payload: string, n: nat)
    requires w !in s.phase && w !in s.crashed && n <= |payload|
    ensures var steps := [CreateTemp(w, payload), WriteSome(w, n), WriteSome(w, |payload| - n), Seal(w), Rename(w)];
            && After(s, steps).Some?
            && After(s, steps).value.target == Some(payload)
            && w in After(s, steps).value.phase && After(s, steps).value.phase[w] == Returned(true)
  {
    hide After;
    var s1 := Next(s, CreateTemp(w, payload)).value;
    var s2 := Next(s1, WriteSome(w, n)).value;
    var s3 := Next(s2, WriteSome(w, |payload| - n)).value;
    assert s2.temps[s.nextTemp] == payload[..n] by {
      assert "" + payload[0..n] == payload[..n];
    }
    assert payload[..n] + payload[n..n + (|payload| - n)] == payload;
    assert s3.temps[s.nextTemp] == payload;
    AfterNone(s);
    AfterOneMore(s, [], CreateTemp(w, payload));
    var w1 := [CreateTemp(w, payload)];
    assert [] + [CreateTemp(w, payload)] == w1;
    AfterOneMore(s, w1, WriteSome(w, n));
    AfterOneMore(s, w1 + [WriteSome(w, n)], WriteSome(w, |payload| - n));
    var w3 := w1 + [WriteSome(w, n)] + [WriteSome(w, |payload| - n)];
    AfterOneMore(s, w3, Seal(w));
    AfterOneMore(s, w3 + [Seal(w)], Rename(w));
    assert w3 + [Seal(w)] + [Rename(w)] ==
           [CreateTemp(w, payload), WriteSome(w, n), WriteSome(w, |payload| - n), Seal(w), Rename(w)];
  }
}
