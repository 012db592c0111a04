/** State detection: internal/state/detect.go. */
module Detection {
  import opened Common
  import opened Conformance
  import opened Record

  datatype Confidence = FromRuntime | FromConformance | FromStateFile | UnknownConfidence

  /** The empty state name of the source is None here. */
  datatype Detected = Detected(
    state: Option<State>, confidence: Confidence, reconciled: bool, prior: Option<State>)

  datatype DetectInput = DetectInput(
    stateFile: Option<File>, suite: Option<SuiteResult>, lightweight: Option<SuiteResult>)

  function Detect(input: DetectInput): Detected {
    var recorded := if input.stateFile.Some? then Some(input.stateFile.value.state) else None;
    var fault := if input.stateFile.Some? then input.stateFile.value.activeFault else None;
    var valid := input.stateFile.Some? && input.stateFile.value.classificationValid;
    var trusted := if !valid && input.stateFile.Some? then None else recorded;
    if input.lightweight.Some? then ReconcileFromRuntime(input.lightweight.value, fault, trusted)
    else if input.suite.Some? then ReconcileFromSuite(input.suite.value, fault, trusted)
    else if trusted.Some? then Detected(trusted, FromStateFile, false, None)
    else Detected(None, UnknownConfidence, false, None)
  }

  function ReconcileFromRuntime(lr: SuiteResult, fault: Option<ActiveFault>, recorded: Option<State>): Detected {
    if lr.classification.IsConformant() then
      if fault.Some? then
        Detected(Some(Degraded), FromRuntime, recorded.Some? && recorded.value != Degraded, recorded)
      else
        Detected(Some(Conformant), FromRuntime, recorded.Some? && recorded.value != Conformant, recorded)
    else if fault.Some? then
      Detected(Some(Degraded), FromRuntime, recorded.Some? && recorded.value != Degraded, recorded)
    else
      Detected(Some(Broken), FromRuntime, recorded.Some? && recorded.value != Broken, recorded)
  }

  function ReconcileFromSuite(sr: SuiteResult, fault: Option<ActiveFault>, recorded: Option<State>): Detected {
    var conformant := sr.classification.IsConformant();
    if conformant && recorded == Some(Degraded) then
      Detected(Some(Conformant), FromConformance, recorded.Some?, recorded)
    else if !conformant && recorded == Some(Conformant) then
      Detected(Some(Broken), FromConformance, recorded.Some?, recorded)
    else if !conformant && fault.None? then
      Detected(Some(Broken), FromConformance, recorded.Some? && recorded.value != Broken, recorded)
    else if |sr.failingBlocking| > 0 then
      Detected(Some(Broken), FromConformance, recorded.Some? && recorded.value != Broken, recorded)
    else if fault.None? && recorded == Some(Degraded) then
      Detected(Some(Conformant), FromConformance, true, recorded)
    else
      var detected := if recorded.None? then Conformant else recorded.value;
      Detected(Some(detected), FromConformance, recorded.Some? && recorded.value != detected, recorded)
  }

  predicate IsUnknown(d: Detected) {
    d.confidence == UnknownConfidence || d.state.None?
  }

  /** The recorded state that detection starts from: none when the record is unreadable or distrusted. */
  function EffectiveRecord(f: Option<File>): Option<State> {
    if f.Some? && f.value.classificationValid then Some(f.value.state) else None
  }

  /** Reconciliation is announced exactly when a trusted record says something else, on every path. */
  lemma ReconciledMeaning(input: DetectInput)
    ensures Detect(input).reconciled <==>
            EffectiveRecord(input.stateFile).Some? && EffectiveRecord(input.stateFile) != Detect(input).state
  {
  }

  /** Detection fails to decide exactly when there is neither evidence nor a trusted record. */
  lemma UnknownMeaning(input: DetectInput)
    ensures IsUnknown(Detect(input)) <==>
            input.lightweight.None? && input.suite.None? && EffectiveRecord(input.stateFile).None?
  {
  }

  /** The suite path finds BROKEN exactly for a failing suite or a trusted record that already says so. */
  lemma SuitePathBroken(f: Option<File>, results: seq<CheckResult>, total: nat)
    ensures var sr := Classified(results, total);
            Detect(DetectInput(f, Some(sr), None)).state == Some(Broken) <==>
            !sr.classification.IsConformant() || EffectiveRecord(f) == Some(Broken)
  {
    NonConformantMeaning(results, total);
  }

  /**
   * The state the suite path finds: BROKEN for a failing suite; for a conformant one CONFORMANT in place
   * of DEGRADED or of no trusted record, and any other trusted record as it is.
   */
  lemma SuitePathState(f: Option<File>, results: seq<CheckResult>, total: nat)
    ensures var sr, recorded := Classified(results, total), EffectiveRecord(f);
            Detect(DetectInput(f, Some(sr), None)).state ==
            if !sr.classification.IsConformant() then Some(Broken)
            else if recorded.None? || recorded == Some(Degraded) then Some(Conformant)
            else recorded
  {
    NonConformantMeaning(results, total);
  }

  /** Runtime evidence goes before a suite, a suite before the record; the prior state is the trusted one. */
  lemma EvidenceOrder(input: DetectInput)
    ensures var d, recorded := Detect(input), EffectiveRecord(input.stateFile);
            && (d.confidence == FromRuntime <==> input.lightweight.Some?)
            && (d.confidence == FromConformance <==> input.lightweight.None? && input.suite.Some?)
            && (d.confidence == FromStateFile <==>
                  input.lightweight.None? && input.suite.None? && recorded.Some?)
            && (input.lightweight.None? && input.suite.None? ==> d.state == recorded && d.prior.None?)
            && (input.lightweight.Some? || input.suite.Some? ==> d.prior == recorded)
  {
  }

  /** The state that runtime evidence stands for: the recorded fault decides first, then health. */
  function RuntimeState(fault: Option<ActiveFault>, a: Answers): State {
    if fault.Some? then Degraded
    else if StatusEvidence(a).classification.IsConformant() then Conformant
    else Broken
  }

  function DetectForStatus(f: Option<File>, a: Answers): Detected {
    Detect(DetectInput(f, None, Some(StatusEvidence(a))))
  }

  /** Runtime evidence outranks a suite result and the record, and agrees with I-2 about the recorded fault. */
  lemma RuntimeDecides(f: Option<File>, suite: Option<SuiteResult>, a: Answers)
    ensures var d := Detect(DetectInput(f, suite, Some(StatusEvidence(a))));
            && d == DetectForStatus(f, a)
            && d.state == Some(RuntimeState(if f.Some? then f.value.activeFault else None, a))
            && (f.Some? ==> FaultMatchesState(f.value.(state := d.state.value)))
  {
  }

  /** On the same answers, a suite that validate calls conformant is CONFORMANT to status, or DEGRADED with a fault. */
  lemma StatusNeverWorseThanValidate(f: Option<File>, a: Answers)
    requires Suite(a).classification.IsConformant()
    ensures DetectForStatus(f, a).state ==
            Some(if f.Some? && f.value.activeFault.Some? then Degraded else Conformant)
  {
    ConformantSuiteLooksHealthy(a);
  }
}
