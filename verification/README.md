# A model of the fault-injection lab's control plane

The `lab` control plane damages a small system on purpose (a service behind nginx), resets it, and keeps a
record of both in `state.json`. This project models that record, the system it speaks about, and the protocols
that keep the two in agreement. `dafny verify dfyconfig.toml` checks all of it.

## What is modelled

- **The record machine.** `Record` is `state.json`: its states, the fifty-entry history ring, the store that
  reads and replaces the file, and invariant I-2 (a fault is on record exactly in state DEGRADED).
- **The system, in two layers.** `Environment` has the file layer (contents, modes and owners of the config, unit
  file, nginx config, log, binary, directories, `chaos.env` and the files of the state directory; the systemd
  manager environment; the nftables chain) and the loaded layer (what `daemon-reload`, `restart` and the nginx
  reload last took from it). So the order of operations inside a reset matters.
- **The mutating commands.** `Executor` performs and then audits each operation. `Faults` holds the nineteen
  Apply/Recover pairs, `Reset` the tiers R1, R2 and R3, `Apply`, `Reset`, `Provision` and `Status` the commands
  with all their exits, as methods that update the store and the executor in place.
- **What runs keep.** `Canonical` and `Coverage` say which aspects of the file layer each fault damages, each
  Recover repairs and each tier covers, and what a stopped Apply or reset comes to when the next reset runs. `Lifecycle`
  carries that over whole runs: the record stays truthful about the system.
- **Concurrency.** `Serial`: the commands that lock, run by any number of processes with crashes and failing writes,
  amount to running them one after the other. `Interleaving`: all commands with no lock at all keep I-2; when they lose
  no update, and how they can. `Lock`: the lock file, one file operation at a time, and exactly which removals its
  exclusion survives. `AtomicFile`: temp file and rename as an atomic register.
- **Evidence.** `Conformance` is the check catalog, the runner with its dependent marking, the classification and
  the lightweight subset; `Detection` derives a state from such evidence.
- **Two independent parts.** `SpecIndex` is the guard splice of the document regenerator; `Signals` the service's
  signal files from start to shutdown.

### What the model is given

The outside world is a `Host` value: the three embedded texts, whether a launch comes up, whether `nginx -t` accepts
a text, what bootstrap leaves behind, what an observer answers, which executor calls go through, and what a failed
external command leaves behind. The methods hold for every `Host`. The theorems about whole runs ask for a working one,
`Canonical.Sound`: calls go through, the canonical nginx text and the one F-007 makes of it are accepted, a clean file
layer with the canonical unit boots, bootstrap establishes a canonical environment, and a canonical environment
passes every blocking check. `Canonical.WorkingHostExists` shows for any three texts that this can be met. Store and
directory operations take their outcomes from a function given at construction, and whether the lock is free is a
parameter of each command. Times are natural numbers passed in.

A fault's *scar* is the set of aspects its Apply damages. A missing log counts as no damage to the file layer, since
every start of the service recreates it with mode 0640; a canonical environment does have its log.

### Where the code and its own words differ

The model follows the code.

- Audit entries are written after the operation (`internal/executor/real.go:151-162`), though
  `internal/executor/audit.go:60` asks for before. `Executor.AuditOneOp` and `Lifecycle.Dispatch` state what the code does
  provide.
- `lab validate` appends an `executor_op` entry that stands for no mutation (`Executor.ValidateEntriesAreExtra`).
- The Recover of a fault that is not reversible succeeds (`Faults.IrreversibleRecoverSucceeds`), against
  `internal/catalog/fault.go:86-87`.
- The embedded `internal/config/config.yaml` mentions `127.0.0.1:8080` in a comment (line 12) before the line that sets
  it (line 14), and `replaceInBytes` replaces one occurrence. So F-002 and F-016 edit the comment and the service keeps its
  address (`Environment.AddressEditStopsAtComment`). An Apply that failed at its restart is not recorded, and the next one
  edits the setting (`Faults.ApplyResumes`, `Environment.SecondEditReachesSetting`).
- The first status after an invalidation restores the flag and not the detected state; the second one writes that
  (`Status.OneRunSettles`).
- An explicit R1 or R2 on F-008 or F-014 leaves `chaos.env` set, and can record CONFORMANT
  (`Lifecycle.LowTierRecordsFalsely`, `Lifecycle.LowTierCanRecordConformant`).
- Reclaiming a stale lock is not exclusive: a lock file whose PID is not written yet looks malformed
  (`Lock.ReclaimBreaksExclusion`). The lock excludes exactly when no removal takes away the file of a live holder
  (`Lock.ExclusiveExactlyWithoutHits`).
- A guard left over in the text before a heading makes the regenerator cut elsewhere the second time
  (`SpecIndex.StrayGuardMovesCut`).
- PROVISIONED and RECOVERING are written by no command (`Interleaving.TransitionalStatesNotWritten`), and apply never
  consults `CanApplyFault`, which would forbid a forced apply from RECOVERING (`Apply.GuardAgainstCanApplyFault`).
- Recover runs before an unknown tier is refused (`cmd/reset.go:180-241`), so such a reset fails, keeps the DEGRADED record
  and has still repaired the environment (`Lifecycle.UnknownTierStillRecovers`).
- Reset does not always converge, though `internal/state/state.go:100` says so: with F-010 on record R1 restores no nginx
  configuration, and fails for ever on one that nginx refuses (`Coverage.ForcedResetGoesThrough`,
  `Lifecycle.BlockedForever`).
- A start that finds the state directory unusable says so and then says Running or Degraded (`service/main.go:139-207`),
  though `service/signals/signals.go:174` lets Unhealthy take precedence (`Signals.StartServesExactly`).
- A handler that fails during the shutdown replaces ShuttingDown by Unhealthy (`Signals.UnhealthyUntilShutdown`).
- The healthy and loading markers coexist in every start that comes up (`service/main.go:172-180`), though
  `service/signals/signals.go` says that they must not (`Signals.MarkersCoexist`).

## Model

| member | source | states |
|---|---|---|
| Record.RingIsLogSuffix | internal/state/store.go:205-210 | After any number of appends the history is the last fifty entries of the unbounded log, in order. |
| Record.RememberKeepsAccount | internal/state/store.go:205-210 | An entry from the recorded state to the new one keeps the history chained and ending in the recorded state, also when the ring drops its oldest entry. |
| Record.AppendHistory | internal/state/store.go:205-210 | The append with its cut is one step of that ring and changes no other field. |
| Record.ShowHistory | cmd/reset_provision_history.go:102-130 | `lab history` fails exactly on an unreadable record and otherwise shows the newest entries first, all of them for a non-positive count. |
| Record.HistoryShowsNewestFirst | cmd/reset_provision_history.go:102-130 | For a log of any length, what is shown is its last entries reversed: the smaller of what is asked for and what the ring keeps, all that it keeps for a non-positive count. |
| Record.Store.Write | internal/state/store.go:132-186 | A write replaces the record or leaves it exactly as it was. |
| Record.Store.InvalidateClassification | internal/state/store.go:192-201 | Only the validity flag is cleared, and only if the record can be read and written. |
| Conformance.Classify | internal/conformance/result.go:74-104 | The classification loop counts what passed, reports the IDs of exactly the unmarked failures of each severity, in the order of the results (`FailingIdsMeaning`, `FailingIdsPositions`), and draws the verdict from them. |
| Conformance.FailingIdsMeaning | internal/conformance/result.go:79-95 | For any results, a check is reported under a severity exactly when it failed, is not marked dependent and has that severity. |
| Conformance.FailingIdsPositions | internal/conformance/result.go:79-95 | The reported IDs stand at strictly increasing positions of the results, and no counted failure is left out. |
| Conformance.ClassificationMeaning | internal/conformance/result.go:97-104 | The three verdicts told apart: conformant exactly without an unmarked failure, non-conformant exactly with a blocking one, degraded-conformant exactly with degrading ones only. |
| Conformance.NonConformantMeaning | internal/conformance/result.go:74-115 | A suite is non-conformant, and exits with 1, exactly when some unmarked blocking check failed. |
| Conformance.EveryResultCountedOnce | internal/conformance/result.go:74-104 | Passed, failing blocking, failing degraded and failed dependent results add up to all results. |
| Conformance.Run | internal/conformance/runner.go:36-56 | For any list of checks, each result is marked dependent exactly when it is an endpoint check and a failed S-001 stands before it in the list, and the classification is that of those results. |
| Conformance.MarkingNeverChangesVerdict | internal/conformance/runner.go:42-54 | Dependent marking leaves the verdict and exit code of a check list equal to those without suppression, for all outcomes, exactly when no non-blocking S-001 precedes a blocking endpoint check. |
| Conformance.MarkingHides | internal/conformance/runner.go:116-121 | Where such a pair stands, outcomes exist whose blocking failure the verdict hides. |
| Conformance.CatalogCannotHide | internal/conformance/catalog.go:26-500 | The catalog has no such pair. |
| Conformance.SuiteConformantMeaning | internal/conformance/runner.go:36-56 | The full suite of the catalog is conformant exactly when every blocking check passes. |
| Conformance.SuiteReports | internal/conformance/runner.go:36-56 | The full suite reports exactly the blocking checks that fail, endpoint checks only while S-001 passes, and has one result for each check in catalog order. |
| Conformance.RunIds | internal/conformance/runner.go:76-91 | Only the wanted checks run, in catalog order, none marked dependent. |
| Conformance.IdResultsInOrder | internal/conformance/runner.go:76-91 | The results of a partial run are those of exactly the wanted checks, once each and in the order of the catalog, whatever the order of the wanted list. |
| Conformance.ObserveStatus | cmd/status.go:49-70 | The evidence of status is the lightweight run, with a failed E-002 added when GET / answers with anything but 200. |
| Conformance.StatusHealthyMeaning | cmd/status.go:49-70 | That evidence is healthy exactly when P-001, P-002, S-003 and E-001 pass and GET / is 200 or could not be asked. |
| Conformance.ConformantSuiteLooksHealthy | internal/conformance/runner.go:101-114 | On the same answers, a conformant full suite makes the status evidence healthy. |
| Conformance.HealthyStatusMayHideFailure | internal/conformance/runner.go:101-114 | The converse fails: with only H-001 failing, status looks healthy and the suite is non-conformant. |
| Detection.ReconciledMeaning | internal/state/detect.go:84-286 | For every input, reconciliation is announced exactly when a trusted record says something other than the detected state. |
| Detection.UnknownMeaning | internal/state/detect.go:84-128 | Detection is undecided exactly when there is no evidence and no trusted record. |
| Detection.SuitePathBroken | internal/state/detect.go:197-286 | For every classified suite, the suite path detects BROKEN exactly when the suite is non-conformant or a trusted record already says BROKEN. |
| Detection.SuitePathState | internal/state/detect.go:197-286 | What that path detects for every classified suite: BROKEN for a non-conformant one, otherwise the trusted record, and CONFORMANT where that says DEGRADED or is missing. |
| Detection.EvidenceOrder | internal/state/detect.go:84-128 | The confidence names the best evidence given, and detection without any repeats the trusted record. |
| Detection.RuntimeDecides | internal/state/detect.go:103-193 | Runtime evidence outranks the suite and the record; what it detects agrees with I-2 about the recorded fault. |
| Detection.StatusNeverWorseThanValidate | internal/state/detect.go:132-162 | Where the suite is conformant, status detects CONFORMANT without a recorded fault and DEGRADED with one. |
| Status.RunStatus | cmd/status.go:45-138 | Status writes its reconciled, restored or fresh record, or none; without the lock only a fresh record for an unreadable one; nothing at all when there is nothing to reconcile. A readable record keeps its history, fault and last runs; a fresh one has none of these and the runtime state. |
| Status.SettledMeansQuiet | cmd/status.go:81-127 | Status has nothing to write exactly when the record is readable, valid, I-2 correct and equal to the runtime state. |
| Status.OneRunSettles | cmd/status.go:104-124 | One status settles every record except a distrusted one that also differs from the runtime state. |
| Status.StatusStabilises | cmd/status.go:81-127 | From any record, corrupt and missing ones included, two status runs settle it and no later one changes it. |
| Status.StatusKeepsAccount | cmd/status.go:104-115 | A status keeps the history's account of the state exactly when the history is empty or nothing is reconciled. |
| Status.StatusRunsKeepRest | cmd/status.go:81-127 | No number of status runs touches history, fault, last validate, last reset or last provision of a readable record, and the status time becomes that of one of the runs or stays. |
| Status.StatusMoment | cmd/status.go:81-127 | Every status that writes records its own time; one that does not write changes nothing. |
| Status.StatusRunsFromNothing | cmd/status.go:81-91 | From an unreadable record, any number of status runs leaves a valid record of the runtime state that tells of no history, fault, validate, reset or provision. |
| Status.RunValidate | cmd/validate.go:35-108 | Validate exits with 0 exactly when all blocking checks pass, records its observation if it can, and logs once. |
| Status.ValidateObserves | cmd/validate.go:85-98 | What validate records is the time, the number of passing checks out of the catalog, and exactly the blocking checks that the suite reports. |
| Status.ValidateKeepsClassification | cmd/validate.go:85-108 | Validate leaves every other field as it was: state, validity, fault, history, last reset, last provision and status time. |
| Environment.OccursAsSlice | internal/catalog/faults.go:770-772 | Matching a pattern character by character from a position is the slice there being the pattern. |
| Environment.ReplaceTouchesOnlyFirst | internal/catalog/faults.go:770-772 | The replacement reaches an occurrence exactly when no earlier one exists; the text from a later point on stays as it was. |
| Environment.ReplacePutsNewText | internal/catalog/faults.go:770-772 | For any texts, the replacement is the text before the first occurrence, the new text, and the text after that occurrence; without one, the text itself. |
| Environment.AddressEditStopsAtComment | internal/catalog/faults.go:113-123 | A config that mentions the address before the line that sets it keeps that line, whatever the fault writes for the address. |
| Environment.SecondEditReachesSetting | internal/catalog/faults.go:113-123 | Made a second time, the edit does replace that setting, where these two mentions are the first ones. |
| Environment.OperationsTouchOnePath | internal/executor/real.go:151-201 | A write, chmod, chown or remove leaves every other path and the loaded layer alone, sets exactly its part of the one file, and the last three fail exactly on a missing file. |
| Executor.AuditOneOp | internal/executor/real.go:151-162 | An entry appended for the mutation under way keeps the log of a process equal to its attempted mutations in order, short of at most the latest one before the entry, and equal after it. |
| Executor.ValidateEntriesAreExtra | internal/executor/audit.go:61-76 | The log has one `executor_op` entry for each attempted mutation, and no others, exactly when no validate ran. |
| Executor.Executor.WriteFile | internal/executor/real.go:151-162 | The file is replaced with its mode and owner or nothing changes; one attempt and then one entry. |
| Executor.Executor.Chmod | internal/executor/real.go:164-175 | Only the mode of an existing file changes, or nothing; one attempt and then one entry. |
| Executor.Executor.Chown | internal/executor/real.go:177-188 | Only the owner and group of an existing file change, or nothing; one attempt and then one entry. |
| Executor.Executor.Remove | internal/executor/real.go:190-201 | An existing file goes, or nothing changes; one attempt and then one entry. |
| Executor.Executor.Systemctl | internal/executor/real.go:219-234 | A successful action has its effect on the loaded layer; every outcome is logged after the attempt. |
| Executor.Executor.NginxReload | internal/executor/real.go:236-251 | A configuration that nginx refuses is never loaded, attempted or logged. |
| Executor.Executor.RestoreFile | internal/executor/real.go:253-259 | A path with canonical content gets it back with mode and owner; any other is refused before anything is attempted. |
| Executor.Executor.RunMutation | internal/executor/real.go:265-280 | A successful command has its effect; every outcome is logged after the attempt. |
| Faults.Apply | internal/catalog/faults.go:60-768 | For each of the nineteen faults, success means its whole effect happened (F-015 may ignore a failed reload, which then leaves the bad file and what the reload left); a failure leaves what some of its calls did, and what an external command that failed made of that; on a reliable host it leaves one known environment. |
| Faults.ApplyIsInForce | internal/catalog/faults.go:60-768 | After a successful Apply the damage its fault is described by is there, fault by fault: the bad mode, the missing file, the edited text, the variable in `chaos.env`, the nftables chain, the fill files; and an edited file has its canonical mode and owner. |
| Faults.FaultsByTier | internal/catalog/faults.go:60-768 | Confirmation is asked for exactly by the faults that only R3 resets, the two that are not reversible; R1 and a precondition belong to F-010 alone. |
| Faults.ChaosTextSetsVariable | service/config/config.go:145-161 | The text each chaos fault writes is an assignment, ended by a newline, to the variable that the service reads for it, with a value that turns it on. |
| Faults.AddressEdits | internal/catalog/faults.go:113-123 | F-002 and F-016 look for the same address; the first keeps the host and changes the port, the second the other way round. |
| Faults.ProxyEdit | internal/catalog/faults.go:300-318 | F-007 makes in the upstream line of nginx the edit that F-002 makes in the config. |
| Faults.FailedApplyLeaves | internal/catalog/faults.go:60-768 | On a reliable host, a failed Apply leaves the environment as it was, but for F-007, whose edited file stays when nginx refuses it. |
| Faults.WriteFillers | internal/catalog/faults.go:656-664 | The loop stops at the first failure with exactly the files written so far. |
| Faults.FillersAreDistinct | internal/catalog/faults.go:656-664 | No two rounds of the loop write the same file. |
| Faults.DecimalReadsBack | internal/catalog/faults.go:656-664 | The decimal numbers in those names read back as the numbers. |
| Faults.Recover | internal/catalog/faults.go:60-768 | For each fault, success means the whole recovery happened; a failure leaves what some of its calls did, and what an external command that failed made of that; on a reliable host it leaves one known environment. |
| Canonical.RecoverReachesService | internal/catalog/faults.go:60-768 | After a successful Recover, the faults that restart leave the service running from what the files then say, or stopped where that does not come up, F-013 only if it was stopped; F-007 and F-015 leave nginx with its canonical text, F-006 and F-013 the manager with the canonical unit; nothing else reaches service, nginx or manager. |
| Canonical.ModeFaultsKeepContent | internal/catalog/faults.go:60-768 | The faults of modes and their Recover go through exactly when their path exists, and change nothing of it but its mode, F-009 also its owner on the way back. |
| Faults.FailedRecoverLeaves | internal/catalog/faults.go:60-768 | On a reliable host, a failed Recover leaves the environment as it was, but for F-007 and F-015, whose nginx file is canonical by then. |
| Faults.RecoverIsIdempotent | internal/catalog/fault.go:84-88 | From every environment on which Recover succeeds, a second Recover succeeds and changes nothing, for all nineteen faults. |
| Faults.RecoverResumes | internal/catalog/faults.go:60-768 | A Recover that stopped in or before any of its calls comes, run again, to exactly what it would have come to undisturbed. |
| Faults.ApplyResumes | internal/catalog/faults.go:60-768 | The same holds of an Apply that edits no file; one of the six that do edits what its first edit left. |
| Faults.FillersTouchOnlyFillers | internal/catalog/faults.go:656-664 | After any part of the loop, everything not named like a filler is as it was, and nothing is gone. |
| Faults.FillersWritten | internal/catalog/faults.go:656-664 | After any part of the loop every file of that part is there, and no other file is new. |
| Faults.PartialFillersRecovered | internal/catalog/faults.go:656-667 | After any part of the loop, Recover removes the fillers and nothing else; it restores what was before exactly when no file was named like a filler. |
| Canonical.ApplySameOutsideScar | internal/catalog/faults.go:60-768 | No fault but F-010 touches an aspect outside its scar, from any environment, except that a start may recreate a missing log; and none touches other files of the state directory. |
| Canonical.ApplySameElsewhere | internal/catalog/faults.go:60-768 | No fault, F-010 included, touches a file of the state directory other than fillers and the fill file. |
| Canonical.ApplyScars | internal/catalog/faults.go:60-768 | No fault damages an aspect outside its scar. |
| Canonical.ApplySucceeds | internal/catalog/faults.go:60-768 | On a canonical environment of a working host every fault can be applied. |
| Canonical.ApplyBreaksCanonical | internal/catalog/faults.go:60-768 | A fault leaves a canonical environment canonical exactly when its text replacement finds nothing to change. |
| Canonical.ApplyReachesService | internal/catalog/faults.go:60-768 | A fault that restarts the service leaves it running from what the files then say, or stopped where that does not come up; all others leave it. nginx loads what F-007 wrote, and what F-015 wrote exactly where it accepts that; F-006 and F-013 alone load their unit. |
| Reset.RestoreFiles | cmd/reset.go:207-211 | The loop restores all listed files or stops at the first failure, with exactly the ones before it restored. |
| Reset.ChmodEntries | cmd/reset.go:213-217 | The loop sets all listed modes or stops at the first failure, with exactly the ones before it set. |
| Reset.RunTier | cmd/reset.go:191-243 | Success means the whole tier happened in its order; an unknown tier fails and changes nothing; any other failure leaves what some of its calls did, on a reliable host one known environment. |
| Reset.ExecuteTier | cmd/reset.go:180-244 | Success means that Recover of a known reversible fault and then the tier happened; a failure leaves what their calls did up to one of them, on a reliable host one known environment. |
| Reset.R2Meaning | cmd/reset.go:205-231 | R2 goes through exactly when binary, state and log directory exist and nginx accepts its canonical text; then it is one rewrite of six paths, a reload of the unit, a restart and a reload of nginx. |
| Reset.R2IsIdempotent | cmd/reset.go:205-231 | R2 again, from any environment on which it went through, changes nothing. |
| Reset.TierResumes | cmd/reset.go:191-243 | A tier that stopped in or before any of its calls comes, run again, to exactly what it would have come to undisturbed. |
| Reset.R2KeepsContents | cmd/reset.go:213-217 | R2 changes nothing of binary, state directory and log directory but their modes. |
| Reset.FailedR1Leaves | cmd/reset.go:191-203 | On a reliable host R1 fails exactly where nginx has no file or refuses it, and the service has been restarted by then. |
| Reset.RefusedR2Leaves | cmd/reset.go:205-231 | Where only nginx refuses, R2 has restored, reloaded and restarted everything else. |
| Reset.StoppedR2Leaves | cmd/reset.go:205-217 | Where one of the three paths is missing, R2 stops with its files restored and the loaded layer untouched. |
| Reset.RecordReset | cmd/reset.go:88-128 | The record takes the verdict of the suite, loses its fault and gains one history entry, in one write. |
| Reset.ResetRecordMeaning | cmd/reset.go:88-128 | The new record says CONFORMANT exactly when all blocking checks pass and BROKEN otherwise; it is valid without a fault, tells tier, former state and former fault in last reset and in its newest entry, holds the observation, keeps the status time and the last provision, and the older entries that fit. |
| Reset.UnreadableIsBroken | cmd/reset.go:44-54 | A reset of an unreadable record is R2 from BROKEN, with that single entry. |
| Reset.ResetWithTier | cmd/reset.go:74-162 | A failed tier leaves the record alone; otherwise the suite after the tier decides record and exit. |
| Reset.RunReset | cmd/reset.go:36-163 | Lock held, nothing to reset, failed tier and completed reset are told apart, each with its effect on the record and on the environment; nothing to reset exactly for a readable CONFORMANT record without fault whose blocking checks all pass; exit 0 exactly when the lock was free, no step failed and all blocking checks pass at the end; a failed tier leaves what some of its calls did, on a reliable host one known environment. |
| Lifecycle.ConformantRecordIsChecked | cmd/reset.go:56-72 | As a run: from a CONFORMANT record without fault an automatic reset changes nothing while all blocking checks pass; with one that fails it runs R2, which cleans exactly its six aspects, and records the verdict found afterwards. |
| Reset.ResetKeepsAccount | cmd/reset.go:121-127 | A reset of any record or of none keeps the history's account and leaves I-2 correct. |
| Coverage.RecoverSame | internal/catalog/faults.go:60-768 | Recover touches no aspect outside its fault's scar, from any environment, except that a start may recreate a missing log; and no other file of the state directory. |
| Coverage.R2Coverage | internal/config/config.go:155-171 | R2 leaves its six aspects undamaged, and every other aspect and every other file of the state directory as it was. |
| Coverage.AutoResetCoverage | cmd/reset.go:168-244 | An automatic reset repairs exactly what its tier and the fault's Recover cover, leaves every other aspect and all other files of the state directory as they were, and leaves the loaded layer taken from the final file layer. |
| Coverage.ForcedFaultsThenReset | cmd/reset.go:168-244 | After any series of forced faults, an automatic reset that goes through makes the environment canonical exactly when no aspect outside its coverage is damaged; so it does when every scar of the series is covered, or by R3. |
| Coverage.ForcedResetGoesThrough | cmd/reset.go:168-244 | After any series of forced faults the automatic reset goes through for every last fault but F-010, and for F-010 exactly when nginx accepts its configuration as it is. |
| Coverage.SpoiledNginxBlocksReset | internal/catalog/faults.go:534-545 | After a forced F-015 and a forced F-010 the automatic reset goes through exactly when nginx accepts the bad directive. |
| Coverage.UnrecordedApplyThenReset | cmd/fault.go:250-261 | After an apply whose record was lost, an automatic reset goes through and restores exactly the faults whose scar R2 covers. |
| Coverage.StoppedApplyStaysInScar | internal/catalog/faults.go:60-768 | An Apply stopped in or before any of its calls has touched nothing outside the scar of its fault, neither service nor nginx, and the loaded unit only for F-006. |
| Coverage.StoppedApplyThenReset | cmd/fault.go:205-216 | After such an Apply on a canonical environment an automatic reset that runs a tier goes through, and restores exactly when R2 covers the scar or the scar carries no damage yet. |
| Coverage.StoppedResetThenReset | cmd/reset.go:168-244 | After a reset by R2 that stopped in Recover or in the tier, the next automatic reset goes through and makes the environment canonical exactly when the first one would have. |
| Coverage.R2ResetRestores | cmd/reset.go:180-231 | From any environment, a reset by R2 that goes through makes it canonical exactly when no aspect outside its coverage carries damage. |
| Coverage.RecoverNeeds | internal/catalog/faults.go:60-768 | Recover goes through exactly when the path whose mode it sets exists and, for F-007 and F-015, nginx accepts its canonical text. |
| Coverage.ClosedLogKeepsServiceDown | internal/catalog/faults.go:362-397 | F-009 leaves the running service, and every later start down, those of R1 and R2 included; after its own Recover the service comes up exactly when it boots. |
| Apply.CheckPreconditions | cmd/fault.go:125-191 | An unforced apply passes exactly when the state is CONFORMANT, no fault is on record and the fault's checks pass; the refusal names the first that fails. |
| Apply.GuardByFault | cmd/fault.go:125-203 | The guard for each fault in terms of the record: forced, or CONFORMANT without a fault (and P-001 passing for F-010); confirmed, or restored by less than R3. |
| Apply.GuardAgainstCanApplyFault | internal/state/state.go:89-97 | The guard of apply is `CanApplyFault` with apply's own conditions, except that it also lets a forced apply from RECOVERING through. |
| Apply.ApplyAndRecord | cmd/fault.go:205-276 | A failed Apply leaves the record alone; a failed write leaves state, fault and history alone and clears validity if the second write succeeds; otherwise the fault is recorded. |
| Apply.RunApply | cmd/fault.go:92-277 | The mutation runs exactly when the whole guard holds; each exit code belongs to one set of inputs; a forced apply without confirmation is aborted exactly for the faults that are not reversible; exits 1, 2, 3 and the abort leave the record as it was, and a failed Apply what some of its calls did. |
| Apply.AppliedRecordMeaning | cmd/fault.go:233-250 | A recorded apply is DEGRADED, valid and I-2 correct with that fault, keeps the last validate, reset, provision and status, the older entries that fit and the account, and adds exactly one entry, from the former state, with fault and force. |
| Provision.RunProvision | cmd/reset_provision_history.go:30-89 | Only a finished bootstrap writes the record, which then follows the suite; exit 0 exactly when the lock was free, the bootstrap finished and all blocking checks pass after it. |
| Provision.RecordProvision | cmd/reset_provision_history.go:45-71 | The record starts over with the verdict and one entry from UNPROVISIONED. |
| Provision.ProvisionedRecordMeaning | cmd/reset_provision_history.go:45-71 | That record says CONFORMANT exactly when all blocking checks pass and BROKEN otherwise; it is valid, I-2 correct, accounted for by its one entry, and tells no reset. |
| Lifecycle.Dispatch | app.go:94-127 | With the lock free and calls going through, each command's method performs a step of the run model if writes succeed, and a locking command its step or that of a lost write if they do not; its exit code says what the blocking checks of the final environment say; at every point the log has the attempted mutations in order, short of at most the latest one. |
| Lifecycle.PartsMakeStep | cmd/fault.go:205-261 | Mutating and recording make up the step of the command; mutating with a failed write makes up its other ending, for apply with or without the invalidation. |
| Lifecycle.StepStaysTruthful | cmd/reset.go:36-163 | Every unforced apply, automatic reset, provision, status and validate keeps the record truthful about the environment. |
| Lifecycle.PlainRunsStayTruthful | cmd/fault.go:92-277 | Every run of such commands stays CONFORMANT with a canonical environment or DEGRADED with exactly the recorded fault applied to one; BROKEN is never recorded. |
| Lifecycle.ResetGoesThrough | cmd/reset.go:180-244 | On a singly damaged environment a reset by any of the three tiers goes through. |
| Lifecycle.SingleResetRestores | cmd/reset.go:168-244 | From a single fault the automatic reset restores a canonical environment. |
| Lifecycle.ExplicitTierRestores | cmd/reset.go:180-244 | Whatever tier is asked for, a reset of a single fault restores it exactly when the fault is reversible or the tier is R3. |
| Lifecycle.ForcedFaultsThenExplicitReset | cmd/reset.go:180-244 | After any series of forced faults, a reset by any tier restores exactly when the tier is R3, or the last fault is reversible and every aspect the tier does not cover is undamaged or repaired by its Recover. |
| Lifecycle.LowTierRecordsFalsely | cmd/reset.go:88-128 | An explicit R1 or R2 on F-008 or F-014 takes the fault off the record of a damaged environment, and records CONFORMANT exactly where the suite passes. |
| Lifecycle.LowTierCanRecordConformant | cmd/reset.go:88-128 | For any embedded texts there is a working host on which R1 after F-008 does record CONFORMANT about a damaged environment. |
| Lifecycle.UnknownTierStillRecovers | cmd/reset.go:180-241 | From a truthful DEGRADED record a reset with an unknown tier fails, keeps the record and changes the environment exactly when the fault is reversible and its Apply had something to change. |
| Lifecycle.ForcedRunThenReset | cmd/reset.go:168-244 | As a run: after any series of forced applies that go through and an automatic reset, successful or not, the record is truthful again exactly when no aspect outside the coverage of the last fault's reset was damaged, or that reset is R3. |
| Lifecycle.BlockedForever | internal/state/state.go:99-103 | With F-010 on record and a configuration that nginx refuses, no number of automatic resets changes the record. |
| Interleaving.ChangeKeepsMatch | internal/state/state.go:77-87 | No command, and no interrupt, breaks I-2 in the copy it works on. |
| Interleaving.FaultMatchesStateAlways | app.go:74-86 | Over all unlocked interleavings, crashes and failing writes of all commands and the interrupt handler, the disk and every copy in flight satisfy I-2. |
| Interleaving.HistoryStaysChained | cmd/reset.go:121-128 | In sequential runs of any length from a fresh record, the history is chained and ends in the recorded state as long as no status reconciles. |
| Interleaving.HistoryTellsStory | internal/state/store.go:205-210 | After any sequential run, with any writes failing, the history is the last fifty entries of the whole story: each apply, reset and provision that was written, in order, with the state it started from, since the record was started over; status, validate and the interrupt handler add and lose nothing. |
| Interleaving.UndisturbedWritesSerialise | internal/state/store.go:104-186 | With any interleaving, crashes and failing writes: if no write falls between a command's read and its own write, the file is that of running the writers one after the other in write order. |
| Interleaving.ReconciliationBreaksAccount | cmd/status.go:104-115 | A reconciliation under a history that is not empty always breaks that account. |
| Interleaving.LaterWriteWins | cmd/validate.go:85-108 | Otherwise an update can be lost: of two commands that read the same record, only the later write remains. |
| Interleaving.ValidateCanLoseApply | cmd/validate.go:85-108 | A validate that read before an apply takes the applied fault off the record. |
| Interleaving.TransitionalStatesNotWritten | internal/state/state.go:38-40 | No command writes a state other than CONFORMANT, DEGRADED and BROKEN, unless the record already had it. |
| Serial.AtMostOneInside | cmd/reset.go:39-42 | Though only taking and releasing look at the lock, at most one process is inside a command at any time, and it holds the lock. |
| Serial.EquivalentToLockOrder | cmd/reset.go:39-49 | Any interleaving of apply, reset and provision processes under a correct lock, with failing writes and crashes, leaves record and environment as running the commands one at a time in the order they took the lock, each with the ending it had; one killed while it mutated leaves what some of its calls did, one killed elsewhere a known environment. |
| Serial.AnyCommandCanRun | cmd/fault.go:105-250 | From any state at rest every locking command has a run of its process that performs it whole and puts the lock back. |
| Serial.ConcurrentPlainRunsStayTruthful | cmd/reset_provision_history.go:33-64 | So concurrent unforced applies, automatic resets and provisions, without failing writes and crashes, leave a truthful record whenever the lock is free. |
| Lock.AcquireAnswers | internal/executor/lock.go:43-88 | Undisturbed, Acquire answers exactly when no stale file that cannot be removed is in its way, and then after one retry at most. |
| Lock.AcquiredMeans | internal/executor/lock.go:43-88 | A process told that it has the lock left its PID in the file, and found no file or a stale one. |
| Lock.AcquireOutcomes | internal/executor/lock.go:43-88 | For any file and place, each answer exactly: acquired with directory, creatable file and none or a removable stale one; held by whom the file names; refused; stuck; and what is in the file afterwards, untouched when the lock is held. |
| Lock.HeldMeans | internal/executor/lock.go:86-87 | A live holder is named and its file stays, at the first try already. |
| Lock.Handle.Acquire | internal/executor/lock.go:43-88 | The handle takes the PID exactly when the lock was acquired and answers and leaves the file as the passes do; `AcquireOutcomes` and `HeldMeans` say for which inputs. |
| Lock.Handle.Release | internal/executor/lock.go:91-101 | Only a handle that holds the lock removes the file, and only once. |
| Lock.ExclusiveWithoutReclaim | internal/executor/lock.go:43-101 | One file operation at a time, with crashes, at most one process holds the lock in every run in which no acquirer removes a file. |
| Lock.ReclaimDecision | internal/executor/lock.go:59-88 | One file operation at a time: an acquirer that reads the file comes to remove it exactly when it is gone, has no PID, or names one that is not alive when that is checked; a live one denies it the lock. |
| Lock.CalmRunsRemoveNothing | internal/executor/lock.go:59-88 | In every run without a crash in which every read finds a PID, no removal is ever open to an acquirer, so the lock excludes. |
| Lock.DeadHolderIsReplaced | internal/executor/lock.go:59-84 | The lock file of a dead holder can always be taken over: six operations of one process leave it the holder. |
| Lock.ExclusiveExactlyWithoutHits | internal/executor/lock.go:43-101 | One file operation at a time, with crashes and reclaims: in every run, the lock excludes at every point, and whoever creates the file next, exactly when no removal takes away the file of a live holder. |
| Lock.HitMakesTwoHolders | internal/executor/lock.go:63-84 | From any state, a removal that does so lets the remover become a second live holder by creating the file. |
| Lock.ReclaimBreaksExclusion | internal/executor/lock.go:50-77 | Such a removal comes about between the creation of the file and the writing of the PID, for any two live processes. |
| Lock.ExclusiveWithAtomicReclaim | internal/executor/lock.go:63-84 | With the PID written at creation and check and removal in one step, at most one live process holds it in every run. |
| AtomicFile.Directory.AtomicWrite | internal/executor/real.go:284-328 | Whichever operation fails, the payload is installed whole or the directory is as it was, with at most a temp file left that could not be removed; it is installed when none fails. |
| AtomicFile.StepRefinesRegister | internal/state/store.go:148-185 | Each file operation of any writer leaves an atomic register alone or installs one writer's complete payload. |
| AtomicFile.RenameIsAtomic | service/signals/signals.go:213-241 | With any writers, chunks, failures and crashes, the target is the initial content or one complete payload; success means this one was installed, an error that it never was; temp files left belong to writers that have not returned or could not be removed. |
| AtomicFile.LoneWriterInstalls | internal/executor/real.go:284-328 | Written in any two parts, a lone writer's payload becomes the whole target. |
| SpecIndex.GenerateSpecIndex | internal/invariants/spec_index.go:428-460 | The branches of the generator compute the splice for every document, or fail without a heading. |
| SpecIndex.TrimsOnlyNewlines | internal/invariants/spec_index.go:436-437 | What is trimmed off the kept text is nothing but newlines. |
| SpecIndex.WhatIsKept | internal/invariants/spec_index.go:428-460 | For every document, where it is cut: before the first begin guard and after the first end guard when they stand in order, otherwise before the first heading, one under a rule preferred, with nothing after; up to newlines in either case, and an error exactly without any of them. |
| SpecIndex.RegeneratedReads | internal/invariants/spec_index.go:436-460 | The new document reads, character by character: what was kept before, an empty line, the section, an empty line and what was kept after, or one newline where nothing was. |
| SpecIndex.SplitOfJoined | internal/invariants/spec_index.go:428-460 | A regenerated document splits back into exactly the text kept before and after, when no guard was kept before. |
| SpecIndex.RegenerationKeepsAndSettles | internal/invariants/spec_index.go:428-460 | With the guards in order, or the heading and neither guard, the text before and after is kept up to newlines and a second regeneration changes nothing. |
| SpecIndex.IdempotentExactlyWithoutStrayGuard | internal/invariants/spec_index.go:428-460 | Regenerating twice is regenerating once exactly when no guard is left over before the section. |
| SpecIndex.StrayGuardMovesCut | internal/invariants/spec_index.go:438-452 | Every left-over guard makes the second regeneration differ. |
| SpecIndex.LayoutIsGood | internal/invariants/spec_index.go:428-442 | The guards and headings of the generator are as the theorems ask. |
| Signals.StepKeepsInv | service/main.go:91-115 | Every step of startup, serving, shutdown, a handler or a crash keeps the invariant, but for a failed ShuttingDown write. |
| Signals.UpMeansHealthyAlways | service/signals/signals.go:122-191 | From any leftover signal directory, through any starts, crashes and failing handlers, after Init a status of Running or Degraded means the healthy marker is there. |
| Signals.StartComesUp | service/main.go:91-215 | A start whose writes go through ends in serving with status Running, or Degraded under chaos, the healthy marker and the PID file, and without the loading marker, from any leftovers. |
| Signals.StartServesExactly | service/main.go:91-215 | With any of its eleven operations failing, a start is over after them; it serves exactly when none of the five failed that end in an exit, then with healthy marker and PID; otherwise the healthy marker is there only where Init could not remove it; it says Unhealthy about an unusable state directory exactly where no later status was written. |
| Signals.StartGetsReady | service/main.go:91-180 | Just before it marks itself healthy it has the loading marker and the PID file, and says Starting, or Unhealthy when the state directory is unusable. |
| Signals.ShutdownSaysSo | service/main.go:256-282 | A stop says ShuttingDown before it takes the healthy marker away. |
| Signals.ShutdownGoesDown | service/main.go:256-282 | It ends without the healthy marker and the PID file, with the status ShuttingDown. |
| Signals.UnhealthyUntilShutdown | service/server/server.go:168-182 | After a failing request handler the status is Unhealthy for as long as the process lives, but for a shutdown begun later; a handler that fails after ShuttingDown was written hides it for good. |
| Signals.ShutdownNeedsItsStatus | service/signals/signals.go:188-191 | The shutdown keeps that meaning exactly when its status write succeeds, the marker stays, or the status did not say up. |
| Signals.MarkersCoexist | service/main.go:172-180 | The healthy and loading markers coexist in every start that reaches RemoveLoading, just before it; where Init's removals go through they do so at no other point, except after a failed RemoveLoading for as long as the healthy marker stays. |
| Signals.LeftoversCoexist | service/signals/signals.go:122-136 | Where Init's removals fail, leftover markers coexist when it returns. |

## Left out

- Bootstrap: the script is not part of this model. A working host's bootstrap establishes a canonical environment; the
  shipped script keeps an existing config, nftables rules and files of the state directory.
- Real effects of systemctl, nginx, nft, dd and sudo beyond the two layers, start limits, disk and inode limits, and
  parent directories created on the way. A failed external command may leave any environment, and a failed `reset-failed`
  changes nothing.
- Declared fault postconditions and the warnings after an apply: several do not follow from the checks.
- The observers behind the single checks: a check is its ID, category, severity and an outcome; the panicking check
  is a failed outcome.
- Records as bytes: JSON and YAML, renderers, the documents' site, CLI flags, help texts. Commands, faults and tiers are
  datatypes, with a constructor for unknown names.
- Aliasing of the in-memory record: each command holds the only copy, so the record is a value here and the store a class.
- The content of audit entries, failing appends, and all entries but `executor_op` ones, which are one kind of event; the
  reconciliation entry of status is not modelled.
- Lock.Handle.Acquire: bounds the number of its calls of itself, since the source's may be endless; `Lock.AcquireAnswers`
  says when it ends. Reused PIDs are not modelled.
- AtomicFile.Directory.AtomicWrite: sync, close, mode and owner changes are one operation that may fail. File modes are
  part of `Executor` instead.
- Serial.EquivalentToLockOrder: assumes a correct lock, one that a dead holder loses; `Lock` says when the lock of the
  code is one. The unlocked commands and the interrupt handler are left to `Interleaving`.
- Signals.UpMeansHealthyAlways: assumes that the ShuttingDown write succeeds, without which it is false
  (`Signals.ShutdownNeedsItsStatus`). Server, main and handlers are one machine of single file operations.
- Validation of a single check, the fault list and info commands, the thirty-second grace of the interrupt handler.
- Telemetry, request dropping, latency, memory exhaustion, the log format and configuration parsing of the service.
- The markdown that the index generator builds: the splice takes any body with its two guards in place.
