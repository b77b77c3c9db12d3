# WORKS: verified models of the control plane's laws

WORKS is a durable-execution control plane. Most of what it promises lives in small, I/O-free
"law" packages and in a few protocols between callers, stores and retries. This project models
those in Dafny 4.11 and proves what they promise over every input, every run and every interleaving.
`dafny verify dfyconfig.toml` checks the whole project.

Each model takes the form of the code. Objects whose methods change fields are classes
(`Graph`, `Acceptor`, `Runner`, `EffectLog`, `BudgetLedger`, `Walker`, `Server`), loops are loops with
invariants, and every such method is proved against a specification function or predicate; the
laws are then proved about the specification, and beside them what each operation means in direct
terms: exactly when it succeeds, which error it gives otherwise, what it leaves. Where a call loads a record, decides and saves it
back, the steps are separated and every interleaving is a run.

| files | what they model |
|---|---|
| `Impact`, `VerifiedState`, `VerifiedRuns`, `Checkpoint` | the verification-state graph, its lifecycle calls, the reconciliation worklist, resume checkpoints |
| `MarkerScan` | the admission gate of the Brain and its depth-first search over cyclic values |
| `Dispatch`, `DispatchRuns`, `DispatchLaws`, `DispatchFreeze`, `DispatchEffects`, `DispatchBudget`, `DispatchMeaning` | the acceptance seal as a state machine with any number of concurrent callers |
| `GoldenMission`, `GoldenRuns`, `GoldenMeaning` | mission chains, journals, crash and recovery across two runner lives |
| `Scheduler` | filtering, scoring and selection with an epsilon comparator |
| `WorkGraph`, `Ledger` | ready nodes over whole runs; the budget ledger and its settlement |
| `Namespace`, `Lineage` | mounts over paths; append-only revision lineages |
| `Settlement` | matching rail receipts with obligations |
| `Framing` | the length-prefixed material of an event digest |
| `Submission` | two retrying clients against the idempotent create handler |
| `Text` | strings, sorting, splitting and permutations used by the rest |

## Where a promise fails, and exactly when it holds

The code is modelled as it is. Eight promises turn out to be conditional; each has a concrete
failing case and an if-and-only-if.

- `Revoke`, `ApplyEffect`, `Complete` and `RecordVerdict` load a record, change it and save it over
  whatever the row holds by then (`services/work/store/dispatch_store.go:245-275`). A completion that
  loaded before a revocation clears it (`RevocationCanBeLost`), one that loaded before a spend erases
  the spend (`SpendCanBeLost`), and two racing applications both succeed (`EffectCanApplyTwice`).
  So successful spends can sum to any multiple of the ceiling (`CeilingCanBePassed`), which the
  comment at `internal/dispatch/acceptance.go:443-448` excludes; only the record's counter is bounded.
  Exactly when they hold: `FrozenIff` for revocation, `BudgetConservedIff` for the counter's agreement
  with the spends, `WithinCeilingIff` for the ceiling on their sum,
  `AtMostOnceIff` for at-most-once effects (an open record is never safe), and `EffectOnceIff` for
  at-most-once together with agreement of the record's flag. `SerialRunsAreExact` says that runs
  without overlapping calls conserve the budget and apply at most once.
- `runnerLess` is documented as a strict total order that makes the selection independent of the
  input order (`internal/scheduler/scheduler.go:641-657`). It is not transitive, and
  `SelectionDependsOnOrder` reverses a pool of three and gets another winner. `OrderIndependentIff`
  gives the exact condition, and `WinnerNearMaximum` the bound that always holds.
- `costScore` is documented to give 0 above the ceiling and to prefer cheap runners
  (`internal/scheduler/scheduler.go:417-420`). It gives 0.5 at and above it, so a cheaper runner can
  score lower (`CheaperCanScoreLower`), and a runner far over the budget is recommended although one
  within it is eligible (`DearerIsSelected`); `CheaperScoresHigherIff` says when.
- `Work.Validate` accepts cyclic graphs, which can never finish: `CompletableIffAcyclic`,
  `ValidCyclicWork`.
- `EffectLog` counts every completion of one journal (`RepeatedCompletionDoubles`), and a resumed
  runner is documented to complete crash-recovery missions only
  (`packages/goldenmission/goldenmission.go:335-338`) but also applies success and revocation missions,
  whatever its journal holds (`ResumedSuccessDoubles`): `ExactlyOnceIff`.
- The marker scan is documented as deterministic (`packages/brain/governance.go:148-152`). It is
  (`HitIsDetermined`) unless the content holds a map whose keys are not strings
  (`HitDependsOnIteration`); whether there is a hit never depends on order (`VerdictOrderIrrelevant`).
- INVALIDATED is not sticky across a second reconciliation: `InvalidatedSurvivesIff`,
  `InvalidatedIsNotSticky`.
- The ledger's consumption is min(ceiling, metered) except for a negative ceiling before any
  metering: `ConsumedIsMin`, `NegativeCeilingBreaksMin`. The ledger itself checks no ceiling;
  mission validation refuses a negative one (`packages/workgraph/workgraph.go:586-588`) and so does
  settlement, so only a ledger built outside a validated mission is in that case.

Two comments in the scheduler disagree with its code, and the model follows the code: an empty
lifecycle is accepted although the comment says it is rejected
(`internal/scheduler/scheduler.go:179-189`), and the degraded fallback for draining runners
(`internal/scheduler/scheduler.go:616-628`) can never be taken, because no draining runner passes
the filter; `Select` proves the latter.

## Model

| member | source | states |
|---|---|---|
| `Impact.Pop` | packages/verifiedstate/verifiedstate.go:342-359 | one iteration keeps the worklist invariant, records its pop and makes progress |
| `Impact.Propagate` | packages/verifiedstate/verifiedstate.go:330-359 | on any graph, cyclic or not, the worklist ends; a node is marked iff some path from a root reaches it, at level 2 iff such a path crosses a hard edge; the trace of pops is exactly what was appended, visits every marked node and no other, and none more often than its final level, so at most twice |
| `Impact.SeverityJoin` | packages/verifiedstate/verifiedstate.go:330-359 | the impact of two drift sets together is the pointwise maximum of their impacts |
| `Impact.SeverityMonotone` | packages/verifiedstate/verifiedstate.go:330-359 | adding edges never lowers a severity |
| `Impact.ReachedClosed` | packages/verifiedstate/verifiedstate.go:342-359 | what impacted nodes reach was already impacted |
| `Impact.SoftNeverInvalidates` | packages/verifiedstate/verifiedstate.go:347-352 | without hard edges nothing is invalidated, on any cycle |
| `Impact.EdgeKindDecides` | packages/verifiedstate/verifiedstate.go:415-422 | a drift across an EFFECT, AUTHORITY or VERIFICATION edge invalidates, across any other kind it makes stale |
| `VerifiedState.FileNodes` | packages/verifiedstate/verifiedstate.go:131-152 | accepts a node list iff every node passes after its predecessors, reports the first refusal, files exactly the list |
| `VerifiedState.FileEdges` | packages/verifiedstate/verifiedstate.go:153-164 | the same for edges: typed, no self-loop, declared ends; the adjacency holds exactly the listed edges under their sources |
| `VerifiedState.NewGraph` | packages/verifiedstate/verifiedstate.go:126-175 | builds a valid graph of exactly these nodes and edges iff both lists are acceptable; a refusal carries the error of the first bad node, else of the first bad edge |
| `VerifiedState.Graph.BeginCandidate` | packages/verifiedstate/verifiedstate.go:194-209 | the whole new state and the error; VERIFIED cannot be overwritten; validity kept |
| `VerifiedState.Graph.VerifySubject` | packages/verifiedstate/verifiedstate.go:213-230 | only a candidate with fingerprint and proof becomes VERIFIED; nothing else changes |
| `VerifiedState.Graph.RejectSubject` | packages/verifiedstate/verifiedstate.go:233-243 | only a candidate becomes REJECTED |
| `VerifiedRuns.BeginMeans` | packages/verifiedstate/verifiedstate.go:194-209 | a fresh attempt opens exactly from every state but VERIFIED, drops the old proof and keeps the fingerprint |
| `VerifiedRuns.VerifyMeans` | packages/verifiedstate/verifiedstate.go:213-230 | exactly a candidate with a fingerprint and a complete proof becomes VERIFIED, with just these; each error exactly when |
| `VerifiedRuns.RejectMeans` | packages/verifiedstate/verifiedstate.go:233-243 | exactly a candidate becomes REJECTED |
| `VerifiedRuns.Reverifiable` | packages/verifiedstate/verifiedstate.go:194-230 | from every graph a subject that is not VERIFIED can be made so by a Begin and a Verify, and only it changes |
| `VerifiedState.Graph.CanCanonicalize` | packages/verifiedstate/verifiedstate.go:248-262 | succeeds iff the list is non-empty and every subject is VERIFIED with fingerprint and proof; otherwise the error is that of the first unfit subject |
| `VerifiedState.Graph.Snapshot` | packages/verifiedstate/verifiedstate.go:268-288 | returns exactly the fingerprints of the wanted subjects, and fails iff one is unknown or has none, with the error of the first such subject |
| `VerifiedState.Graph.ValidateSnapshot` | packages/verifiedstate/verifiedstate.go:377-387 | accepts iff every entry is non-empty and names a node; an error is one some entry earns |
| `VerifiedState.Graph.ReconcileSnapshots` | packages/verifiedstate/verifiedstate.go:300-375 | refused exactly on a nil or malformed snapshot, the checkpoint judged first, changing nothing; otherwise INVALIDATED iff reached through a hard edge, STALE iff reached only softly, everything else untouched; the report is the sorted lists of these |
| `VerifiedState.DemoteReached` | packages/verifiedstate/verifiedstate.go:330-374 | worklist and marking together demote by path severity and list the impact in order |
| `VerifiedState.MarkNodes` | packages/verifiedstate/verifiedstate.go:361-373 | writes each severity into its node, and only there |
| `VerifiedState.DemoteWellFormed` | packages/verifiedstate/verifiedstate.go:298-375 | reconciliation keeps the graph's invariant |
| `VerifiedState.ReachedAreNodes` | packages/verifiedstate/verifiedstate.go:366-373 | every impacted id is a node of the graph, so the marking never misses |
| `VerifiedRuns.RunKeeps` | packages/verifiedstate/verifiedstate.go:194-262 | after any calls, VERIFIED implies fingerprint and valid proof, and the node set is unchanged |
| `VerifiedRuns.FingerprintOnlyByVerify` | packages/verifiedstate/verifiedstate.go:213-230 | a fingerprint that changed in a run was written by a successful Verify in that run |
| `VerifiedRuns.VerifiedNeedsCandidate` | packages/verifiedstate/verifiedstate.go:213-230 | becoming VERIFIED needs a Verify from CANDIDATE, and the stored proof is that call's |
| `VerifiedRuns.CandidateNeedsBegin` | packages/verifiedstate/verifiedstate.go:194-209 | becoming CANDIDATE needs a Begin from a closed state |
| `VerifiedRuns.ReverificationPassesThroughCandidate` | packages/verifiedstate/verifiedstate.go:194-230 | a demoted subject is VERIFIED again only after a Begin and, later, a Verify with its own proof |
| `VerifiedRuns.CanonicalIffUnreached` | packages/verifiedstate/verifiedstate.go:248-375 | after reconciling an all-VERIFIED graph, canonical iff no drifted subject reaches it |
| `VerifiedRuns.InvalidatedSurvivesIff` | packages/verifiedstate/verifiedstate.go:366-371 | INVALIDATED survives iff the drift misses the subject or reaches it through a hard edge |
| `VerifiedRuns.InvalidatedIsNotSticky` | packages/verifiedstate/verifiedstate.go:366-371 | a concrete graph in which INVALIDATED becomes STALE |
| `VerifiedRuns.AcceptedMeaning` | packages/verifiedstate/verifiedstate.go:131-152 | a node list is accepted iff each node is in itself acceptable and ids are distinct |
| `VerifiedRuns.OrderIrrelevant` | packages/verifiedstate/verifiedstate.go:126-175 | permuting nodes and edges changes neither acceptance nor the graph built |
| `CheckpointLaw.Validate` | packages/verifiedstate/checkpoint.go:57-92 | a checkpoint is valid iff it has the schema, builds a graph of canonical nodes and monitors their verified fingerprints |
| `CheckpointLaw.Matches` | packages/verifiedstate/checkpoint.go:85-90 | the closing loop compares every monitored fingerprint |
| `CheckpointLaw.Resume` | packages/verifiedstate/checkpoint.go:96-109 | resumes iff the checkpoint is trusted and the observation well-formed, with the exact impact report |
| `CheckpointLaw.UnchangedWorldIsQuiet` | packages/verifiedstate/checkpoint.go:96-109 | an unchanged world yields the empty report |
| `CheckpointLaw.ReportIsDeterministic` | packages/verifiedstate/verifiedstate.go:311-373 | a report is determined by its inputs: no map order survives in it |
| `MarkerScan.Scan.SearchSound` | packages/brain/governance.go:187-292 | a reported hit is a marker at the end of a real chain, and its path spells that chain |
| `MarkerScan.Scan.SearchComplete` | packages/brain/governance.go:187-292 | a marker at the end of any chain outside the current ancestors is found, by cutting loops to a simple path |
| `MarkerScan.Scan.ScanIffClaimed` | packages/brain/governance.go:169-292 | on every finite, possibly cyclic value the search ends and hits iff a key or field name that lower-cases to a marker can be reached, where reaching is said by cases on values and contents and not by the search's own items |
| `MarkerScan.Scan.ChainLeads` | packages/brain/governance.go:187-292 | what the search follows is a way inward through the value, spelling the same path |
| `MarkerScan.Scan.LeadsChain` | packages/brain/governance.go:187-292 | every way inward to a name is one the search can follow |
| `MarkerScan.Scan.ClaimedIff` | packages/brain/governance.go:187-292 | a value claims iff it carries a marker itself or something directly inside it claims |
| `MarkerScan.Scan.ClaimedInterface` | packages/brain/governance.go:192-205 | an interface claims iff what it holds claims |
| `MarkerScan.Scan.ClaimedArray` | packages/brain/governance.go:245-251 | an array claims iff an element claims |
| `MarkerScan.Scan.ClaimedStruct` | packages/brain/governance.go:252-270 | a struct claims iff a field name is a marker, exported or not, or an exported field's value claims |
| `MarkerScan.Scan.ClaimedRef` | packages/brain/governance.go:192-292 | a reference claims iff its pointee, a string key or value, another map's value or a slice element does; nil claims nothing |
| `MarkerScan.VerdictOrderIrrelevant` | packages/brain/governance.go:169-292 | whether anything is found does not depend on the order in which containers list their items |
| `MarkerScan.Scan.LeastKeyWins` | packages/brain/governance.go:226-242 | of the sibling keys under which anything is found, the reported one is the least in sorted order, however the map is iterated |
| `MarkerScan.Scan.FirstItemWins` | packages/brain/governance.go:187-292 | every loop reports what it finds at the first item where there is anything |
| `MarkerScan.KeyOrderUnique` | packages/brain/governance.go:294-306 | lower-cased order with raw ties orders a set of keys in exactly one way |
| `MarkerScan.SortKeys` | packages/brain/governance.go:294-306 | sorting a map's keys yields that order |
| `MarkerScan.Walker.ListItems` | packages/brain/governance.go:187-274 | a container offers its entries, string keys sorted |
| `MarkerScan.Walker.ScanValue` | packages/brain/governance.go:187-274 | the search with a shared, restored `seen` set equals the recursive one |
| `MarkerScan.Walker.ScanLoop` | packages/brain/governance.go:220-292 | each of its loops stops at the first hit and restores `seen` |
| `Admission.ParseIffRendered` | packages/brain/governance.go:94-104 | a reference parses to (layer, id) iff it is exactly their rendering |
| `MarkerScan.HitIsDetermined` | packages/brain/governance.go:147-152 | without maps whose keys are not strings, the reported path and key are determined by what the containers hold |
| `MarkerScan.HitDependsOnIteration` | packages/brain/governance.go:214-225 | for any two markers, such a map whose two iteration orders report different hits |
| `Admission.ScanMarkers` | packages/brain/governance.go:169-171 | hits iff claimed; the hit names a real path to a marker, the first one in the order the containers are iterated |
| `Admission.Admit` | packages/brain/governance.go:116-159 | admits iff content, eligible kind, well-shaped evidence, no forged quittance, no reachable personal or authority claim; each refusal is given exactly when its law is the first violated, with the first hit |
| `Dispatching.LookupsAgree` | internal/dispatch/acceptance.go:115-128 | lookup by key and by execution id return the same record |
| `Dispatching.Acceptor.FindByKey` | services/work/store/dispatch_store.go:138-144 | finds the unique row of a key |
| `Dispatching.Acceptor.Accept` | internal/dispatch/acceptance.go:232-294 | the whole new store and answer of an undisturbed accept; rows stay filed under the id minted from their key |
| `DispatchMeaning.FirstAcceptance` | internal/dispatch/acceptance.go:232-294 | under an unbound key: each refusal exactly when, the stale epoch included; a success stores an untouched record of this dispatch, time, context and trace |
| `DispatchMeaning.RepeatedAcceptance` | internal/dispatch/acceptance.go:246-258 | under a bound key: the winner exactly to the same cause, epoch and mission; nothing changes |
| `DispatchMeaning.LostRace` | services/work/store/dispatch_store.go:64-120 | a candidate that lost the insert race is answered like a repetition |
| `DispatchMeaning.EveryAcceptanceWasFresh` | internal/dispatch/acceptance.go:260-262 | in every run each contract 1.0 acceptance was asked for by a call that carried its dispatch and whose epoch was not stale then |
| `DispatchMeaning.FirstContextual` | internal/dispatch/acceptance.go:303-371 | a first contract 2.0 acceptance succeeds exactly when fully bound, placed on the leased worker and with a fresh context; record and context say what was presented |
| `DispatchMeaning.RepeatedContextual` | internal/dispatch/acceptance.go:336-370 | a repeated one returns the winner exactly to the same dispatch and stored binding |
| `DispatchMeaning.RevokeMeans` | internal/dispatch/acceptance.go:434-441 | a revocation always succeeds and sets only the flag |
| `DispatchMeaning.ApplyMeans` | internal/dispatch/acceptance.go:486-506 | an application succeeds exactly on an unrevoked, unapplied record of that effect; each error and the new record exactly |
| `DispatchMeaning.CompleteMeans` | internal/dispatch/acceptance.go:510-525 | a completion succeeds exactly on an unrevoked record for a final outcome, and records that one |
| `DispatchMeaning.VerdictMeans` | internal/dispatch/acceptance.go:532-582 | a verdict is recorded iff its eight laws hold, otherwise the error is the first broken one; the record says who found what about which subject on which evidence |
| `DispatchMeaning.GitSubjectIsPattern` | internal/dispatch/acceptance.go:180-182 | the subject recogniser accepts exactly git:OWNER/REPO@40HEX |
| `DispatchMeaning.BindMeans` | internal/dispatch/acceptance.go:376-430 | a binding succeeds exactly for an exact subject with the whole correlation and no other subject bound; nothing else changes |
| `Dispatching.Acceptor.RevokeExecution` | internal/dispatch/acceptance.go:434-441 | store and error of an undisturbed revocation |
| `Dispatching.Acceptor.Save` | services/work/store/dispatch_store.go:245-275 | upserts exactly one row; refuses an unidentified record or one whose key another row holds, changing nothing; keeps rows filed under their minted id |
| `Dispatching.Acceptor.SpendBudget` | internal/dispatch/acceptance.go:449-481 | succeeds iff the atomic spend does; each of the five errors exactly when it applies |
| `Dispatching.Acceptor.ApplyEffectOnce` | internal/dispatch/acceptance.go:486-506 | store and error of an undisturbed application |
| `Dispatching.Acceptor.CompleteExecution` | internal/dispatch/acceptance.go:510-525 | store and error of an undisturbed completion |
| `Dispatching.Acceptor.RecordVerdictFor` | internal/dispatch/acceptance.go:532-582 | store and error of an undisturbed verdict, for both contracts |
| `DispatchRuns.StepKeeps` | internal/dispatch/acceptance.go:232-582 | every step of every interleaving keeps the invariant, every row's identity, every bound subject and the reply log |
| `DispatchRuns.FinishAcceptKeeps` | services/work/store/dispatch_store.go:64-120 | insert-if-absent keeps the tables lawful, and its answer is the stored winner |
| `DispatchRuns.AcceptV2Keeps` | internal/dispatch/acceptance.go:303-371 | the contextual accept keeps the tables lawful and answers with the stored winner; failures, a replay under another stored context included, change nothing |
| `DispatchRuns.BothCommit` | services/work/store/dispatch_v2_store.go:33-192 | acceptance and execution context enter together and stay |
| `DispatchRuns.FinishKeeps` | internal/dispatch/acceptance.go:434-582 | a save of a possibly outdated record still keeps every record lawful |
| `DispatchRuns.VerdictKeepsLaw` | internal/dispatch/acceptance.go:532-582 | a recorded verdict is evidenced, independent and about the admissible subject, and Verified iff ACCEPT |
| `DispatchRuns.SpendKeeps` | services/work/store/dispatch_store.go:186-243 | the spend transaction keeps each record's counter within its ceiling |
| `DispatchRuns.BindKeeps` | internal/dispatch/acceptance.go:376-430 | the first subject binding wins and is never overwritten |
| `DispatchLaws.ReachableLawful` | internal/dispatch/acceptance.go:296-582 | in every reachable state: Verified iff the verdict is ACCEPT; a verdict has evidence, a foreign verifier and the accepted (V1) or first-bound (V2) subject; a record's counter is within its non-negative ceiling; every contract 2.0 acceptance has its own execution context |
| `DispatchLaws.OneWinnerForever` | internal/dispatch/acceptance.go:232-294 | in every interleaving all successful callers of a key got the same dispatch, execution, context and trace, which both lookups still return after any further run |
| `DispatchLaws.ReplayIgnoresEpoch` | internal/dispatch/acceptance.go:240-262 | a committed acceptance is handed back whatever the authority epoch has become |
| `DispatchLaws.FailuresChangeNothing` | internal/dispatch/acceptance.go:232-582 | a step that answers with a failure leaves the store as it was |
| `DispatchLaws.BudgetConservedIff` | internal/dispatch/acceptance.go:449-525 | BudgetSpent equals the sum of successful spends at every moment of a run iff no save lands over a spend made since its load |
| `DispatchBudget.NoMoreSpendsIff` | internal/dispatch/acceptance.go:443-481 | from any reachable state no continuation spends again iff the record is revoked or fully spent and no call in flight could write back one with room |
| `DispatchBudget.WithinCeilingIff` | internal/dispatch/acceptance.go:443-481 | the successful spends stay within the ceiling in every continuation iff they are within it now and the state is tight as above: a record with room is never safe |
| `DispatchBudget.CeilingCanBePassed` | internal/dispatch/acceptance.go:443-481 | for every bound dispatch with a positive ceiling and every n, a reachable state in which it was successfully spent n times over |
| `DispatchBudget.TightRun` | internal/dispatch/acceptance.go:434-525 | a tight state stays tight and unspent in every interleaving |
| `DispatchLaws.EffectOnceIff` | internal/dispatch/acceptance.go:486-506 | known applications succeed at most once and the record's flag agrees, at every moment of a run, iff no save crosses an application made since its load |
| `DispatchEffects.NeverAgainIff` | internal/dispatch/acceptance.go:486-506 | from any reachable state no continuation applies the effect again iff the record is applied or revoked and no call in flight could apply it or write back an open record |
| `DispatchEffects.AtMostOnceIff` | internal/dispatch/acceptance.go:486-506 | at most one application in every continuation iff, with one application so far, the state is sealed as above, or, with none, the record is closed and at most one call in flight is loose, an application |
| `DispatchEffects.OpenAppliesTwice` | internal/dispatch/acceptance.go:486-506 | from every state with an open record some continuation applies twice |
| `DispatchEffects.SealedRun` | internal/dispatch/acceptance.go:434-525 | a sealed state stays sealed in every interleaving |
| `DispatchLaws.SerialRunsAreExact` | internal/dispatch/acceptance.go:434-525 | runs whose calls do not overlap conserve the budget and apply the effect at most once |
| `DispatchFreeze.FrozenIff` | internal/dispatch/acceptance.go:434-441 | a revoked record is frozen in every continuation iff no call in flight on it could still write something else |
| `DispatchFreeze.QuietRevocationIsFinal` | internal/dispatch/acceptance.go:434-525 | with nothing in flight on it, a revoked record never changes again |
| `DispatchFreeze.RevocationCanBeLost` | internal/dispatch/acceptance.go:510-525 | for every bound dispatch, a reachable state and one save that clears its revocation |
| `DispatchFreeze.EffectCanApplyTwice` | internal/dispatch/acceptance.go:486-506 | for every bound dispatch, a reachable state with two successful applications of its one effect |
| `DispatchFreeze.SpendCanBeLost` | internal/dispatch/acceptance.go:449-525 | for every bound dispatch and every spend within its ceiling, a reachable state that has forgotten that spend |
| `GoldenMission.CheckChain` | packages/goldenmission/goldenmission.go:221-267 | accepts iff the identity is valid, stages advance in order and every field a stage carries agrees; a rejection names the first break |
| `GoldenMission.CheckStage` | packages/goldenmission/goldenmission.go:238-264 | passes iff every carried field agrees, and names the first that does not |
| `GoldenMeaning.RankIsPosition` | packages/goldenmission/goldenmission.go:142-152 | a stage's rank is its place in the full chain |
| `GoldenMeaning.PreservedMeans` | packages/goldenmission/goldenmission.go:221-267 | accepted iff the identity is valid, stages advance through the full chain and each of the nine carried fields is the mission's |
| `GoldenMission.EffectKeyInjective` | packages/goldenmission/goldenmission.go:398-398 | valid identities with one effect key have the same work and action |
| `GoldenMission.ValidJournal` | packages/goldenmission/goldenmission.go:353-391 | accepts exactly the resumable journals |
| `GoldenMeaning.ResumableIff` | packages/goldenmission/goldenmission.go:353-391 | a journal resumes iff it reads as an opening entry and advancing stages, contiguously numbered, under one action and one valid identity |
| `GoldenMission.PrefixJournalResumes` | packages/goldenmission/goldenmission.go:353-391 | every journal of a preserved prefix is resumable |
| `GoldenMission.JournalStagesOf` | packages/goldenmission/goldenmission.go:490-519 | the stages read back from a journal are those that ran |
| `GoldenRuns.EffectLog.Apply` | packages/goldenmission/goldenmission.go:282-290 | counts one application and says whether it was the first |
| `GoldenRuns.NewRunner` | packages/goldenmission/goldenmission.go:325-333 | refuses exactly a malformed principal |
| `GoldenRuns.RecoverRunner` | packages/goldenmission/goldenmission.go:339-351 | resumes iff principal and journal are in order |
| `GoldenRuns.Runner.Run` | packages/goldenmission/goldenmission.go:426-444 | decision and effect of a run without verifier |
| `GoldenRuns.Runner.RunRevocation` | packages/goldenmission/goldenmission.go:463-484 | revoked iff the gateway ran and no stage lies past the revocation point; effect iff works ran |
| `GoldenRuns.Runner.WriteJournal` | packages/goldenmission/goldenmission.go:510-514 | the journal of exactly the stages run |
| `GoldenRuns.Runner.RunPrefix` | packages/goldenmission/goldenmission.go:490-519 | journal of exactly the stages run, effect iff works is among them; a refusal changes nothing |
| `GoldenMeaning.PrefixDecides` | packages/goldenmission/goldenmission.go:490-509 | a prefix runs iff crash recovery, no journal yet, and an intact chain up to the first occurrence of the stage |
| `GoldenRuns.Runner.RunWithVerification` | packages/goldenmission/goldenmission.go:551-602 | decision and effect of a verified run |
| `GoldenMeaning.RunDecides` | packages/goldenmission/goldenmission.go:426-484 | without a verifier: refuse, revoked and the error each exactly when, everything else rejected |
| `GoldenMeaning.VerifiedFails` | packages/goldenmission/goldenmission.go:551-576 | each error of a verified run exactly when, self-verification included |
| `GoldenMeaning.VerifiedDecides` | packages/goldenmission/goldenmission.go:551-658 | accept, refuse, revoked and recovered each exactly when; a rejecting verifier, the verifier-failure branch and everything else are rejected |
| `GoldenRuns.Runner.RunCrashRecovery` | packages/goldenmission/goldenmission.go:604-649 | recovered iff resumed from a prefix of the same mission with an accepting verifier; effect iff works is not journalled |
| `GoldenRuns.NoEffectWithoutDecision` | packages/goldenmission/goldenmission.go:426-649 | no refused, rejected or failed run applies an effect |
| `GoldenRuns.RecoveredIff` | packages/goldenmission/goldenmission.go:551-649 | "recovered" iff the runner was resumed and the call, by its inputs, completes the journal: independent well-formed accepting verifier, matching subject and action, preserved chain, journal a prefix of it; effect iff works is not journalled |
| `GoldenRuns.ExactlyOnceAcrossLives` | packages/goldenmission/goldenmission.go:339-649 | whenever a prefix succeeds, recovery accepts its journal, and one recovered completion leaves the count exactly one higher across both lives |
| `GoldenRuns.AppliesIff` | packages/goldenmission/goldenmission.go:426-649 | which calls on a resumed runner apply their effect, told from their inputs: completing a journal without works, an accepted full-chain success, a revocation after works |
| `GoldenRuns.CallsCount` | packages/goldenmission/goldenmission.go:426-649 | whatever is called on resumed runners, each key's count grows by exactly its applying calls |
| `GoldenRuns.ExactlyOnceIff` | packages/goldenmission/goldenmission.go:282-649 | after a prefix and any calls, the effect was applied once iff the prefix's own application and the applying calls of its key make one |
| `GoldenRuns.RepeatedCompletionDoubles` | packages/goldenmission/goldenmission.go:282-290 | a concrete mission completed twice and applied twice |
| `GoldenRuns.SuccessIgnoresJournal` | packages/goldenmission/goldenmission.go:590-602 | a resumed runner accepts and applies a success mission whatever its journal holds |
| `GoldenRuns.ResumedSuccessDoubles` | packages/goldenmission/goldenmission.go:334-351 | for every valid identity and independent verifier: a prefix past works, then a success on the resumed runner, and the effect is applied twice |
| `Scheduler.ScoreBounds` | internal/scheduler/scheduler.go:357-389 | every component lies in [0, weight] and the total in [0, 1] |
| `Scheduler.ShorterQueuePreferred` | internal/scheduler/scheduler.go:405-415 | a shorter queue never scores lower, strictly higher while unsaturated |
| `Scheduler.IdleAndReliablePreferred` | internal/scheduler/scheduler.go:357-389 | less load and a better record never score lower, strictly higher within range |
| `Scheduler.WarmCachePreferred` | internal/scheduler/scheduler.go:391-403 | more cache hits never score lower on a cacheable node and play no part elsewhere |
| `Scheduler.ColdCachePenalised` | internal/scheduler/scheduler.go:391-403 | a cold runner loses against not counting the cache, a warm one gains |
| `Scheduler.NearbyPreferred` | internal/scheduler/scheduler.go:436-467 | the wanted region beats an unknown one, which beats a foreign one |
| `Scheduler.CheaperScoresHigherIff` | internal/scheduler/scheduler.go:417-434 | exactly when the cheaper of two runners does not score below the dearer |
| `Scheduler.CheaperCanScoreLower` | internal/scheduler/scheduler.go:417-434 | for every demand, three quarters of the ceiling scores below the ceiling itself |
| `Scheduler.DearerIsSelected` | internal/scheduler/scheduler.go:417-434 | for every demand and eligible runner at three quarters of the ceiling, an otherwise equal one at any cost from the ceiling up is selected instead |
| `Scheduler.BetterTotal` | internal/scheduler/scheduler.go:658-670 | between distinct ids exactly one is preferred |
| `Scheduler.WinnerNearMaximum` | internal/scheduler/scheduler.go:580-610 | the winner's total is within (n-1) epsilons of the maximum, whatever the order |
| `Scheduler.UndominatedWins` | internal/scheduler/scheduler.go:580-610 | a runner preferred to every other one wins in any position |
| `Scheduler.ChosenPermuted` | internal/scheduler/scheduler.go:545-561 | reordering the pool reorders the eligible list |
| `Scheduler.OrderIndependentIff` | internal/scheduler/scheduler.go:641-670 | a runner is selected under every permutation of the input slice iff it is preferred to every other eligible one |
| `Scheduler.SeparatedSelection` | internal/scheduler/scheduler.go:580-670 | on scores and rates equal or more than epsilon apart, every order of the input slice selects the documented optimum |
| `Scheduler.SelectionDependsOnOrder` | internal/scheduler/scheduler.go:641-670 | a pool of three whose reversal makes the selection another runner |
| `Scheduler.CountedOnce` | internal/scheduler/scheduler.go:545-563 | every runner is counted once: as eligible or under one rejection code |
| `Scheduler.FailsMeans` | internal/scheduler/scheduler.go:169-331 | each check of the filter fails iff its law, said in direct terms, is not met |
| `Scheduler.FilterMeans` | internal/scheduler/scheduler.go:169-239 | a runner passes iff it meets all eleven laws; otherwise the code is that of the first law it does not meet |
| `Scheduler.EligibleIff` | internal/scheduler/scheduler.go:545-561 | the eligible entries are exactly the scored runners of the pool that meet every law |
| `Scheduler.EligibleAreActive` | internal/scheduler/scheduler.go:169-189 | an eligible runner is in the pool, scored, and not draining |
| `Scheduler.SelectedMeets` | internal/scheduler/scheduler.go:527-614 | whoever is selected is in the pool and meets every law; when nobody is, nobody does |
| `Scheduler.Sift` | internal/scheduler/scheduler.go:545-563 | pass 1 for any judge: the list of those who passed and the exact tallies |
| `Scheduler.ScanBest` | internal/scheduler/scheduler.go:592-610 | pass 2: the scan is the fold whose laws are proved |
| `Scheduler.Select` | internal/scheduler/scheduler.go:527-639 | the error cases exactly, the tallies, the winner of the scan, and that the degraded fallback is never flagged |
| `WorkGraph.Validate` | packages/workgraph/workgraph.go:548-569 | accepts exactly the structural invariants |
| `WorkGraph.ReadyNodes` | packages/workgraph/workgraph.go:629-670 | returns each ready node once and nothing else |
| `WorkGraph.StartMeans` | packages/workgraph/workgraph.go:629-670 | a node starts iff the work is QUEUED or RUNNING, the node is known, not done, in flight or leased, and all its needs succeeded |
| `WorkGraph.LeasedIsNotStarted` | packages/workgraph/workgraph.go:622-670 | while a node is leased no attempt of it is started, in any run |
| `WorkGraph.TerminalIsFinal` | packages/workgraph/workgraph.go:51-108 | SUCCEEDED, FAILED and CANCELLED are final in every run |
| `WorkGraph.TransitionsMean` | packages/workgraph/workgraph.go:69-108 | success only out of verifying, verifying only out of running, queueing only from CREATED and PLANNING, cancelling from anything not final |
| `WorkGraph.RunIsOrderly` | packages/workgraph/workgraph.go:629-670 | in every run of starts on ready nodes, none starts before its needs succeeded and no succeeded node re-runs |
| `WorkGraph.StuckNeverRuns` | packages/workgraph/workgraph.go:629-670 | no member of a set whose members each need another member is ever started or ready |
| `WorkGraph.CycleIsStuck` | packages/workgraph/workgraph.go:629-670 | a needs cycle is such a set |
| `WorkGraph.StuckHasCycle` | packages/workgraph/workgraph.go:629-670 | such a set contains a cycle |
| `WorkGraph.Progress` | packages/workgraph/workgraph.go:629-670 | on a valid acyclic graph, quiet and unfinished, some node is ready |
| `WorkGraph.Drive` | packages/workgraph/workgraph.go:629-670 | some run finishes every valid acyclic work |
| `WorkGraph.CompletableIffAcyclic` | packages/workgraph/workgraph.go:548-670 | a fresh valid work can be completed iff its graph is acyclic |
| `WorkGraph.ValidCyclicWork` | packages/workgraph/workgraph.go:548-569 | a work that validates and can never finish |
| `Ledger.BudgetLedger.ConsumeDelta` | packages/workgraph/workgraph.go:437-452 | the new ledger; exceeded iff this call stopped the clock |
| `Ledger.BudgetLedger.PauseClock` | packages/workgraph/workgraph.go:458-462 | the new ledger |
| `Ledger.BudgetLedger.ResumeClock` | packages/workgraph/workgraph.go:465-469 | the new ledger |
| `Ledger.BudgetLedger.RecordLateBill` | packages/workgraph/workgraph.go:474-476 | the new ledger |
| `Ledger.ClosedForm` | packages/workgraph/workgraph.go:437-476 | after any calls, for deltas of any sign: the ceiling once some prefix of the metered deltas reached it, their sum until then |
| `Ledger.ConsumedIsMin` | packages/workgraph/workgraph.go:437-476 | for non-negative deltas consumption is min(ceiling, metered) iff the ceiling is non-negative or something was metered; stopped iff metering reached the ceiling |
| `Ledger.NegativeCeilingBreaksMin` | packages/workgraph/workgraph.go:437-452 | every fresh ledger with a negative ceiling is the failing case |
| `Ledger.StoppedIsFinal` | packages/workgraph/workgraph.go:437-469 | after the hard stop only the list of late bills can change |
| `Ledger.LateBillsInvisible` | packages/workgraph/workgraph.go:471-476 | erasing late bills changes nothing but their list |
| `Ledger.Settle` | packages/billing/billing.go:117-195 | settles iff every input law holds, otherwise names the first violated one; clamps, keeps the bills and totals them exactly |
| `Ledger.SettlementOfRun` | packages/billing/billing.go:162-181 | over a metered life the clamp is the identity and the bills are exactly those recorded |
| `Namespace.PathShapeIsPattern` | packages/brain/brain.go:68-78 | the path recogniser accepts exactly /org/ORG/COLLECTION/TAIL |
| `Namespace.MountShapeIsPattern` | packages/brain/brain.go:72-78 | the mount recogniser accepts exactly /org/ORG/COLLECTION, or something below it |
| `Namespace.PrefixIffSegments` | packages/brain/brain.go:435-453 | "equal, or extended past a slash" is exactly "prefix segment by segment" |
| `Namespace.MatchMountIffSegments` | packages/brain/brain.go:435-453 | a mount sees a path iff both are well-formed and its segments are a prefix; the org check is implied |
| `Namespace.MountsCompose` | packages/brain/brain.go:435-453 | mounts compose transitively |
| `Namespace.MountsNested` | packages/brain/brain.go:435-453 | two mounts that see one path are nested |
| `Namespace.SiblingsAreSeparate` | packages/brain/brain.go:435-453 | a sibling sharing leading characters is not seen |
| `Lineage.NewObjectIsBirth` | packages/brain/brain.go:245-273 | a new object validates, is revision 1, carries no authority, and has exactly the path, class, content, evidence and time it was given |
| `Lineage.EvolveFollows` | packages/brain/brain.go:286-427 | what each successful call changes: a revision brings its content, hash and evidence, a tombstone its evidence, a stamp its human; the rest of the frame |
| `Lineage.ValidMeans` | packages/brain/brain.go:113-179 | the validity of an object in direct terms |
| `Lineage.ReviseSucceedsIff` | packages/brain/brain.go:286-330 | a revision succeeds iff evidenced, encodable content meets a valid, living object that may change, before expiry |
| `Lineage.StampSucceedsIff` | packages/brain/brain.go:348-392 | a promotion succeeds iff a named human with a note meets a valid, living, non-ephemeral object, once if immutable |
| `Lineage.KillSucceedsIff` | packages/brain/brain.go:399-427 | a tombstone succeeds iff evidence meets a valid, living, mutable object |
| `Lineage.HistoryIsLineage` | packages/brain/brain.go:245-427 | every sequence of calls leaves a lawful lineage |
| `Lineage.LineageShape` | packages/brain/brain.go:113-427 | everything validates; path, class, birth and expiry are constant; revisions count by one, save the one in-place immutable stamp |
| `Lineage.LineageLaws` | packages/brain/brain.go:286-427 | authority exactly at stamped revisions, a tombstone only at the end, no ephemeral revised at or after its original expiry |
| `Lineage.ContentIsLastRevised` | packages/brain/brain.go:286-427 | at every point the content is that of the last revision, else the birth's, with its own hash |
| `Lineage.TombstoneEnds` | packages/brain/brain.go:399-427 | nothing succeeds on a tombstone, whatever is tried |
| `SettlementCorrelation.FileObligations` | internal/economic/settlement_correlation.go:87-117 | accepts exactly well-formed, distinct obligations with an asset and a cash leg |
| `SettlementCorrelation.JudgeIff` | internal/economic/settlement_correlation.go:121-185 | a receipt raises no reason iff it is acceptable and new by leg and evidence |
| `SettlementCorrelation.ReceiptRuled` | internal/economic/settlement_correlation.go:121-185 | a receipt earns exactly the code of the first of nine laws it breaks, under its own leg |
| `SettlementCorrelation.UsedUp` | internal/economic/settlement_correlation.go:147-184 | a leg and an evidence hash are used up exactly by receipts that get past their checks |
| `SettlementCorrelation.FoldIff` | internal/economic/settlement_correlation.go:119-185 | the loop raises no reason iff all receipts are clean, and then matched exactly their legs |
| `SettlementCorrelation.JudgeAll` | internal/economic/settlement_correlation.go:119-185 | the receipt loop is that fold |
| `SettlementCorrelation.MissingLegs` | internal/economic/settlement_correlation.go:187-193 | exactly one reason per leg without a receipt |
| `SettlementCorrelation.MatchedOrBlamed` | internal/economic/settlement_correlation.go:119-185 | every receipt is matched to its leg or earns exactly one reason |
| `SettlementCorrelation.SeenIff` | internal/economic/settlement_correlation.go:121-153 | a leg counts as seen iff some receipt of right schema, transaction and claim speaks for it |
| `SettlementCorrelation.Correlate` | internal/economic/settlement_correlation.go:56-203 | CORRELATED iff receipts and obligations are in bijection by leg with valid distinct evidence, iff there are no reasons; the reasons are one per unmatched receipt and one per leg nobody spoke for; correlated legs are exactly the obligation legs; never final |
| `SettlementCorrelation.VerdictOrderIrrelevant` | internal/economic/settlement_correlation.go:119-202 | permuting receipts does not change the verdict |
| `SettlementCorrelation.BijectionCounts` | internal/economic/settlement_correlation.go:87-202 | a correlated transaction has one receipt per obligation |
| `Framing.NativeMaterial` | packages/obslaw/platform_event_ref.go:127-145 | the builder loop writes the framed fields |
| `Framing.MaterialSpelled` | packages/obslaw/platform_event_ref.go:132-142 | the seven fields in their frozen order, each behind its own length |
| `Framing.DecodeMaterial` | packages/obslaw/platform_event_ref.go:127-145 | a decoder recovers the exact fields, NULs and digits included |
| `Framing.MaterialInjective` | packages/obslaw/platform_event_ref.go:127-145 | equal material means equal field lists |
| `Framing.EventMaterialInjective` | packages/obslaw/platform_event_ref.go:127-145 | distinct events never share their material |
| `Framing.NulJoinCollides` | packages/obslaw/platform_event_ref.go:127-145 | the unframed join would collide |
| `WorkServer.HandleKeeps` | services/api/api.go:431-562 | with other clients acting between any two statements, every request keeps keys unique, removes nothing, never answers 401, and its successes name a stored Work of its key and intent, queued if asked |
| `WorkServer.BoundKeyAnswers` | services/api/api.go:442-467 | under a bound key: conflict iff intent or queue decision differs, else the canonical Work unless its pending queueing fails; never an insert |
| `WorkServer.FreshKeyAnswers` | services/api/api.go:469-562 | alone under an unbound key: refused iff invalid or the id is taken, else exactly its own row, queued if asked, and the answer |
| `WorkServer.Server.Lookup` | services/api/api.go:442-448 | finds the unique row of a key |
| `WorkServer.Server.AnswerReplay` | services/api/work_create_idempotency.go:217-272 | a replay conflicts, repairs the missing queue transition or returns the canonical Work, also when that Work moves on in between |
| `WorkServer.Server.AnswerCanonical` | services/api/api.go:498-550 | the re-read after the insert transaction answers for the canonical Work, 201 iff it has the requested id |
| `WorkServer.Server.CreateWork` | services/api/api.go:418-562 | the handler's new table and answer, with races before the insert, before the re-read and before the queue transition |
| `Clients.TranscriptBound` | cmd/works/submission.go:50-155 | at most 3 requests not answered 401 with a key, 1 without, and one more in all |
| `Clients.TranscriptDetermined` | cmd/works/submission.go:70-155 | the answers determine the whole exchange |
| `Clients.EndsAtFirstSettled` | cmd/works/submission.go:70-152 | a keyed client goes on through transient answers to the first settling one within its three requests, and ends with it |
| `Clients.GivesUpAfterThree` | cmd/works/submission.go:86-152 | it sends all three when none settles |
| `Clients.KeylessSendsOnce` | cmd/works/submission.go:50-100 | without a key nothing but a renewed 401 is repeated |
| `Clients.RenewalIsFree` | cmd/works/submission.go:118-136 | a renewed 401 does not count against the budget |
| `Clients.ReportMeans` | cmd/works/submission.go:86-155 | what a finished exchange reports, by its last answer |
| `Clients.CauseMeans` | cmd/works/submission.go:70-152 | every request after the first failure names that failure as its cause, unless the caller gave one |
| `Clients.SameLaw` | cmd/works/submission.go:112-140 | a client that cannot renew and one whose renewal fails follow the same law |
| `Clients.ClientsAgree` | cmd/works-ci/auth.go:100-196 | on the same answers both implementations send the same requests with the same recovery causes; reports differ only where the second turns a final status or an undecodable body into an error |
| `Clients.OneRequest` | cmd/works/submission.go:70-152 | one iteration of either loop: the law says whether to go on and with which budget, or what to report |
| `Clients.JudgeCli` | cmd/works/submission.go:86-152 | what the first client's loop body makes of an answer |
| `Clients.JudgeCi` | cmd/works-ci/auth.go:133-192 | the same for the second client, undecodable bodies included |
| `Clients.SubmitCli` | cmd/works/submission.go:37-155 | for every schedule the loop is a complete exchange under the law; the trailing "exhausted" return is unreachable; the first recovery cause sticks |
| `Clients.SubmitCi` | cmd/works-ci/auth.go:100-196 | the same for the second implementation, which refuses to start without a key |
| `Clients.CreatedBound` | cmd/works/submission.go:120-140 | a request that inserted a Work was not answered 401 |
| `Clients.KeyedInsertsOnce` | services/work/store/store.go:705-776 | with a key a whole submission inserts at most one Work, none if the key was bound |
| `Clients.AtMostOneWork` | cmd/works/submission.go:30-155 | for every schedule of lost requests and answers, 5xx and 401, a submission inserts at most one Work |
| `Clients.ShownWorksAgree` | services/api/api.go:439-550 | every success a keyed client was shown names the one Work of its key, with its intent, queued if asked, even after a crash between insert and queueing |

## Left out

- I/O: HTTP, SQL, CLI, clocks, randomness and hashing are parameters; the stores are modelled by their transactions.
- Floating point: the scheduler and the ledger use reals, so rounding is not modelled; the epsilon is.
- Text: lower-casing and blank tests are ASCII in the scheduler and the acceptor; the marker scan takes any lower-casing function. Times are integers with 0 as Go's zero time.
- NewGraph: does not model the sorting of the outgoing lists, because the result is proved independent of their order.
- Checkpoint attachment to a state snapshot and the clone helpers: JSON and aliasing only.
- Acceptor.RecordVerdictFor: in interleavings the bound subject is read at the save step, because subjects are write-once; reading it earlier can only fail more often.
- AcceptV2: the worker-lease table is a parameter, and so is whether a new execution context passes its own field validation.
- Store failures: a load or save that fails with a storage error is not a step of the dispatch runs.
- Graph.ValidateSnapshot: does not fix which error wins when several entries are bad, because Go's map order decides.
- Correlate: reasons are a multiset of leg and code, not the sorted rendered strings.
- Golden missions: transcripts, pins and the skeleton fixtures are hashing and files.
- Scheduler: the work's region is one optional value; with several regions named the code depends on map order. Log text and reasoning strings are left out.
- Work: mission contracts, hand-offs, lease transitions and BudgetLedger.CanReserve would only add short tables.
- Submission: rows from before durable creation metadata, a caller-supplied initial state, admission enrichment (one validity flag) and the 500 answers of failing lookups are left out. A gateway may replace any answer by 429 or 5xx; a 401 is assumed to come from before the handler, as the code documents.
- Settlement recovery simulation, releases, links, providers, secrets, workspaces, caches and the other packages: flat validation, or guarantees of remote systems.
