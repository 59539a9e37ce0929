# Verified models of the IDR authority runtime

IDR records human-centered contracts (intents, decisions, turn plans, responses, actions,
receipts, outcomes), lets an executor act only under a one-time permit, and keeps evidence of
everything in digest-chained logs. This project models its deciding algorithms in Dafny and
proves what each of them promises, over every input, every run and every crash point.

The modules follow the program:

- `Graphs`, `TurnGraphs`, `TurnPlan`, `TurnMeaning`, `TurnCandidate`: walks, cycles and
  schedules; the Kahn loop, the recursive depth-first search, the path search, and what a
  validated plan means.
- `Sequences`, `Unicode`, `CanonicalJson`, `JsonPlaces`, `JsonReader`, `CanonicalEncoder`,
  `PythonEncoder`, `SigningBytes`, `ClaimsReader`: canonical JSON (sections 3.2.2 and 3.2.3 of
  RFC 8785) in its two implementations, its resource limits, and the length-prefixed bytes that
  issuers sign, each with a reader of its own that knows the format independently.
- `Contracts`, `StoreModel`, `StoreOperations`: the contract store's state, its validator's
  conditions and what each operation writes. `StoreSnapshot`, `StoreValidator` and `FileStore`
  are the imperative store; `StoreCommit`, `StoreIssue`, `StoreSafety` and `StoreRuns` prove
  what every run keeps. `StoreReceipts` says what a settled attempt tells and what may follow
  it, `StoreMarks` when marks and recoveries are in time, `StoreMeaning` what every accepted
  state and every write mean, and `StoreExample` plays a concrete run.
- `AnchorFormat`, `AnchorReader`, `AnchoredFile`, `CrashSafety`: the snapshot file, the anchor
  file with torn appends, recovery, and runs with crashes at any byte.
- `RunModel`, `RunTables`: the run authority's commands, the tables beside its projection and
  the recursive invalidation closure. `RunEvaluator` and `RunAuthority` are the imperative
  evaluator and transaction; `RunAcceptance` says which commands are acceptable and what each
  leaves. `RunInvariants`, `RunDrafts`, `RunSafety`, `RunExecutions` and `RunKeys` prove what
  every run keeps, `RunProvenance` that what is done is what was decided, `RunDependencies` what
  rests on what and falls with it, `RunEffects` what becomes of a dispatched effect, `RunLapses`
  what becomes of an unused permit, `RunRetries` what retried commands do, and `RunScript` and
  `RunExample` play concrete runs.
- `AuditChain`, `AuditAnchor`: the audit log of all tenants, its integrity walk, and the
  external checkpoint anchor across crashes and restarts.
- `StepRecord`: the orchestration step record and its termination bound.

Choices that run through the models:

- Digests are uninterpreted. In the run authority and the audit chain they are opaque values
  or free terms, so distinct inputs have distinct digests; in the anchored file the digest is
  an arbitrary function, and the one place where a collision would matter says so.
- Signature verification is a fact that arrives with the call (a verified request, a proof
  list, "the admission's proofs still hold").
- Clocks, fresh identifiers and parsed payload fields are parameters.
- Sorted vectors without repetition are maps or sets; the PostgreSQL tables are maps and sets
  that one atomic transaction changes; a store operation, which holds an exclusive lock and
  reloads first, is one atomic step.
- The tables' own guards are part of a transaction where they decide one: the record table's
  revision order and policy lineage, the dependency table's keys, the assertion table's
  predecessor key, the reservation table's keys and triggers, and the attempt and receipt
  tables' keys.
- Eight properties are false of the code as it stands and are stated with their exact
  condition, for all runs, and a concrete run:
  - a contract revision may depend on the revision it supersedes and so strand itself
    (`StoreRuns.RevisionStrandsItself`, `StoreRuns.CommitKeepsDependencies`);
  - an attempt dispatched in the store should wait for its receipt and rule out a second one
    (invariant 36 and section 12.6 of the trust-chain closure document), but marking it once more
    after its lease, proof or authorization has ended stores it as expired: its receipt is
    refused from then on, and the action is permitted again (`StoreMarks.LateMarkForgets`,
    `StoreMarks.ExpiredTakesNoReceipt`, `StoreReceipts.RetryDecided`,
    `StoreExample.DispatchedTwice`);
  - a correction of a human-model assertion is never committed, because the row of its
    predecessor and the row of the assertion it names have one primary key
    (`RunExample.RefusedCorrection`, `RunSafety.NoCorrectionCommits`,
    `RunSafety.CommitsUnlessCorrection`);
  - a late receipt should still be recorded (section 12.5 of the repository's trust-chain
    closure document), and an outcome within 86,400 seconds of its receipt (its state-machine
    document), but every transaction of a run writes its execution's row, which is refused once
    the action, the admission or the authorization has ended
    (`RunEffects.FrozenPastLimits`, `RunEffects.SpentIsFrozen`,
    `RunEffects.ReceiptCommitsOnceWithinLimits`, `RunEffects.BystandersCommitWithinLimits`,
    `RunExample.LateReceiptRun`, `RunExample.LateOutcomeRun`);
  - a failed or rejected attempt should be open to a next one (the state-machine document),
    but its receipt closes the run, which then reserves nothing any more, so no run dispatches
    twice (`RunEffects.FailedTakesNoRetry`, `RunEffects.SpentForGood`,
    `RunEffects.DispatchesOnce`, `RunExample.FailedRun`);
  - an effect that waits to be reconciled should be settled by its receipt, but a command that
    finds the admission's proofs revoked reopens a settled one, whose second receipt the receipt
    table's key refuses for good (`RunEffects.RevocationReopens`, `RunEffects.ReopenedForGood`,
    `RunEffects.ReceiptCommitsOnceWithinLimits`, `RunExample.ReopenedRun`);
  - a permit whose lease ends before dispatch should expire and leave the action to a next
    attempt (invariant 35 of the trust-chain closure document). It does exactly when the owner's
    recovery or expiry is the first to notice, in time: a late delivery or dispatch call
    cancels it and rules the attempt out, and a lease that runs to one of its limits has no
    moment at which its lapse can be stored (`RunLapses.LapseStored`,
    `RunLapses.LapseHasItsMoment`, `RunLapses.LapseDecidesRetry`, `RunLapses.LapseLost`,
    `RunExample.LapsedRun`, `RunExample.LostLapseRun`, beside `RunExample.RetriedRun`);
  - a database put back to an earlier state should not start, but a tenant that it no longer
    knows is not compared with the external anchor (`AuditAnchor.RestoredDatabaseDetected`,
    `AuditAnchor.FirstCheckpointLostUnnoticed`).
- Twice the tables save what the evaluator alone would get wrong: it would accept corrections
  of records that are not assertions (`RunSafety.MisaimedCorrection`,
  `RunExample.MisaimedRun`), and commands that forget a dispatched effect
  (`RunEffects.EvaluationRemembers`, `RunExample.ForgettingRun`).

Check the whole project with `dafny verify dfyconfig.toml`.

## Model

| member | source | states |
|---|---|---|
| TurnGraphs.DependencyGraphIsAcyclic | crates/idr-protocol/src/human_centered/turn.rs:245-280 | Kahn's loop over in-degree counts returns true exactly when no walk leads from a node back to itself |
| TurnGraphs.DependencyPathExists | crates/idr-protocol/src/human_centered/turn.rs:282-305 | the queue search returns true exactly when a non-empty path exists |
| TurnGraphs.Visit | crates/idr-runtime/src/trust_chain.rs:2706-2735 | a refusal means the graph has a cycle; an acceptance finishes the node with everything it reaches and leaves the nodes in progress as they were |
| TurnGraphs.VisitsEveryNode | crates/idr-runtime/src/trust_chain.rs:2686-2735 | the search over all nodes accepts exactly the acyclic graphs |
| TurnGraphs.AcyclicityDecidersAgree | crates/idr-runtime/src/trust_chain.rs:2686-2735 | on one graph the loop and the recursive search always return the same verdict, and it is acyclicity |
| TurnPlan.ValidatePlan | crates/idr-protocol/src/human_centered/turn.rs:113-220 | plan validation accepts exactly the well-shaped acyclic plans with a proper rationale and their own record digest whose mode's ordering requirement holds of their paths |
| TurnPlan.ValidPlanHasSchedule | crates/idr-protocol/src/human_centered/turn.rs:113-220 | an accepted plan can be run: a linear extension of its dependencies exists |
| TurnPlan.ValidPlanConstrainsSchedules | crates/idr-protocol/src/human_centered/turn.rs:155-214 | in every schedule of an accepted plan each action follows some response in the respond-first modes, each response follows some action in act-then-respond |
| TurnPlan.PathCheckIsExact | crates/idr-protocol/src/human_centered/turn.rs:155-214 | the path checks accept exactly when every schedule keeps that order, so they refuse no plan needlessly |
| TurnMeaning.AcceptedExactly | crates/idr-protocol/src/human_centered/turn.rs:113-220 | a plan is accepted exactly when its record and gates are in order, a schedule exists, every schedule keeps what the plan's mode promises, mode by mode, and the digest is its own |
| TurnCandidate.ValidateTurnCandidate | crates/idr-runtime/src/trust_chain.rs:2665-2763 | the runtime's own check accepts exactly the acyclic candidates whose mode fits their nodes and edges |
| TurnCandidate.CandidateModeFixesOrder | crates/idr-runtime/src/trust_chain.rs:2736-2763 | the accepted mode name and the order of action and response in any schedule determine each other |
| Unicode.KeyOrdersAgree | research/evaluation/src/idr_eval/generated_production_v1.py:41-45 | sorting keys by UTF-16 big-endian bytes is sorting them by UTF-16 code units |
| CanonicalJson.CanonPrefix | crates/idr-protocol/src/production.rs:803-849 | canonical texts are self-delimiting: if two are prefixes of one stream the values are equal |
| CanonicalJson.CanonicalBytesUnambiguous | crates/idr-protocol/src/production.rs:793-849 | two values of the constrained profile have equal canonical bytes exactly when they are equal, objects being maps |
| CanonicalJson.DigestPreimageInjective | crates/idr-protocol/src/production.rs:781-791 | the digest preimage determines the domain and the value |
| JsonPlaces.LimitsExactly | crates/idr-protocol/src/production.rs:851-888 | a value is within the limits exactly when it has at most 10,000 places (paths of indices and names), none 32 steps or more from the root, and every number is an integer below 2 to the 53rd in size |
| JsonReader.ReadsBack | crates/idr-protocol/src/production.rs:803-849 | a reader by the JSON grammar, with its own literals, escapes, digits and strict order of names, reads every canonical text back as its value, whatever follows that cannot extend a number |
| JsonReader.BytesReadBack | crates/idr-protocol/src/production.rs:793-849 | and so from the UTF-8 bytes, decoded by the reader itself |
| CanonicalEncoder.ValidateCanonicalNumber | crates/idr-protocol/src/production.rs:873-888 | accepts exactly the integers within the safe wire range |
| CanonicalEncoder.WriteString | crates/idr-protocol/src/production.rs:803-849 | the byte table with its escapes writes the UTF-8 bytes of the quoted text |
| CanonicalEncoder.WriteCanonicalValue | crates/idr-protocol/src/production.rs:803-849 | the encoder succeeds exactly on the profile and then appends exactly the canonical bytes, which the grammar's reader reads back as the value |
| CanonicalEncoder.ValidateJsonLimits | crates/idr-protocol/src/production.rs:851-871 | the stack loop accepts exactly depth at most 32, at most 10,000 nodes and safe integers |
| PythonEncoder.Dumps | research/evaluation/src/idr_eval/generated_production_v1.py:34-35 | Python's string form equals the canonical quoted text |
| PythonEncoder.Encoder.Encode | research/evaluation/src/idr_eval/generated_production_v1.py:14-48 | the counting recursive encoder succeeds exactly within depth, the nodes left and the integer range, and then returns the canonical text, which the grammar's reader reads back as the value |
| PythonEncoder.EncodersAgree | research/evaluation/src/idr_eval/generated_production_v1.py:14-48 | Python succeeds exactly when the Rust limit check accepts, and then its text is the Rust encoder's bytes, and both read back as the value |
| SigningBytes.CanonicalSigningBytes | crates/idr-protocol/src/human_centered/trust.rs:163-181 | the method yields the signing bytes exactly for valid claims whose texts fit their 32-bit length prefix |
| SigningBytes.SigningBytesPrefixFree | crates/idr-protocol/src/human_centered/trust.rs:163-181 | no valid claims' signing bytes continue another's: equal streams mean equal claims, field by field |
| SigningBytes.FieldsDetermineClaims | crates/idr-protocol/src/human_centered/trust.rs:32-48 | the tag and the encoded fields determine every field of the claims |
| ClaimsReader.ReadsBack | crates/idr-protocol/src/human_centered/trust.rs:163-181 | a reader that knows the layout, the domain tag and the numbers of the proof kinds on its own reads signing bytes, whatever follows them, back as the claims |
| ClaimsReader.SignedExactly | crates/idr-protocol/src/human_centered/trust.rs:132-181 | claims are valid exactly when their identifier, texts, digests, times and version are as spelled out, and their bytes then say just those claims |
| StoreSnapshot.Snapshot.InvalidateDependents | crates/idr-store/src/file_store.rs:783-869 | the worklist adds exactly the live pointers that dependency edges through live pointers reach from the stale reference, and reconciles exactly the reservations that lose their action |
| StoreSnapshot.Snapshot.AppendRecord | crates/idr-store/src/file_store.rs:377-400 | invalidating, pushing and replacing the pointer give the appended state, with every pointer still recorded |
| StoreValidator.IndexRecords | crates/idr-store/src/file_store.rs:905-921 | accepts exactly valid records of which no two share a key and revision, and then says where each stands |
| StoreValidator.CheckRecords | crates/idr-store/src/file_store.rs:923-966 | accepts exactly logs whose records are valid, refer only to earlier records and are consistent with them |
| StoreValidator.CheckPointers | crates/idr-store/src/file_store.rs:968-980 | accepts exactly the pointer map that holds the latest record of every key |
| StoreValidator.ConsumedOnceIff | crates/idr-store/src/file_store.rs:993-1022 | one set of seen proof identifiers, nonces and authorizations over all attempts decides that no two attempts anywhere share one |
| StoreValidator.CheckReservations | crates/idr-store/src/file_store.rs:993-1158 | the seen-sets loop accepts exactly valid reservations with unique actions, scopes and one-time values |
| StoreValidator.ReplayHistory | crates/idr-store/src/file_store.rs:1201-1237 | the loop rebuilds exactly the replay of the log, and fails exactly when a record breaks its lineage |
| StoreValidator.ValidateSnapshot | crates/idr-store/src/file_store.rs:882-1160 | the validator accepts exactly the valid states |
| StoreCommit.AppendedIsReplay | crates/idr-store/src/file_store.rs:1201-1237 | committing a record to the cached pointers and invalidations and replaying the longer log give the same result |
| StoreCommit.CommitAccepted | crates/idr-store/src/file_store.rs:292-406 | from an accepted state a commit writes exactly when its own checks pass, and the validator then accepts the candidate |
| StoreCommit.ReceiptFindsAttempt | crates/idr-store/src/file_store.rs:1461-1499 | a consistent new receipt finds its attempt still waiting and last in its reservation, so settling it cannot fail |
| StoreIssue.IssueAccepted | crates/idr-store/src/file_store.rs:414-564 | a permit for a verified request is always persisted: the validator accepts what issuing writes |
| StoreSafety.OperationsKeepSingleUse | crates/idr-store/src/file_store.rs:460-551 | from the operations' own checks, without the validator: no one-time value occurs twice, no action or scope is reserved twice, attempts count from one and all but the last permit a retry |
| StoreSafety.OperationsKeepInFlightLive | crates/idr-store/src/file_store.rs:681-697 | whatever is written, an in-flight attempt is its reservation's last and its action is live, though nothing validates it |
| StoreSafety.StepKeepsReceipts | crates/idr-store/src/file_store.rs:654-726 | no operation changes an attempt that carries a receipt |
| StoreRuns.RunsAreSafe | crates/idr-store/src/file_store.rs:292-726 | every reachable state is valid (its cache is the replay of its log), keeps in-flight attempts live and values single-use, and every recorded receipt settled an attempt |
| StoreRuns.RunsKeepReceipts | crates/idr-store/src/file_store.rs:1085-1116 | once an attempt carries a receipt, nothing later in any run changes it |
| StoreRuns.CarriedOnce | crates/idr-store/src/file_store.rs:1360-1367 | no receipt settles two attempts |
| StoreRuns.OneReceiptPerAttempt | crates/idr-store/src/file_store.rs:1360-1367 | at most one receipt is recorded for an attempt of an action |
| StoreRuns.SurvivorsKeepDependencies | crates/idr-store/src/file_store.rs:356-404 | a record live before and after a commit keeps every live dependency |
| StoreRuns.CommitKeepsDependencies | crates/idr-store/src/file_store.rs:356-404 | all live records keep only live dependencies exactly when the new revision depends neither on its own predecessor nor on what falls with it |
| StoreRuns.RunsKeepDependencies | crates/idr-store/src/file_store.rs:356-404 | in runs of such commits every live record has only live dependencies |
| StoreRuns.RevisionStrandsItself | crates/idr-protocol/src/human_centered/common.rs:324-329 | a concrete two-commit run whose second revision depends on the first and is left with a dead dependency |
| StoreReceipts.RunsTellReceipts | crates/idr-store/src/file_store.rs:1461-1499 | in every reachable state an attempt that carries a receipt is succeeded, failed, partially succeeded, rejected or compensated exactly as that receipt reports |
| StoreReceipts.NothingFollowsEffect | crates/idr-store/src/file_store.rs:460-551 | no attempt follows one whose receipt reports success, partial success or compensation, in any run |
| StoreReceipts.RetryDecided | crates/idr-store/src/file_store.rs:414-564 | a verified request for a reserved action is granted exactly as the next attempt after one that failed, was rejected or expired |
| StoreMarks.MarkExpires | crates/idr-store/src/file_store.rs:654-726 | a mark with a matching permit on a live action stores the expiry and reports it exactly when the time has reached the lease's, the proof's or the authorization's end and no receipt is there |
| StoreMarks.MarkAdvances | crates/idr-store/src/file_store.rs:654-726 | it marks the attempt exactly from the state before, in time and in order, and repeats without change |
| StoreMarks.MarkMismatched | crates/idr-store/src/file_store.rs:654-680 | a permit that names no last attempt changes nothing |
| StoreMarks.RecoveryReturns | crates/idr-store/src/file_store.rs:595-652 | recovery returns the permit exactly to its owner, before dispatch, below all three limits; from then on it stores the expiry |
| StoreMarks.RunsMarkInTime | crates/idr-store/src/file_store.rs:654-726 | in every reachable state each delivery and dispatch lies before the ends of lease, proof and authorization |
| StoreMarks.LateMarkForgets | crates/idr-store/src/file_store.rs:698-707 | a mark on a dispatched attempt leaves it waiting exactly below all three limits, and otherwise stores it as expired |
| StoreMarks.ExpiredTakesNoReceipt | crates/idr-store/src/file_store.rs:1461-1499 | no receipt of an expired attempt is ever committed |
| StoreExample.DispatchedTwice | crates/idr-store/src/file_store.rs:698-707 | a concrete six-operation run dispatches an attempt, marks it again late, and permits the action anew with no receipt of the first |
| StoreMeaning.AttemptMeans | crates/idr-store/src/file_store.rs:993-1084 | each attempt of an accepted state was permitted for its recorded action as approved, inside every window, under the issuer's proof of that very request |
| StoreMeaning.ReceiptMeans | crates/idr-store/src/file_store.rs:1085-1158 | every recorded receipt answers the attempt it settled part by part, begun between its dispatch and its lease's end, with the provider's signature verified in time |
| StoreMeaning.RecordRests | crates/idr-store/src/file_store.rs:923-966 | every recorded action, outcome, decision, response and turn rests on fitting earlier records of its own context |
| StoreMeaning.RecordFollows | crates/idr-store/src/file_store.rs:923-966 | every revision follows the one before it, and what a record names stands earlier in the log |
| StoreMeaning.CommitNeeds | crates/idr-store/src/file_store.rs:292-406 | a commit changes the store only with a valid contract that continues its revisions on live dependencies, a receipt only under its provider's proof now in force |
| StoreMeaning.IssueNeeds | crates/idr-store/src/file_store.rs:414-564 | a permit is issued only on a live action, inside lease, proof, approval and validity, with nothing of it consumed before |
| FileStore.Store.CommitContract | crates/idr-store/src/file_store.rs:292-406 | the method moves the state and answers exactly as the run model's commit, whose settled statuses StoreReceipts.RunsTellReceipts and whose conditions StoreMeaning.CommitNeeds spell out |
| FileStore.Store.IssueExecutionPermit | crates/idr-store/src/file_store.rs:414-564 | the method moves the state and answers exactly as the run model's issue, over its search loops, as StoreReceipts.RetryDecided and StoreMeaning.IssueNeeds spell out |
| FileStore.Store.TransitionExecutionPermit | crates/idr-store/src/file_store.rs:654-726 | delivering and dispatching: the write-then-refuse branches, the idempotent branch and the step itself, exactly as StoreMarks.MarkExpires and StoreMarks.MarkAdvances spell them out |
| FileStore.Store.RecoverExecutionPermit | crates/idr-store/src/file_store.rs:595-652 | recovery answers with the held permit, or expires it and refuses, exactly as StoreMarks.RecoveryReturns spells out |
| FileStore.Store.LoadCurrent | crates/idr-store/src/file_store.rs:728-755 | returns the live contract of a key exactly when one exists |
| AnchorFormat.AnchorReadsBack | crates/idr-store/src/file_store.rs:1699-1720 | a written anchor record parses back to itself |
| AnchorFormat.FileReadsBack | crates/idr-store/src/file_store.rs:1627-1673 | a file of written records splits and parses back to exactly those records |
| AnchorFormat.TornTailDropped | crates/idr-store/src/file_store.rs:1633-1637 | bytes after the last newline are exactly what is discarded |
| AnchorReader.LineReadsBack | crates/idr-store/src/file_store.rs:99-105 | every written line is a JSON object of the three named members, read by the grammar's reader as the record it stands for |
| AnchoredFile.ValidateAnchorChain | crates/idr-store/src/file_store.rs:1675-1697 | the loop accepts exactly chains numbered from one that name their predecessor's digest |
| AnchoredFile.Store.ReadAnchorRecords | crates/idr-store/src/file_store.rs:1627-1673 | returns the committed records, truncates exactly a torn tail, and refuses malformed or blank files |
| AnchoredFile.Store.LoadSnapshot | crates/idr-store/src/file_store.rs:1575-1625 | loading returns the modelled verdict and passes through exactly the modelled durable states |
| AnchoredFile.Store.PersistSnapshot | crates/idr-store/src/file_store.rs:1551-1573 | saving passes through the rename and then every prefix of the anchor line |
| CrashSafety.LoadRecovers | crates/idr-store/src/file_store.rs:1594-1673 | from a synced or torn disk loading returns the last snapshot, every state on the way is again recoverable, and it ends synced |
| CrashSafety.SaveRecoverable | crates/idr-store/src/file_store.rs:1551-1573 | from the rename on, every state of a save is recoverable to the new snapshot |
| CrashSafety.EveryRunRecovers | crates/idr-store/src/file_store.rs:1551-1720 | after any run of saves and loads cut off anywhere, loading succeeds with the last saved snapshot and leaves the anchor chain of all snapshots saved |
| CrashSafety.RollbackDetected | crates/idr-store/src/file_store.rs:1594-1625 | beside an anchor chain, complete or ending in a torn append, a snapshot file is accepted exactly when it is valid and matches the last anchor or is sealed one ahead of it |
| CrashSafety.NothingOlderAccepted | crates/idr-store/src/file_store.rs:1594-1625 | beside such a file no older snapshot is accepted, and another one in the last's place only under a digest collision |
| RunInvariants.ClosureClosed | crates/idr-runtime/src/postgres_authority.rs:3344-3412 | a stored dependent of a closure's member belongs to the closure |
| RunInvariants.ReachRises | crates/idr-runtime/src/postgres_authority.rs:3240-3342 | walks of stored dependency edges never lead to an earlier kind of record |
| RunInvariants.AllReleases | crates/idr-runtime/src/trust_chain.rs:942-1098 | applying a closure, in any order, invalidates exactly its records, only drops bindings or stops the execution, and leaves nothing naming a record it invalidated |
| RunDrafts.ApplyGood | crates/idr-runtime/src/trust_chain.rs:1133-2069 | each of the 23 commands issues a record only in its place with live parents, rebinds only to it, and moves an execution in flight only with the matching event |
| RunAcceptance.AcceptedExactly | crates/idr-runtime/src/trust_chain.rs:1133-2069 | the evaluator accepts exactly the commands that a declarative account finds acceptable: domain, version, state, lineage, proofs and what each of the 23 warrants |
| RunAcceptance.ActionDerived | crates/idr-runtime/src/trust_chain.rs:1348-1353 | where nothing else is wrong an action is refused as not derived from its decision exactly when the derivations differ |
| RunAcceptance.AcceptedLeaves | crates/idr-runtime/src/trust_chain.rs:1133-2069 | an accepted command leaves exactly the record, bindings, execution and run state that the account gives for it |
| RunSafety.RecordingKeepsChain | crates/idr-runtime/src/postgres_authority.rs:2378-2427 | recording a successor with the closure of what it supersedes keeps every live record on exactly its live upstream records |
| RunSafety.InvalidationKeepsChain | crates/idr-runtime/src/postgres_authority.rs:2378-2427 | invalidating a closure keeps every live record on exactly its live upstream records |
| RunSafety.NewRecordIsLive | crates/idr-runtime/src/postgres_authority.rs:2378-2427 | the record just issued survives the closure of the one it supersedes |
| RunDrafts.EvaluateFrames | crates/idr-runtime/src/trust_chain.rs:1133-2069 | every accepted command changes only the parts of the projection named for it, loses no sent nonce and, reservations aside, replaces no execution |
| RunSafety.DependenciesAreParents | crates/idr-runtime/src/postgres_authority.rs:3240-3342 | the rows stored with a committed record name current records, live ones of all its parent kinds and none but those unless its kind is exempt |
| RunDependencies.LiveRecordsRest | crates/idr-runtime/src/postgres_authority.rs:3240-3342 | each live record rests on the live records of the kinds named for its own, by stored edges |
| RunDependencies.ReceiptRests | crates/idr-runtime/src/postgres_authority.rs:3280-3285 | a committed receipt's stored edge leads from the current action |
| RunDependencies.AssertionRests | crates/idr-runtime/src/postgres_authority.rs:3240-3342 | a committed assertion's stored edge leads from the promotion it names, which is the current one |
| RunDependencies.InvalidationFells | crates/idr-runtime/src/postgres_authority.rs:3344-3412 | a committed invalidation takes with it everything that rests on its target at any remove, and closes the run |
| RunDependencies.RevisionFells | crates/idr-runtime/src/postgres_authority.rs:2378-2427 | a new revision takes with it everything that rests on the one it supersedes, a renewed admission excepted |
| RunDependencies.ReceiptFallsWithAction | crates/idr-runtime/src/postgres_authority.rs:3280-3285 | over all runs a receipt, and all that rests on it, belongs from its commit on to the closure of the action it is recorded on |
| RunDependencies.AssertionFallsWithPromotion | crates/idr-runtime/src/postgres_authority.rs:3240-3342 | over all runs an assertion is invalidated when a later promotion replaces the one it was made from |
| RunDependencies.NothingInvalidatedAfterReceipt | crates/idr-runtime/src/trust_chain.rs:2372-2412 | after a receipt no run commits an invalidation any more |
| RunSafety.NoCorrectionCommits | crates/idr-runtime/src/postgres_authority.rs:3297-3339 | whatever its target, a correction is refused, and when all else accepts it, by the dependency table's primary key |
| RunSafety.CommitsUnlessCorrection | crates/idr-runtime/src/postgres_authority.rs:2378-2495 | a command the evaluator accepts, on new proofs, under admission proofs that hold and with a record that follows on, commits exactly when it is not a correction and the execution tables take the execution it leaves and its receipt |
| RunSafety.StepKeepsInvariant | crates/idr-runtime/src/postgres_authority.rs:2193-2495 | every committed transaction, revoked admission proofs included, keeps chain, bindings, execution, lease, log and consumed proofs sound |
| RunSafety.RunsKeepInvariant | crates/idr-runtime/src/postgres_authority.rs:2193-2495 | so does every run, on any inputs |
| RunSafety.ActionChain | crates/idr-runtime/src/trust_chain.rs:2415-2430 | a live action has its turn, decision, intent, context and input live, each link a stored edge |
| RunSafety.ExpiryIsLeaseEnd | crates/idr-runtime/src/trust_chain.rs:2576-2582 | the five-way expiry test is the end of the lease |
| RunSafety.DispatchIsAuthorized | crates/idr-runtime/src/trust_chain.rs:1655-1683 | every step into dispatch comes before the lease ends, on the live action with its whole chain live, after the same permit was issued and then delivered |
| RunSafety.MisaimedCorrection | crates/idr-runtime/src/trust_chain.rs:2010-2030 | the evaluator, which asks only that a correction's target be live, accepts corrections after which live parents stay live exactly when no live record rests on the target's kind |
| RunSafety.ConsumptionKept | crates/idr-runtime/src/postgres_authority.rs:3063-3090 | the replay check keeps every proof identifier and nonce consumed at most once |
| RunExample.MisaimedRun | crates/idr-runtime/src/trust_chain.rs:2010-2030 | two commands into a concrete run the evaluator accepts a correction that would leave a live context on a dead input, and the tables refuse it |
| RunExample.RefusedCorrection | crates/idr-runtime/src/postgres_authority.rs:3297-3339 | a concrete fifteen-command run to a live assertion, whose well-formed correction is evaluated and then refused by the tables |
| RunEffects.EvaluationRemembers | crates/idr-runtime/src/trust_chain.rs:1626-1816 | while a dispatched effect is outstanding an accepted command leaves it outstanding or settles it with its receipt, exactly unless it is one of the four that cancel an execution waiting to be reconciled |
| RunEffects.StepRemembers | crates/idr-store/migrations/0007_round12_attested_authority_boundary.sql:304-341 | every committed transaction, closures and revoked admission proofs included, leaves an outstanding effect outstanding or settles it with its receipt |
| RunEffects.EffectsAreRemembered | crates/idr-runtime/src/trust_chain.rs:2536-2574 | over any run a dispatched effect is outstanding until its receipt is committed |
| RunEffects.DispatchesOnce | crates/idr-runtime/src/trust_chain.rs:2372-2412 | no run dispatches twice |
| RunEffects.SpentForGood | crates/idr-runtime/src/trust_chain.rs:1737-1745 | from its dispatch on a run keeps that attempt, outstanding or settled with the run closed, and every reservation is refused |
| RunEffects.FailedTakesNoRetry | crates/idr-runtime/src/trust_chain.rs:1737-1745 | after a failed or rejected receipt no attempt is ever reserved again, in any run |
| RunExample.FailedRun | crates/idr-runtime/src/trust_chain.rs:2372-2412 | eleven commands into a concrete run the attempt has failed and its next attempt, right but for the run's state, is refused |
| RunEffects.FrozenPastLimits | crates/idr-store/migrations/0004_round9_domain_validity_and_immutability.sql:267-310 | once a limit of a run's execution, settled or not, has passed, nothing commits but a reservation that replaces it |
| RunEffects.SpentIsFrozen | crates/idr-store/migrations/0004_round9_domain_validity_and_immutability.sql:267-310 | and once dispatched nothing at all |
| RunEffects.BystandersCommitWithinLimits | crates/idr-store/migrations/0004_round9_domain_validity_and_immutability.sql:267-310 | an outcome, a proposal, a promotion or any other presentable command that leaves the execution alone, corrections aside, commits exactly within the execution's limits |
| RunEffects.ReceiptCommitsOnceWithinLimits | crates/idr-store/migrations/0001_idr_v13_trust_chain.sql:173-203 | a receipt the evaluator accepts, on new proofs and with a record that follows on, commits exactly within the execution's limits and as the first of its reservation and attempt |
| RunEffects.SettlesOnce | crates/idr-store/migrations/0001_idr_v13_trust_chain.sql:173-203 | no run commits two receipts |
| RunEffects.RevocationReopens | crates/idr-runtime/src/trust_chain.rs:866-938 | a settled execution is left waiting for a receipt again exactly by a command that finds its admission's proofs revoked |
| RunEffects.ReopenedForGood | crates/idr-runtime/src/postgres_authority.rs:3661-3677 | what was reopened after its receipt stays unsettled over the rest of any run |
| RunExample.ReopenedRun | crates/idr-runtime/src/trust_chain.rs:866-938 | a concrete run settles its effect, reopens it on revoked proofs and refuses a second receipt that is in time and lacks nothing |
| RunExecutions.RunsStayConsistent | crates/idr-store/migrations/0001_idr_v13_trust_chain.sql:173-203 | in every reachable state the reservation, attempt and permit rows are those of the current execution, whose attempt is its reservation's last and whose operation is its action's |
| RunKeys.RunsKeepKeys | crates/idr-store/migrations/0001_idr_v13_trust_chain.sql:173-203 | in every reachable state no action or idempotency key is reserved twice, attempts count without a gap, no permit, nonce or record digest occurs twice, receipts have attempts and revisions follow one another under one policy |
| RunProvenance.RunsCarryOutDecisions | crates/idr-runtime/src/trust_chain.rs:1348-1353 | in every reachable state the action, the admission and the execution in flight carry the option, operation, parameters and request of the live decision |
| RunProvenance.DispatchCarriesOutDecision | crates/idr-runtime/src/trust_chain.rs:1655-1683 | every dispatch carries out exactly what the live decision chose |
| RunProvenance.DispatchTraced | crates/idr-runtime/src/trust_chain.rs:1655-1683 | and leads back to the earlier commands that decided, acted, admitted and reserved it, under the proofs each of them needs |
| RunExample.ForgettingRun | crates/idr-runtime/src/trust_chain.rs:2555-2572 | eleven commands into a concrete run the evaluator would cancel a dispatched execution on a late delivery that lacks nothing, and the tables refuse it |
| RunExample.LateReceiptRun | crates/idr-store/migrations/0004_round9_domain_validity_and_immutability.sql:267-310 | ten commands into a concrete run a receipt that lacks nothing arrives after the action's end, and no transaction whatever commits from then on |
| RunExample.LateOutcomeRun | crates/idr-store/migrations/0004_round9_domain_validity_and_immutability.sql:267-310 | eleven commands into a concrete run an outcome that lacks nothing is refused inside the window its receipt leaves for it |
| RunLapses.LapseStored | crates/idr-runtime/src/trust_chain.rs:1597-1683 | a presentable command that notices a lapsed lease stores it as an expiry exactly when it is the owner's recovery or expiry and the execution is within its limits |
| RunLapses.LapseHasItsMoment | crates/idr-store/migrations/0004_round9_domain_validity_and_immutability.sql:267-310 | there is a moment at which a lapse can be stored exactly when the lease ends before every limit |
| RunLapses.LapseLost | crates/idr-store/migrations/0004_round9_domain_validity_and_immutability.sql:267-310 | with a lease that runs to a limit nothing commits once it has lapsed |
| RunLapses.RetryCommits | crates/idr-runtime/src/trust_chain.rs:1535-1558 | a well-formed reservation of the action's next attempt commits exactly when the last attempt is stored as expired |
| RunLapses.LapseDecidesRetry | crates/idr-runtime/src/trust_chain.rs:1597-1683 | after the transaction that noticed a lapse, such a reservation commits exactly when it was the owner's recovery or expiry, under admission proofs that held |
| RunExample.LapsedRun | crates/idr-runtime/src/trust_chain.rs:2555-2572 | a concrete nine-command run whose late delivery cancels an unused permit, after which every reservation of the live action is refused |
| RunExample.RetriedRun | crates/idr-runtime/src/trust_chain.rs:1597-1625 | a concrete ten-command run whose owner expires the same permit and reserves a second attempt |
| RunExample.LostLapseRun | crates/idr-store/migrations/0004_round9_domain_validity_and_immutability.sql:267-310 | a concrete eight-command run to a permit leased for as long as its action lasts, after whose lapse nothing commits |
| RunRetries.CommittedOnce | crates/idr-runtime/src/postgres_authority.rs:2218-2301 | a command identifier commits at most once: later calls under it change nothing, the same command gets its first receipt and another is refused |
| RunRetries.SessionsKeepInvariant | crates/idr-runtime/src/postgres_authority.rs:2218-2301 | over any calls, retries and conflicting identifiers included, the authority's state keeps the invariant |
| RunAuthority.LoadRecursiveInvalidationClosure | crates/idr-runtime/src/postgres_authority.rs:3344-3412 | the recursive query, as a worklist, lists exactly the root and everything stored that edges reach from it |
| RunAuthority.ApplyRepositoryInvalidationClosure | crates/idr-runtime/src/trust_chain.rs:942-1098 | the field-by-field loop computes the closure's effect on the projection |
| RunEvaluator.EnsureCurrentExecutionAction | crates/idr-runtime/src/trust_chain.rs:2536-2574 | authority is current exactly on the live action inside every window, and is otherwise taken away |
| RunEvaluator.ScanExpiries | crates/idr-runtime/src/trust_chain.rs:1413-1418 | an admission ends when the first of its action, its authorization and its proofs does |
| RunEvaluator.EvaluateAuthoritativeTransition | crates/idr-runtime/src/trust_chain.rs:1133-2069 | accepts exactly the acceptable commands and leaves exactly their effects; what is accepted is for this domain, version, subject and turn, of an open run, with exactly the proofs it needs; it is accepted once, changes only its own fields, issues a record only in its place with live parents, rebinds only to it, moves an execution only with its event, and forgets an outstanding effect only by the four commands; a stale version is always refused as one |
| RunAuthority.CheckProofReplay | crates/idr-runtime/src/postgres_authority.rs:3063-3090 | reports exactly a proof identifier or nonce consumed before |
| RunAuthority.Authority.PersistContractDependencies | crates/idr-runtime/src/postgres_authority.rs:3240-3342 | inserting row after row succeeds exactly when no two rows, nor one already there, share a key and all name stored records, and then adds exactly the record's edges, which RunDependencies names kind by kind |
| RunAuthority.Authority.PersistExecution | crates/idr-runtime/src/postgres_authority.rs:3585-3677 | writing reservation, attempt and receipt row by row succeeds exactly when their keys and triggers allow it, and then adds exactly those rows |
| RunAuthority.Authority.PersistTransition | crates/idr-runtime/src/postgres_authority.rs:2471-2495 | writing table by table, record, dependency, reservation, attempt and receipt, either gives the model's new tables or, refused by any of them, rolls all back |
| RunAuthority.Authority.Handle | crates/idr-runtime/src/postgres_authority.rs:2193-2301 | a call is answered and changes the tables exactly as in the model of retried commands |
| RunAuthority.Authority.Transact | crates/idr-runtime/src/postgres_authority.rs:2193-2495 | one transaction either commits exactly a step of the model or rolls back everything and reports the model's error |
| AuditChain.VerifyAuditRows | crates/idr-runtime/src/postgres_authority.rs:1193-1272 | the walk with its map of roots accepts exactly logs in which every tenant's rows chain from the zero root |
| AuditChain.WrittenLogLinks | crates/idr-runtime/src/postgres_authority.rs:2497-2531 | every log that transactions write, tenants interleaved, passes the walk |
| AuditChain.VerifiedIsWritten | crates/idr-runtime/src/postgres_authority.rs:1193-1272 | the walk accepts exactly the logs that transactions of its domain and environment write: those that replaying their own payloads gives back |
| AuditChain.EqualRootsEqualPayloads | crates/idr-runtime/src/trust_chain.rs:2956-2966 | a tenant's root and its sequence of payloads determine each other across verified logs |
| AuditAnchor.InMemoryAnchor.Publish | crates/idr-runtime/src/postgres_authority.rs:236-257 | overwrites unless that would roll back or fork, and says which |
| AuditAnchor.InMemoryAnchor.VerifyExternalAnchor | crates/idr-runtime/src/postgres_authority.rs:1114-1179 | the restart accepts exactly when every tenant the database knows has an anchor missing, behind or equal, or neither checkpoint nor anchor outside production; then each of their anchors is the latest checkpoint and the others are as they were, in production every one of them anchored; a refusal has a tenant to show for it |
| AuditAnchor.AnchorNeverForks | crates/idr-runtime/src/postgres_authority.rs:236-257 | whatever checkpoints are published, a tenant's anchor is only replaced by a later one or by the same three roots in the same place |
| AuditAnchor.PublishedIsShown | crates/idr-runtime/src/postgres_authority.rs:236-257 | a published checkpoint is shown unless the anchor shows a later one or other roots in its place, and no other tenant's changes |
| AuditAnchor.RestartExact | crates/idr-runtime/src/postgres_authority.rs:1142-1176 | one tenant passes exactly when its anchor is missing, behind or equal, and is then brought to the latest checkpoint |
| AuditAnchor.AnchorNeverDecreases | crates/idr-runtime/src/postgres_authority.rs:236-257 | no commit, late publication, crash or restart lowers a tenant's anchored sequence |
| AuditAnchor.RestartSettles | crates/idr-runtime/src/postgres_authority.rs:1114-1179 | after any crashes between commit and publication a quiet restart passes and the anchor is exactly the latest checkpoints |
| AuditAnchor.LatestIsRoot | crates/idr-runtime/src/postgres_authority.rs:2646-2676 | each tenant's latest checkpoint carries the root of its chain |
| AuditAnchor.RestoredDatabaseDetected | crates/idr-runtime/src/postgres_authority.rs:1114-1179 | a database restored to an earlier point of its run is refused exactly when a tenant it still knows lost an anchored checkpoint; tenants it no longer knows are not compared |
| AuditAnchor.FirstCheckpointLostUnnoticed | crates/idr-runtime/src/postgres_authority.rs:1116-1128 | after any run a tenant's first commit can be anchored and then lost by a restore that the restart passes, its anchor staying behind |
| StepRecord.Record.Transition | crates/idr-runtime/src/orchestrator.rs:143-173 | the call's new state and verdict, including the assignment that precedes validation |
| StepRecord.FailedCallMoves | crates/idr-runtime/src/orchestrator.rs:143-173 | a failing call still moves a valid record exactly when its wait condition is of the wrong kind |
| StepRecord.MovesExactly | crates/idr-runtime/src/orchestrator.rs:143-173 | where a valid record can be moved: never out of an end, into waiting or success only while running, into running only afresh and within the attempts, into failure only once started, and waiting only for what the new state names |
| StepRecord.StepTerminates | crates/idr-runtime/src/orchestrator.rs:143-173 | over any calls a record moves at most twice its attempts plus one time |
| StepRecord.BoundIsMet | crates/idr-runtime/src/orchestrator.rs:143-173 | and some calls move it that often |

## Left out

- Ed25519, SHA-256 and HMAC, the Python curve arithmetic, SQL text, migrations, attestations, roles, outbox, release gates and packaging: no algorithmic content of the kind modelled here, or a different project.
- Field-by-field shape checks of contracts, candidates and payloads (non-blank texts, JSON payload limits, digests of payloads) beyond what the modelled decisions read.
- File locking and thread scheduling: one store operation or transaction is one atomic step, except for crash points inside saving and loading.
- RunDrafts.ApplyGood: the kind and text of most events, and the payload fields that decide nothing, are not modelled.
- RunSafety.RunsKeepInvariant: one run's tables only; dependency edges, proof consumptions, fences, permits and idempotency keys shared between runs, and the stored copies of reservations and attempts beyond their keys, are not modelled.
- RunSafety.CommitsUnlessCorrection: the record, dependency, assertion, reservation, attempt and receipt tables guard one run, at the transaction's own time; keys shared with other runs, nonces unique to a tenant, checks of stored payloads and a build without human-model writes can refuse more.
- RunAuthority.Authority.Handle: the stored receipt's authentication code and attestation are not modelled; a replay publishes no checkpoint (crates/idr-runtime/src/postgres_authority.rs:2856-2858), so it is no event of the audit anchor.
- RunSafety.DispatchIsAuthorized: an admission is not part of what must be current at dispatch, as the code does not require it there; its proofs are re-verified by a fact that arrives with the command.
- StoreValidator.ValidateSnapshot: the snapshot's sequence and digest are checked in AnchoredFile, and contracts carry only the fields that the store's decisions read.
- AnchoredFile.Store.ReadAnchorRecords: refuses any spelling of a record other than the writer's own, as the parser of AnchorFormat does.
- TurnPlan.ValidatePlan: the record digest is the term it is taken over, and contract metadata is checked for lineage and dependencies only.
- AnchorFormat.AnchorReadsBack: the parser accepts only the form the store writes, while the original's JSON parser also accepts other spacing and field orders.
- AnchoredFile.Store.PersistSnapshot: the temporary file and its rename are one atomic replacement, and the snapshot file's own JSON is a value.
- AuditChain.VerifyAuditRows: the walk is over the log's sequence order; the original visits tenants one after the other, which the verdict does not depend on.
- PythonEncoder.EncodersAgree: strings are sequences of Unicode scalar values, so Python's lone surrogates do not occur.
- StoreModel: pointers and invalidations have no order; turn-plan graph validity is not part of the store's contract check here, and identifiers print as decimal numbers in a receipt's subject text.
- The guard functions, the human-model gate, the TypeScript parsers and the trust-root key policies: finite tables or shape checks.
