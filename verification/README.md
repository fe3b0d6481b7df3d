# Verified model of the Phase 0 evidence machinery

This project models `phase0/src` of the Skill Asset Protocol repository in Dafny and proves what its documentation
and tests promise. It has three parts.

**A. The crash-safe demo run** (`demo.ts`, `transactions.ts`, `registrations.ts`, `story.ts`). Four dependent
on-chain writes go through a journal with compare-and-swap revisions and a durable manifest.
`JournalProtocol` states the protocol as steps over durable state and proves what every history of runs and crashes
keeps. `DurableStore` is the pair of files, `Execution` is `executeOrResume` and `persistExecuted`, and
`DemoOperations`, `DemoInputs`, `DemoPlans`, `Demo` and `RunDemo` are the demo on top of them. `RunDemo.RunDemo` is
the whole run; `DemoHistories` runs it any number of times, with a crash anywhere in each run. `FileReplace` is the
temporary-file-and-rename write both files use. `Lease`, `LeaseExclusion` and `LeaseCounterexamples` are the lock
files, as interleaved file-system calls of any number of processes.

**B. The attestation reducer and its log** (`attestations.ts`, `attestation-store.ts`). `Reducer` follows
`reduceAttestationEvents` branch by branch. `History` says, without any running state, when an event may follow a log.
`Refinement` and `Reduction` prove that the two agree on every log. `BaseConflicts` and `AttestationIndex` add the base
registrations and the published index; `HistoryTheorems` and `LogClosure` state what the index guarantees. `AppendLog`,
`AttestationStore`, `EventLog` and `EventStore` are the append-only file under short writes and crashes.

**C. Canonical encodings** (`attestations.ts`, `attestation-git.ts`, `terminal.ts`). `Utf16`, `Utf8`, `Quoting` and
`Json` are strings, bytes and JSON text, written and read; `Records` the evidence records as JSON objects;
`Statements` the signed statements; `Terminal` the quoting of untrusted text; `ChallengeFile` the signed challenge file
and the verification of repository evidence.

## Assumptions

Each is a named predicate that a theorem requires, or a parameter that may be anything.

- Hashes, signature recovery, URL parsing, date parsing and path resolution are uninterpreted functions
  (`Platform.Library`, `Transactions.Facts`, `ChallengeFile.Outside`).
- `BaseConflicts.InjectiveHash`: SHA-256 does not collide. Only the results about conflict identifiers need it.
- `Platform.SignsStatements`: a signature check is a check of the statement's hash and of the recovered wallet. Only
  `HistoryTheorems.ChallengesSingleUse` needs it.
- `AppendLog.Sound`: what the generic log needs of its entries. `EventLog.EventCodecSound` proves it of attestation
  events, with the decoder of `Utf8` and the parser of `Json`; nothing is assumed of either.
- `EventLog.LastingVerifier`: a repository verifier goes on accepting what it accepted. `ChallengeFile.VerifiesLater`
  proves this of `reverifyRepositoryEvent` over an unchanged snapshot.
- `DemoInputs.Honest`: the chain client decodes well-formed addresses and the metadata provider answers HTTPS URIs.
  `DemoPlans.Benign`: the wallet is funded and the chain confirms. Both are needed only where a theorem says so;
  `DemoWitness.FavourableExists` shows that they can be met.
- Lease identifiers are unique, claim paths are fresh, and a probe that finds a process absent is right.

## Findings

- A confirmed manifest is accepted exactly when the journaled metadata URIs are HTTPS
  (`DemoOperations.ConfirmedManifestAccepted`). The journal accepts other URIs, so with a provider that answers one the
  transaction is broadcast and confirmed first, and the save of the manifest is then refused. `DemoWitness.RefusedForGood`
  reaches such a store. `DemoHistories.StuckForGood` shows that no later run, in whatever environment, succeeds: the
  operation stays pending and the manifest as it was.
- `append` throws after it has extended the file when the file was loadable but not canonical: it succeeds exactly when
  the old text is what printing its entries gives (`AttestationStore.Store.Append`). A log that only `append` wrote is
  always canonical (`AttestationStore.AppendAll`); one with a space before its first line loads and is not
  (`EventStore.SpacedLoads`), and `EventStoreWitness.AppendSpoils` appends to one. The source keeps the key order of a
  top-level event it loads, and the model does not: a log whose only peculiarity is a permutation of those keys is
  canonical in the source and not in the model.
- Line 555 of `transactions.ts` unlinks whatever is at the lock path. `Lease.CleanupExact` says exactly when that costs a
  live owner its record, and `LeaseCounterexamples.LiveRecordDestroyed` is a run in which it does. The lock of the
  store has no such step.
- Mutual exclusion is endangered by one kind of step and no other: a recovery that renames the file of a live owner away
  from the lock path (`LeaseExclusion.StealExact`, and `LeaseExclusion.HeldExactly` for whole runs). No run has such a
  step when every recovery first reads a lock whose owner is dead already and recoveries do not overlap
  (`LeaseExclusion.MutualExclusion`), whether acquisitions fail or not. Without the first rule two sessions get in
  (`LeaseCounterexamples.ExclusionLost`), and without the second too (`LeaseCounterexamples.ExclusionLostToOverlap`).
- Two guards of the reducer, "revocation precedes evidence" and "resolution precedes challenge", are never the reason a
  log is refused (`LogClosure.DeadGuards`).

## Model

| member | source | states |
|---|---|---|
| `JournalProtocol.TrailInv` | phase0/src/demo.ts:444-541 | every durable state of every sequence of runs and crashes satisfies the protocol invariant |
| `JournalProtocol.ExactlyOnce` | phase0/src/demo.ts:444-541 | two broadcasts for one stage, in whatever runs, are of one transaction, the one a confirmed manifest names |
| `JournalProtocol.PendingNamesBroadcasts` | phase0/src/demo.ts:444-541 | every broadcast of a stage, before or after, is of the transaction that is pending for it at any moment |
| `JournalProtocol.SentWasJournaled` | phase0/src/demo.ts:458-486 | what is broadcast was pending in the journal before |
| `JournalProtocol.RecoveryAdmitted` | phase0/src/demo.ts:635-656 | a pending operation is either recorded with its own hash, or sound and still the next one |
| `JournalProtocol.RevisionExact` | phase0/src/transactions.ts:491-530 | the revision is 3 per confirmed stage, plus 1 or 2, or minus 1, by the state of the pending entry; 12 at the end |
| `JournalProtocol.HistoryGrows` | phase0/src/demo.ts:527-541 | broadcasts are never forgotten and a confirmed hash never changes |
| `DurableStore.Store.SaveJournal` | phase0/src/transactions.ts:491-508 | which of its errors it reports, and that the entry is the old one or the new one if it is interrupted; a save that follows the protocol keeps the history legal |
| `DurableStore.Store.ClearJournal` | phase0/src/transactions.ts:510-530 | clears exactly the named operation at the expected revision, or says why not; clearing a confirmed one keeps the history legal |
| `DurableStore.Store.SaveManifest` | phase0/src/registrations.ts:267-298 | refuses what the parser refuses; otherwise the old manifest or the new one; recording the operation that was sent keeps the history legal |
| `DurableStore.Store.Send` | phase0/src/story.ts:167-185 | a transaction counts as broadcast when the call returns or it arrives all the same; sending the journaled one keeps the history legal |
| `Execution.ExecuteOrResume` | phase0/src/demo.ts:444-492 | ends with the found or prepared operation journaled, sent, marked and confirmed, or says which step stopped it |
| `Execution.PersistExecuted` | phase0/src/demo.ts:527-541 | saves the manifest, then clears exactly that operation; the compare-and-swap never fails |
| `Execution.CarryOut` | phase0/src/demo.ts:444-541 | an operation is recorded as the rules demand, or the reason is one that the outside gave; one found pending leaves the journal only once it is recorded |
| `DemoOperations.RulesSound` | phase0/src/demo.ts:373-442 | demo operations and manifests satisfy what the protocol needs of them |
| `DemoOperations.ConfirmedManifestAccepted` | phase0/src/registrations.ts:136-247 | the manifest after a confirmation is accepted if and only if its metadata URIs are HTTPS |
| `DemoOperations.ConfirmedCollectionAccepted` | phase0/src/registrations.ts:173-247 | the manifest after the collection is accepted if and only if the contract is an address |
| `DemoOperations.ProofInherits` | phase0/src/demo.ts:334-371 | parent edge, license terms and template of a confirmed derivative are those of its parent, decimal text included |
| `DemoOperations.ProofShape` | phase0/src/registrations.ts:136-171 | a proof built from a valid operation passes validateProof if and only if its URIs are HTTPS |
| `DemoOperations.ProofFaithful` | phase0/src/demo.ts:334-371 | a proof loses nothing: the confirmation, its numbers included, and the journaled fields can be read back from it |
| `DemoInputs.MetadataForIntent` | phase0/src/demo.ts:305-332 | journaled metadata agrees with the on-chain fields, with the proof, and with the local artifact |
| `DemoOperations.RecordsHashes` | phase0/src/demo.ts:392-396 | recording an operation confirms its stage with its hash and changes no other stage's hash |
| `Registrations.AcceptedInOrder` | phase0/src/registrations.ts:173-247 | an accepted manifest confirms stages in order and its status says how many |
| `Story.ConfirmCollectionExact` | phase0/src/story.ts:187-192 | a collection is confirmed if and only if the transaction's successful receipt has exactly one creation event, and it is that one's contract |
| `Story.ConfirmSkillExact` | phase0/src/story.ts:194-213 | a Skill is confirmed if and only if exactly one registration is on the collection and exactly one license event is of it; every field is theirs |
| `Story.ConfirmDerivativeExact` | phase0/src/story.ts:215-250 | a derivative is confirmed if and only if its one registration and the one derivative event agree with each other and with the journaled parent, terms and template |
| `DemoInputs.OutcomeApplies` | phase0/src/demo.ts:579-601 | a confirmed operation can always be applied, and the result extends the manifest by it |
| `DemoInputs.OutcomeAccepted` | phase0/src/demo.ts:527-541 | with well-formed receipts and HTTPS metadata every manifest handed to save is accepted |
| `DemoPlans.RootIntentFits` | phase0/src/demo.ts:721-741 | the root intent passes the guards recovery will run on it |
| `DemoPlans.DerivativeIntentFits` | phase0/src/demo.ts:769-806 | a derivative intent passes the guards recovery will run on it |
| `DemoPlans.DerivativeIntentValid` | phase0/src/transactions.ts:197-237 | the journal accepts a derivative intent of a valid configuration and fee |
| `DemoPlans.AppliedConfigured` | phase0/src/demo.ts:289-303 | a recovered registration carries the journaled configuration, so that no artifact drifts |
| `Demo.RecoverPending` | phase0/src/demo.ts:543-601 | recovery completes the pending operation, never prepares another, and is stopped only from outside; it never completes one whose metadata is not HTTPS |
| `Demo.CompleteOperation` | phase0/src/demo.ts:444-541 | an operation is confirmed and persisted, or the reason is explained by an answer of the environment |
| `RunDemo.RunStage` | phase0/src/demo.ts:444-541 | one more stage is confirmed, the wallet kept, whatever crash or error leaves the files consistent; with metadata that is not HTTPS it is sent, confirmed and refused |
| `RunDemo.Recover` | phase0/src/demo.ts:644-663 | a pending operation is cleared or completed; its integrity, hash and prerequisites always pass |
| `RunDemo.RunDerivatives` | phase0/src/demo.ts:769-835 | the loop over child and grandchild confirms both, in order |
| `RunDemo.PendingAdmitted` | phase0/src/demo.ts:373-442 | what a run finds pending passes every check that recovery makes |
| `RunDemo.RunDemo` | phase0/src/demo.ts:625-838 | keeps both files legal at every crash point, never fails on its own leftovers, ends complete at revision 12 when nothing goes wrong, and never succeeds over an operation that cannot be recorded |
| `DemoHistories.RunAll` | phase0/src/demo.ts:625-838 | over any sequence of runs and crashes no run is at odds with what earlier runs wrote |
| `DemoHistories.RerunCompletes` | phase0/src/demo.ts:625-838 | after any runs of one configuration, one crash-free run with funds and a confirming chain ends complete |
| `DemoHistories.ExactlyOnePerStage` | phase0/src/demo.ts:444-541 | at most one transaction hash per stage is ever broadcast; it is the one in the journal entry while the stage is pending, and the one in the manifest once confirmed |
| `DemoHistories.ConfirmedWasBroadcast` | phase0/src/demo.ts:444-541 | a confirmed stage was broadcast with the hash the manifest names, for good |
| `DemoHistories.BroadcastWasJournaled` | phase0/src/demo.ts:466-486 | a transaction that was never journaled is never broadcast |
| `DemoHistories.FilesAlwaysValid` | phase0/src/registrations.ts:173-247 | the manifest on disk is valid at every moment and the revision is exact |
| `DemoHistories.StuckForGood` | phase0/src/demo.ts:527-541 | an operation the manifest can never take stays pending, and no later run succeeds in any environment |
| `DemoWitness.ConfirmedButRefused` | phase0/src/demo.ts:527-541 | a reachable store whose root transaction is broadcast and confirmed, with metadata that is not HTTPS |
| `DemoWitness.FavourableExists` | phase0/src/demo.ts:625-838 | an environment in which nothing goes wrong exists |
| `FileReplace.Directory.WriteAll` | phase0/src/transactions.ts:338-347 | short writes add up to exactly the bytes, or to an error |
| `FileReplace.Directory.Replace` | phase0/src/transactions.ts:655-682 | the file is the old one or the new one after any crash or error; other files are untouched |
| `Lease.StepSane` | phase0/src/transactions.ts:532-618 | every file-system step keeps claim files, agents and inodes consistent |
| `Lease.KeptStep` | phase0/src/attestation-store.ts:406-429 | no step but a matching removal or the unconditional unlink loses a record |
| `Lease.DestroyerEntitled` | phase0/src/attestation-store.ts:406-429 | whoever destroys a record is its owner, or recovers an absent one, and the owner is then no longer unreleased |
| `Lease.StoreLockConserves` | phase0/src/attestation-store.ts:362-429 | in every interleaving a live, unreleased owner's record is at the lock path or in a claim file |
| `Lease.JournalLockConserves` | phase0/src/transactions.ts:440-618 | the same, while no failed acquisition unlinks a file it did not create |
| `Lease.OnlyEntitledDestroy` | phase0/src/transactions.ts:575-604 | a record is destroyed only by its owner, by recovery of an absent owner, or by the unlink of line 555 |
| `Lease.CleanupExact` | phase0/src/transactions.ts:553-557 | exactly when the unconditional unlink costs a live owner its record |
| `LeaseExclusion.StealExact` | phase0/src/transactions.ts:575-604 | a step takes the lock path from a session that counts on it if and only if a recovery renames that live session's file away |
| `LeaseExclusion.HeldExactly` | phase0/src/transactions.ts:440-618 | in a run the lock path always belongs to whoever counts on it if and only if no such step is taken |
| `LeaseExclusion.MutualExclusion` | phase0/src/transactions.ts:440-484 | at most one live session is inside its callback when recoveries first read the locks of dead owners and do not overlap |
| `LeaseExclusion.RemovalsMatch` | phase0/src/transactions.ts:575-604 | in such runs every claim holds the file it was meant for, and its record matches exactly when it is whole |
| `LeaseCounterexamples.ExclusionLost` | phase0/src/transactions.ts:456-484 | a run in which an owner alive at the first read lets two sessions in |
| `LeaseCounterexamples.ExclusionLostToOverlap` | phase0/src/transactions.ts:456-484 | a run in which two overlapping recoveries of a dead owner let two sessions in |
| `LeaseCounterexamples.LiveRecordDestroyed` | phase0/src/transactions.ts:553-557 | a run in which the clean-up destroys the record of a live session inside its callback |
| `Folding.Loop` | phase0/src/attestations.ts:836-969 | the loop over the events is the fold that stops at the first error |
| `Reduction.StepRefines` | phase0/src/attestations.ts:836-968 | one turn accepts an event if and only if the log so far allows it |
| `Reduction.RunRefinesHistory` | phase0/src/attestations.ts:836-968 | a log is accepted if and only if each event was allowed when it came, and the state then reads the log |
| `Refinement.RevokedStep` | phase0/src/attestations.ts:942-967 | a revocation is accepted if and only if the history shows active evidence of its level |
| `Refinement.OrganizationStep` | phase0/src/attestations.ts:886-907 | an approval is accepted if and only if the history shows fresh, unused, active grounds for it |
| `Refinement.RepositoryStep` | phase0/src/attestations.ts:849-885 | repository evidence is accepted if and only if the history shows it fresh and unused |
| `Refinement.OpenedStep` | phase0/src/attestations.ts:908-932 | a challenge is accepted if and only if its parties match and no resolution came before |
| `Refinement.ResolvedStep` | phase0/src/attestations.ts:933-941 | a resolution is accepted if and only if a challenge and no resolution came before |
| `Refinement.CutoffExact` | phase0/src/attestations.ts:869-875 | the stored cut-off stands for every earlier revocation, not only the last |
| `BaseConflicts.SeedConflicts` | phase0/src/attestations.ts:805-824 | the grouping loops compute the seeded conflicts |
| `BaseConflicts.SeedMapSeeds` | phase0/src/attestations.ts:805-824 | every clash has its conflict and every conflict comes from a clash |
| `BaseConflicts.ConflictIdInjective` | phase0/src/attestations.ts:747-750 | two pairs share a conflict identifier if and only if they are the same pair |
| `BaseConflicts.SeedsExact` | phase0/src/attestations.ts:805-824 | a pair has a conflict if and only if it has equal bytes under different wallets |
| `BaseConflicts.SeedsOrderIndependent` | phase0/src/attestations.ts:805-824 | the seeded conflicts do not depend on the order of the subjects |
| `AttestationIndex.SubjectMapExact` | phase0/src/attestations.ts:772-777 | a base is refused if and only if a subject is malformed or an identifier repeats |
| `AttestationIndex.ReadSubjects` | phase0/src/attestations.ts:772-777 | the loop computes the subject map or the first error |
| `AttestationIndex.MarkChallenged` | phase0/src/attestations.ts:977-983 | marks exactly the registrations that an open conflict names |
| `AttestationIndex.SortConflicts` | phase0/src/attestations.ts:997-999 | lists exactly the conflicts, strictly increasing by identifier |
| `AttestationIndex.ReduceAttestationEvents` | phase0/src/attestations.ts:758-1002 | answers the first error of its stages, or the index of the final state |
| `HistoryTheorems.AcceptedExactly` | phase0/src/attestations.ts:758-1002 | the reducer accepts if and only if trust and base are valid and each event was allowed |
| `HistoryTheorems.LevelsRefineHistory` | phase0/src/attestations.ts:971-976 | the published level says exactly which evidence no later revocation removed |
| `HistoryTheorems.RecordsRefineHistory` | phase0/src/attestations.ts:849-967 | a registration lists exactly the evidence and the revocations the log has for it, in order |
| `HistoryTheorems.OrganizationNeedsRepository` | phase0/src/attestations.ts:886-907 | organization evidence never outlives repository evidence |
| `HistoryTheorems.RegistrationsIndependent` | phase0/src/attestations.ts:849-967 | two published indexes whose logs have the same events about a registration publish the same of it, but for the conflicts it is in |
| `HistoryTheorems.RepositoryEvidenceFresh` | phase0/src/attestations.ts:869-875 | repository evidence is dated after every earlier repository revocation |
| `HistoryTheorems.ApprovalsFresh` | phase0/src/attestations.ts:894-901 | an approval is dated after every earlier revocation of either level |
| `HistoryTheorems.RepositoryCredentialsSingleUse` | phase0/src/attestations.ts:852-882 | statement hash, nonce, signature and forge observation are pairwise distinct over the log |
| `HistoryTheorems.ApprovalCredentialsSingleUse` | phase0/src/attestations.ts:890-904 | approval statement hashes and signatures are pairwise distinct over the log |
| `HistoryTheorems.ChallengesSingleUse` | phase0/src/attestations.ts:573-589 | no two accepted repository events carry the same signed content |
| `HistoryTheorems.ConflictsRefineHistory` | phase0/src/attestations.ts:908-941 | a conflict lists exactly its events, in order, and its outcome is that of its resolution |
| `HistoryTheorems.ConflictLifecycle` | phase0/src/attestations.ts:933-941 | a resolution is unique, preceded by a challenge and followed by none |
| `HistoryTheorems.ConflictParties` | phase0/src/attestations.ts:912-918 | every challenge to a conflict is between its two registrations |
| `HistoryTheorems.ConflictPartiesNeverChange` | phase0/src/attestations.ts:908-941 | the two registrations of a conflict are the same at every prefix of the log |
| `HistoryTheorems.ChallengedMeansOpenConflict` | phase0/src/attestations.ts:977-983 | a registration is challenged if and only if an open conflict names it |
| `LogClosure.PrefixesAccepted` | phase0/src/attestations.ts:836-969 | every prefix of an accepted log is accepted |
| `LogClosure.ClockMonotone` | phase0/src/attestations.ts:844-845 | a later clock, and a verifier that accepts no less, leave verdict and index unchanged |
| `LogClosure.DeadGuards` | phase0/src/attestations.ts:937-960 | two guards never fire in any run |
| `LogClosure.BaseOrderIndependent` | phase0/src/attestations.ts:758-1002 | permuting the base subjects changes nothing in the answer |
| `LogClosure.EmptyLogConflicts` | phase0/src/attestations.ts:805-824 | with no events the conflicts are exactly the clashing pairs |
| `LogClosure.EmptyLogOnlyPairs` | phase0/src/attestations.ts:805-824 | with no events every conflict comes from a clashing pair |
| `AppendLog.TornRejected` | phase0/src/attestation-store.ts:305-347 | a line cut short anywhere makes the log unloadable |
| `AppendLog.LoadAppended` | phase0/src/attestation-store.ts:305-347 | a whole line more is one entry more |
| `AppendLog.CanonicalLoads` | phase0/src/attestation-store.ts:205-213 | the printed log loads as exactly the entries printed |
| `AttestationStore.Store.WriteAll` | phase0/src/attestation-store.ts:70-80 | short writes, errors and death leave a prefix of the line; success writes all of it |
| `AttestationStore.Store.Append` | phase0/src/attestation-store.ts:173-215 | the file is the old log, the old log plus one line that loads, or bytes that do not load; nothing is written to a file whose text has changed; success exactly on canonical logs |
| `AttestationStore.AppendAll` | phase0/src/attestation-store.ts:173-215 | any sequence of appends leaves exactly the added entries, every acknowledged one among them, in order |
| `EventLog.ReadsWritten` | phase0/src/attestations.ts:479-543 | a printed event is read back if and only if the parser's checks accept it |
| `EventLog.EventCodecSound` | phase0/src/attestation-store.ts:246-260 | the reducer may judge the log: what it accepts prints on one line, reads back, and stays acceptable |
| `EventStore.AppendEvents` | phase0/src/attestation-store.ts:173-215 | from an empty file any sequence of appends leaves exactly the added events, or a torn log that never loads |
| `EventStore.SpacedLoads` | phase0/src/attestation-store.ts:305-347 | an accepted event after a space is a log that loads and is not canonical |
| `EventStore.AppendToSpaced` | phase0/src/attestation-store.ts:197-213 | appending to such a log writes the whole line and then fails |
| `EventStoreWitness.AppendSpoils` | phase0/src/attestation-store.ts:197-213 | a real trust base and two challenges for which that happens |
| `EventLog.AcceptedLater` | phase0/src/attestation-store.ts:246-260 | a candidate that validates at one time validates at every later time |
| `Utf8.DecodeEncode` | phase0/src/attestation-store.ts:197-201 | the decoder undoes the encoder on every string without lone surrogates |
| `Utf8.DecodeLines` | phase0/src/attestation-store.ts:305-347 | decoding works line by line, whatever bytes the lines hold |
| `Utf8.EncodeLine` | phase0/src/attestation-store.ts:199-201 | a final line feed is encoded on its own |
| `Utf16.Compare` | phase0/src/attestations.ts:170-172 | zero, negative or positive exactly as ordinal order says |
| `Utf16.SortCanonical` | phase0/src/attestations.ts:646-661 | sorted lists are equal if and only if the lists are permutations |
| `Utf16.DecimalTextRoundTrip` | phase0/src/demo.ts:334-371 | canonical decimal text survives BigInt and back |
| `Attestations.SubjectEquals` | phase0/src/attestations.ts:545-552 | field-by-field comparison is equality |
| `Json.ParsesRendered` | phase0/src/attestation-git.ts:221-244 | the JSON parser gives back every printed value, whatever white space follows |
| `Records.FieldsInOrderOfPrinted` | phase0/src/attestation-git.ts:228-234 | a printed object is read back key by key, in order, with no key repeated or missing |
| `Records.ReadsChallenge` | phase0/src/attestations.ts:393-425 | the challenge reader gives back every printed challenge |
| `Json.RenderPrefixFree` | phase0/src/attestations.ts:642-644 | no JSON text is the beginning of another reading |
| `Json.RenderClean` | phase0/src/attestations.ts:642-644 | JSON text has no control unit and no unpaired surrogate |
| `Statements.StatementsInjective` | phase0/src/attestations.ts:554-690 | two payloads share a signed statement if and only if they say the same, lists up to order |
| `Terminal.QuoteTerminalText` | phase0/src/terminal.ts:8-40 | the loop writes each unit's piece, surrogate pairs whole |
| `Terminal.TerminalRoundTrip` | phase0/src/terminal.ts:8-40 | a reader recovers every input |
| `Terminal.TerminalInjective` | phase0/src/terminal.ts:8-40 | two inputs share an output if and only if they are equal |
| `Terminal.TerminalSafe` | phase0/src/terminal.ts:8-40 | no control, bidi or separator unit and no unpaired surrogate gets out |
| `Terminal.NoUnescapedInnerQuote` | phase0/src/terminal.ts:8-40 | the literal closes at its last unit and not before |
| `ChallengeFile.ParseExact` | phase0/src/attestation-git.ts:193-244 | bytes parse to a signed challenge if and only if they are its printed form and it carries its own statement hash |
| `ChallengeFile.ParseAfterPrint` | phase0/src/attestation-git.ts:193-244 | a printed challenge parses back, exactly when it carries its own statement hash |
| `ChallengeFile.FilesInjective` | phase0/src/attestation-git.ts:193-219 | signed challenges and their files determine each other |
| `ChallengeFile.OnlyItsOwnFile` | phase0/src/attestation-git.ts:347-399 | an event verifies against the one file its content prints |
| `ChallengeFile.VerifiesLater` | phase0/src/attestation-git.ts:347-399 | the passing of time never invalidates verified evidence |
| `ChallengeFile.ReverifiesLater` | phase0/src/attestation-git.ts:401-443 | evidence accepted once is accepted at every later time on an unchanged snapshot |
| `ChallengeFile.ArtifactInTrustedHistory` | phase0/src/attestation-git.ts:384-397 | the artifact commit is an ancestor of the trusted ref and holds the registered bytes |
| `ChallengeFile.IndexLasts` | phase0/src/attestation-git.ts:428-443 | the whole evidence index stays the same as time passes |

## Left out

- Cryptography: keccak256, SHA-256, Ed25519, signature recovery and key parsing are uninterpreted.
- JavaScript object hygiene: prototypes, accessors, own keys, freezing and the snapshots of trust maps.
- Operating-system plumbing: file modes, owners, `O_NOFOLLOW`, seed hardening and the pinning of devices and inodes.
- Git as a subprocess: commits, refs, blobs and the origin are a value, and ancestry is reachability in it.
- The Story SDK, RPC transport and the decoding of event logs: receipts arrive decoded, and what a prepared transaction encodes is not modelled.
- The CLI, configuration loading, funding reports and error messages.
- Wall-clock effects of the lease files: host names and start times are not compared.
- `JournalProtocol.Trail`: a history starts with empty files; journals and manifests edited by hand are outside it.
- `DurableStore.Store.SaveJournal`: treats a lost lease, like a failed call of the operating system, as an interruption that may come before or after the write; who holds the lease is the subject of `Lease`.
- `Json.ParseJson`: refuses texts with `true`, `false`, `null`, a sign, a fraction or an exponent anywhere, which `JSON.parse` reads; no field of a record or an event accepts such a value, except that the source reads numbers like `1.0` and `1e0` as 1. A challenge file is compared byte for byte with what is printed, and the printed form is read here (`ChallengeFile.DecodesFile`), so a wider parser would accept no other file.
- `RunDemo.RunDemo`: runs the collection, root and derivative stages as separate methods where the source has one function body; the three skill definitions are a function of the stage, so a list of the wrong length cannot be stated.
- `Registrations.Lower`: lower-cases ASCII letters only, which is all that addresses and hashes contain.
- `EventLog.EventCodecSound`: prints an event with its keys in the declared order, where the source keeps the order of the object it was given; keys are read in any order.
- `AttestationStore.Store.Append`: lets another writer change the file once, between validation and append, which is what the source checks for; a writer that ignores the lock during the write itself is left out.
- `Platform.ValidTrust`: checks the contents of the two trust maps, not how they are stored.
- `displayAttestation`, `registrationSubjectsFromManifest`: each is one lookup or one copy.
