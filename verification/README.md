# TGRAM memory engines: a Dafny model

This project models the stateful memory engines of TGRAM (package `rlmgraph`) and proves what they
guarantee over whole runs. Code that computes is written as functions; code that changes state
step by step is written as classes and loops, each proved against a specification function, and the
properties are lemmas about those functions and about all runs of them.

* **Claim evidence ledger** (`LedgerData`, `Merkle`, `LedgerAssessment`, `LedgerRuns`,
  `LedgerInvariant`, `LedgerTheorems`, `LedgerCalls`, `LedgerOrder`, `LedgerIntegrity`, `LedgerTamper`,
  `LedgerReplacement`, `LedgerChecks`, `Ledger`). Append-only tables
  of claims, evidence, supersessions, envelopes and hash-chained events; an assessment derived from the
  rows, the keys and files that may change between calls; the full integrity check. SHA-256 (FIPS 180-4)
  and HMAC (RFC 2104) are symbolic: injective constructors, with leaf and inner Merkle inputs apart.
* **Governed memory** (`Normalization`, `GraphData`, `Conflicts`, `DependencyValidity`,
  `Consolidation`, `PromotionGates`, `Provenance`, `MemorySafety`, `MemoryRevival`). Contradictions and interpretations,
  promotion of episodes to semantic and procedural memories, re-validation against the repository, and
  the propagation of invalidity over a dependency graph that may be cyclic.
* **Conversation memory** (`ConversationFacts`, `FactRefinement`, `FactLog`, `FactChanges`,
  `FactRetries`, `FactOrder`, `FactCommits`, `FactHistory`, `FactSupport`, `RetryRuns`, `RetryExamples`, `Dialogue`,
  `EpisodicRecall`, `EpisodicOrder`, `MemoryInterpreter`). The fact log through any history of commits, hidings and retries,
  and two retrievals that fill a character budget greedily.
* **Authority and autonomy** (`Base64Url`, `Authority`, `Deliberation`, `DeliberationRuns`,
  `TicketRunner`, `TicketRuns`, `TicketTermination`, `TicketLoop`). Signing keys and session tokens,
  bounded deliberation, and the ticket runner as interleaved steps of callers, workers and other code.

`Wrappers`, `Lists`, `PlainText`, `Ordering` and `Sorting` hold shared definitions.

Properties that the code has only up to a limit are stated with the exact limit:

* Equal Merkle roots always mean equal sets of evidence records. Equal sets mean equal roots when no id
  is repeated, and can fail to otherwise (`Merkle.RepetitionCanChangeRoot`).
  `Merkle.EqualRootsMeanEqualPaddedRecords` says exactly when two lists share a root.
* The integrity check accepts any tables in place of a run's exactly when each row passes its own checks
  and the evidence shows the same broken artifacts (`LedgerReplacement.TamperingIsInvisibleExactly`). Claim
  rows, and evidence rows that an event lists as eligible, are thereby fixed; the reason of a supersession,
  the claim column of an envelope and other evidence rows are not. The check holds no head hash, so cutting
  off a suffix of a claim's events passes, and so does a head rewritten and hashed anew. That a head fixes
  the list before it (`LedgerTamper.HeadDeterminesHistory`) helps only someone who keeps the head hash
  elsewhere.
* Every CURRENT procedure of a synchronized store rests on enough CURRENT independent episodes, whatever the
  run. That a key has at most one CURRENT semantic memory, and at most one CURRENT procedure, holds as long
  as nothing stale is made CURRENT again. A sweep that finds source files restored does that:
  `MemoryRevival.RevivalCanBreakUniqueness` is a run from the empty store that ends with two memories that
  disagree, and `MemoryRevival.RivalsExactlyWhenRevived` says, for every run, exactly when a sweep and a
  synchronization leave two.
* One active fact a key holds when retraction undoes the scope's latest turn. A retried answer is hidden
  beneath its replacement, which is then committed once more. For any history, whatever is hidden or
  retried, `FactHistory.ActiveFactsStand` says which facts are active: those of the visible turns that
  recorded the key and that no visible turn superseded. Where only latest turns are retracted or retried
  every key shows the latest value, and `RetryRuns.RetriesShowTheLatest` says exactly which keys keep a
  second active fact. `RetryExamples.RetryCanLeaveTwo` is such a retry, and
  `RetryExamples.ProfileRetryCanLeaveTwo` one beneath another session's turn.
* The verbatim budget of `reconstruct` can be exceeded (`MemoryInterpreter.VerbatimCanExceed`), exactly when
  a kept record's answer is cut, and then by the length of the truncation marker
  (`MemoryInterpreter.ExcerptsAreBudgeted`). It can quote a turn twice exactly when the session's last two
  turns share an id and both fit (`MemoryInterpreter.NoTurnIsQuotedTwice`).
* Anchors of the retrieved dialogue are considered by rank, but an anchor next to a better one has its place
  with that one (`EpisodicOrder.AnchorsGoByRankExactly`).
* A deliberation that opens nothing still consumes the session's decision budget
  (`DeliberationRuns.EveryDeliberationIsCharged`).

## Model

| member | source | states |
|---|---|---|
| `Merkle.ComputeParents` | src/rlmgraph/claim_evidence_ledger.py:194-200 | one level of the root computation: an odd level is padded with its last node, then neighbours are hashed in pairs |
| `Merkle.ComputeMerkleRoot` | src/rlmgraph/claim_evidence_ledger.py:187-201 | the in-place loop over the sorted leaves computes the recursive Merkle root |
| `Merkle.EqualRootsMeanEqualRecords` | src/rlmgraph/claim_evidence_ledger.py:187-201 | equal roots always mean equal sets of records, whatever order and height; with distinct ids equal sets mean equal roots |
| `Merkle.EqualRootsMeanEqualPaddedRecords` | src/rlmgraph/claim_evidence_ledger.py:187-201 | for all record lists: equal roots exactly when the sorted lists, each padded out to a power of two, are one list |
| `Merkle.RepetitionCanChangeRoot` | src/rlmgraph/claim_evidence_ledger.py:193-201 | with a repeated id equal sets can have different roots: x, x, y against x, y |
| `Merkle.RootDeterminesLevel` | src/rlmgraph/claim_evidence_ledger.py:193-201 | two levels of distinct digests of one height with equal roots are equal, despite padding |
| `Merkle.RepeatedLastRecordKeepsRoot` | src/rlmgraph/claim_evidence_ledger.py:195-196 | the root does not fix the list: repeating the last record of an odd list keeps it |
| `LedgerAssessment.LevelMeaning` | src/rlmgraph/claim_evidence_ledger.py:603-620 | what each evidence level means: REPLICATED exactly with two independent passing tests, and so on down |
| `LedgerAssessment.AgentReportsPromoteNothing` | src/rlmgraph/claim_evidence_ledger.py:603-638 | an agent report changes neither level nor rejection |
| `LedgerAssessment.LevelIsMonotone` | src/rlmgraph/claim_evidence_ledger.py:603-638 | more eligible evidence never lowers the level and never undoes a rejection |
| `Ledger.ClaimEvidenceLedger.Propose` | src/rlmgraph/claim_evidence_ledger.py:373-401 | the call's result, its error cases and the whole new state equal those of the step function; a refused call changes nothing |
| `Ledger.ClaimEvidenceLedger.AppendEvidence` | src/rlmgraph/claim_evidence_ledger.py:403-432 | the same for evidence: validation, unknown claims, duplicate payloads, insertion and event |
| `Ledger.ClaimEvidenceLedger.Authenticate` | src/rlmgraph/claim_evidence_ledger.py:434-491 | the same for sealing a REPLICATED and ACTIVE claim |
| `Ledger.ClaimEvidenceLedger.Supersede` | src/rlmgraph/claim_evidence_ledger.py:493-536 | the same for supersession |
| `Ledger.ClaimEvidenceLedger.AppendEvent` | src/rlmgraph/claim_evidence_ledger.py:730-776 | the appended event links to the claim's last event and records the assessment |
| `Ledger.ClaimEvidenceLedger.VerifyIntegrity` | src/rlmgraph/claim_evidence_ledger.py:778-902 | the error list accumulated over the five tables equals the specification's list, in order |
| `LedgerInvariant.CallKeepsInv` | src/rlmgraph/claim_evidence_ledger.py:373-536 | every call keeps rows, chains and event counts in order, and only extends the tables |
| `LedgerInvariant.AcceptedCallRecords` | src/rlmgraph/claim_evidence_ledger.py:373-536 | an accepted call either changes nothing or adds one row and one event holding the assessment of the new tables |
| `LedgerInvariant.Run` | src/rlmgraph/claim_evidence_ledger.py:373-536 | the invariant holds after every run of calls from an empty ledger, with any files and keys in each call |
| `LedgerIntegrity.IntegrityReportsExactlyBrokenArtifacts` | src/rlmgraph/claim_evidence_ledger.py:778-902 | after every run the check reports one error for each evidence row whose artifact no longer matches, and nothing else |
| `LedgerTheorems.AuthenticatedExactlyWhenSealed` | src/rlmgraph/claim_evidence_ledger.py:589-728 | after every run, under any files and keys, AUTHENTICATED exactly when some stored envelope signs, under a key now held, exactly what the claim now shows; and then the claim is REPLICATED and ACTIVE |
| `LedgerTheorems.UnsealedEvidenceIsUnauthenticated` | src/rlmgraph/claim_evidence_ledger.py:669-715 | if no envelope signed the current eligible evidence, the claim is unauthenticated |
| `LedgerTheorems.RestoredEvidenceIsAuthenticatedAgain` | src/rlmgraph/claim_evidence_ledger.py:669-715 | restoring the same eligible evidence under the same keys restores authentication |
| `LedgerTheorems.LevelAndDispositionOnlyAdvance` | src/rlmgraph/claim_evidence_ledger.py:589-646 | with files fixed, a claim's level never falls and its disposition only advances |
| `LedgerTheorems.SupersededForever` | src/rlmgraph/claim_evidence_ledger.py:493-536 | SUPERSEDED and its replacement stay, whatever happens to files and keys |
| `LedgerTheorems.RunsExtend` | src/rlmgraph/claim_evidence_ledger.py:373-536 | the tables of every prefix of a run are contained in those of the run |
| `LedgerTheorems.OtherClaimsAreUntouched` | src/rlmgraph/claim_evidence_ledger.py:373-540 | a call about one claim changes neither assessment nor events of another |
| `LedgerTheorems.LastEventEqualsAssess` | src/rlmgraph/claim_evidence_ledger.py:538-540 | after any run, an accepted call that changes the tables leaves a last event that equals what `assess` returns, and so it stays through any later calls that see, about that claim, the same files and keys |
| `LedgerTheorems.ReplayAddsNothing` | src/rlmgraph/claim_evidence_ledger.py:373-536 | repeating an accepted call under the same files and keys is accepted, adds nothing and returns the same assessment |
| `LedgerTheorems.ResultIsAssessment` | src/rlmgraph/claim_evidence_ledger.py:373-536 | what an accepted call returns is the assessment of the tables it leaves |
| `LedgerOrder.AppendsInAnyOrder` | src/rlmgraph/claim_evidence_ledger.py:403-432 | any list of appends of different evidence may be made in any order, with any files seen by each: all are accepted and the rows are the same |
| `LedgerTheorems.RowsDetermineAssessment` | src/rlmgraph/claim_evidence_ledger.py:589-667 | the assessment depends on the rows only, not on the events or the order of appending |
| `LedgerTheorems.EventIdsAreUnique` | src/rlmgraph/claim_evidence_ledger.py:730-776 | no two events of a run share an id |
| `LedgerTheorems.EventCountIsRowCount` | src/rlmgraph/claim_evidence_ledger.py:730-776 | a claim has one event for its proposal, each evidence row, each envelope and its supersession |
| `LedgerCalls.EligibleExactly` | src/rlmgraph/claim_evidence_ledger.py:565-602 | after every run, under any files and keys: evidence is eligible exactly when it was appended for the claim, its artifact is at the stored path with the stated digest, source manifest and policy are the claim's, and for tests and counterevidence the test is the one the claim requires |
| `LedgerCalls.LevelExactly` | src/rlmgraph/claim_evidence_ledger.py:603-620 | after every run: REPLICATED, TESTED and OBSERVED in terms of what was appended and is eligible now |
| `LedgerCalls.DispositionExactly` | src/rlmgraph/claim_evidence_ledger.py:622-667 | after every run: superseded exactly by the claim an accepted call named, rejected exactly by eligible failed counterevidence, and what is displayed |
| `LedgerCalls.AuthenticatedExactly` | src/rlmgraph/claim_evidence_ledger.py:669-728 | after every run: AUTHENTICATED exactly when the claim is not superseded and an accepted call authenticated it while the same evidence was eligible, under a key still held with the same secret |
| `LedgerCalls.UnauthenticatedExactly` | src/rlmgraph/claim_evidence_ledger.py:669-728 | UNAUTHENTICATED exactly when the claim is superseded or no accepted call authenticated it while the same evidence was eligible, so INVALID means a key that is gone or changed |
| `LedgerCalls.ProposalAcceptedExactly` | src/rlmgraph/claim_evidence_ledger.py:373-401 | after every run a proposal is accepted exactly when its fields are filled and nothing else was proposed under its id |
| `LedgerCalls.AppendAcceptedExactly` | src/rlmgraph/claim_evidence_ledger.py:403-432 | evidence is accepted exactly when its fields are filled as its kind asks, its artifact is there, its claim was proposed and nothing else was appended under its id |
| `LedgerCalls.AuthenticationAcceptedExactly` | src/rlmgraph/claim_evidence_ledger.py:434-491 | an authentication is accepted exactly under a held key, for a proposed claim that is neither superseded nor refuted and has two eligible passing tests of different independence keys |
| `LedgerCalls.SupersessionAcceptedExactly` | src/rlmgraph/claim_evidence_ledger.py:493-536 | a supersession is accepted exactly with a reason, between two different proposed claims, unless another was recorded |
| `LedgerTamper.HeadDeterminesHistory` | src/rlmgraph/claim_evidence_ledger.py:847-893 | two event lists of a claim that pass the chain checks and end in the same hash are equal; the check itself keeps no such hash |
| `LedgerTamper.OnlyTruncationsShareAHead` | src/rlmgraph/claim_evidence_ledger.py:847-893 | a passing list contains another's head exactly when that list is a prefix of it |
| `LedgerTamper.CleanListPasses` | src/rlmgraph/claim_evidence_ledger.py:847-893 | a list in which the integrity check finds no error passes every chain check |
| `LedgerTamper.ReplacementIsInvisibleExactly` | src/rlmgraph/claim_evidence_ledger.py:778-902 | the limit of detection: replacing a claim's events by any list leaves the report as it was exactly when every row of the list passes its chain and inventory checks at its place |
| `LedgerTamper.TruncationIsInvisible` | src/rlmgraph/claim_evidence_ledger.py:778-902 | one such list: any prefix of the claim's events |
| `LedgerTamper.RehashedHeadIsInvisible` | src/rlmgraph/claim_evidence_ledger.py:778-902 | another, which is no prefix: the last event with any level, disposition and display, its hash and id computed anew |
| `LedgerReplacement.TamperingIsInvisibleExactly` | src/rlmgraph/claim_evidence_ledger.py:778-902 | for all five tables at once: any tables give the report of a run's tables exactly when each of their rows passes its own checks and every evidence id shows the same error as before |
| `LedgerReplacement.ClaimRowLimit` | src/rlmgraph/claim_evidence_ledger.py:804-807 | a replaced claim row leaves the report as it was only if it is the same row |
| `LedgerReplacement.EvidenceRowLimit` | src/rlmgraph/claim_evidence_ledger.py:808-824 | the same of an evidence row that some event lists as eligible; any other may be replaced by a row with the same error or none |
| `LedgerReplacement.SupersessionRowLimit` | src/rlmgraph/claim_evidence_ledger.py:825-838 | a supersession row may be replaced or added exactly by one that is hashed and names its claim and replacement, whatever the reason |
| `LedgerReplacement.EnvelopeRowLimit` | src/rlmgraph/claim_evidence_ledger.py:839-845 | a listed envelope row may change in its claim column only |
| `LedgerChecks.EventsPassExactly` | src/rlmgraph/claim_evidence_ledger.py:847-893 | a claim's events pass the check exactly when each is hashed, follows the one before it, and is about its claim's own row and its own evidence, which hashes to the recorded root |
| `LedgerChecks.RowChecksExactly` | src/rlmgraph/claim_evidence_ledger.py:804-845 | a claim, evidence or envelope row passes exactly when it is hashed, and evidence has its artifact |
| `Normalization.NormalizeIsIdempotent` | src/rlmgraph/conflicts.py:8-9 | normalizing twice is normalizing once |
| `Normalization.TokensUndoJoin` | src/rlmgraph/conflicts.py:8-9 | tokenising a joined list of tokens gives the list back |
| `Normalization.NormalizeComparesTokens` | src/rlmgraph/conflicts.py:8-9 | equal normal forms exactly when the lower-cased token lists are equal |
| `Normalization.LowerIsIdempotent` | src/rlmgraph/conflicts.py:8-9 | lower-casing twice is lower-casing once, so letter case never matters to the normal form |
| `Normalization.LowerExactly` | src/rlmgraph/conflicts.py:8-9 | which characters lower-casing changes, and into what |
| `Normalization.TokensKeepCharacters` | src/rlmgraph/conflicts.py:8-9 | the tokens are the small letters, digits and underscores of the text, all of them in order |
| `Normalization.OthersSeparate` | src/rlmgraph/conflicts.py:8-9 | any other character separates tokens |
| `Conflicts.DetectConflicts` | src/rlmgraph/conflicts.py:12-36 | the nested loops report exactly the specified list of conflicts, in order |
| `Conflicts.ClusterInterpretations` | src/rlmgraph/conflicts.py:39-74 | the dictionary of groups, and the corroborated and outlier ids drawn from it |
| `Conflicts.ConflictCluster.Rebuild` | src/rlmgraph/conflicts.py:77-92 | the cluster's fields are overwritten by the groups of the claims and their ids |
| `Conflicts.GroupsAreOk` | src/rlmgraph/conflicts.py:39-74 | groups have different normalized values, no repeated ids, and hold exactly the claims asserting their value |
| `Conflicts.InterpretationsPartitionClaims` | src/rlmgraph/conflicts.py:39-74 | a claim with a value for the key is in exactly one interpretation, any other in none |
| `Conflicts.CorroboratedAndOutliersSplitIds` | src/rlmgraph/conflicts.py:62-74 | corroborated and outlier ids together are the cluster's ids, each once |
| `Conflicts.CorroboratedAndOutliersBySize` | src/rlmgraph/conflicts.py:62-74 | an id is corroborated exactly when its interpretation has more than one claim |
| `Conflicts.ConflictsAreOtherInterpretations` | src/rlmgraph/conflicts.py:12-74 | a conflict with an existing claim is reported for a key exactly when the two claims fall into different interpretations of it |
| `Conflicts.ConflictMeansOtherValue` | src/rlmgraph/conflicts.py:12-36 | the same, in terms of the two asserted values |
| `DependencyValidity.SynchronizeDependencyValidity` | src/rlmgraph/consolidation.py:306-349 | the loop terminates on every finite graph, ends settled with only the allowed changes, each claim that became stale naming stale sources only, and changes nothing when run again |
| `DependencyValidity.Pass` | src/rlmgraph/consolidation.py:310-349 | a pass that changes something leaves less unsettled; a pass that changes nothing means settled |
| `DependencyValidity.TaintIsTheLeastFixpoint` | src/rlmgraph/consolidation.py:306-349 | the claims that reach a stale one form the least set closed under derivation |
| `DependencyValidity.StaleExactlyWhenTainted` | src/rlmgraph/consolidation.py:306-349 | a claim ends non-CURRENT exactly when it started so or reached such a claim through known sources; lifecycle agrees with validity |
| `DependencyValidity.SynchronizedExactly` | src/rlmgraph/consolidation.py:320-349 | the lifecycle of every derived claim afterwards, and all that a claim that became stale records; nothing else changes |
| `DependencyValidity.OrderDoesNotMatter` | src/rlmgraph/consolidation.py:306-349 | final validity and lifecycle do not depend on the order of the claims |
| `Consolidation.GovernedMemoryConsolidator.EvaluateEpisodic` | src/rlmgraph/consolidation.py:39-207 | every decision of the gates and the claims written, for each assertion of the trigger in turn |
| `Consolidation.GovernedMemoryConsolidator.EvaluateProcedural` | src/rlmgraph/consolidation.py:209-304 | the gate's decision and the procedure written |
| `PromotionGates.SemanticGateExactly` | src/rlmgraph/consolidation.py:39-207 | row by row: when the gate opens; the ids, support and mean confidence every decision reports; and the memory made, whose confidence is the mean of the accepted episodes and which marks exactly them |
| `PromotionGates.ReasonExactly` | src/rlmgraph/consolidation.py:85-127 | the order of refusal: known already, by the first such memory, then contradicted, then too little support |
| `PromotionGates.ProceduralGateExactly` | src/rlmgraph/consolidation.py:209-304 | when the second gate opens, what its decision reports, and the procedure made, as confident as its memory |
| `PromotionGates.SavedFields` | src/rlmgraph/provenance.py:117-155 | what saving under a task makes of a claim: CURRENT, an episode rather than working memory, with the task's sources added, and its own root, task and history if it has them |
| `Provenance.Revalidate` | src/rlmgraph/supervisor.py:171-186 | the sweep records each claim's verdict in its row and leaves the other rows alone |
| `Provenance.VerdictIsRecorded` | src/rlmgraph/provenance.py:195-214 | after recording, a claim is CURRENT exactly when the verdict says valid, and recording the verdict again changes nothing |
| `Provenance.VerdictExactly` | src/rlmgraph/provenance.py:195-214 | a claim becomes CURRENT if valid, else SUPERSEDED if it was replaced, else INVALIDATED; that is noted in its history exactly when the status or the reason is another than before |
| `Provenance.ReplacementIsNoted` | src/rlmgraph/provenance.py:217-230 | a replaced claim is SUPERSEDED by the named one, and its history says so |
| `MemorySafety.RunKeepsInv` | src/rlmgraph/consolidation.py:39-349 | over every run of saving, sweeping, superseding, reusing, evaluating and synchronizing, whatever it revives: ids stay distinct, episodes single-valued, and memories keep their support |
| `MemorySafety.SteadyRunKeepsRivals` | src/rlmgraph/consolidation.py:39-349 | over every run in which nothing stale becomes CURRENT again, CURRENT rivals of one tier, root and key have a stale source, and procedures no rivals |
| `MemorySafety.AtMostOneCurrentSemanticMemory` | src/rlmgraph/consolidation.py:39-207 | in such runs, after every synchronization, at most one CURRENT semantic memory a project root and normalized key |
| `MemorySafety.AtMostOneCurrentProcedure` | src/rlmgraph/consolidation.py:209-304 | in such runs at most one CURRENT procedure a project root and key, in every state |
| `MemorySafety.CurrentProcedureIsGrounded` | src/rlmgraph/consolidation.py:61-349 | in every run, revivals included, a CURRENT procedure of a synchronized state rests, through a CURRENT semantic source, on different CURRENT confident episodes of at least the minimum of tasks, and its confidence is the mean of theirs |
| `MemorySafety.MemoryIsTheMean` | src/rlmgraph/consolidation.py:161-207 | in every run a semantic memory's confidence is the mean of those of different episodes that back it, from enough tasks |
| `MemorySafety.ConfidenceStaysInRange` | src/rlmgraph/consolidation.py:161-304 | in every run memories and procedures are as confident as episodes are, within any bounds, and at least as the policy asks of an episode |
| `MemoryRevival.RivalsExactlyWhenRevived` | src/rlmgraph/provenance.py:195-214 | in every run and for every tier, a sweep and a synchronization leave two memories of one root and key CURRENT together exactly when every claim either leads to, seen from the state before the sweep, was found valid if it was stale and not found invalid if it was not |
| `MemoryRevival.RevivalCanBreakUniqueness` | src/rlmgraph/supervisor.py:171-186 | a run of eight steps from the empty store: a source file changes, another episode says something else, the file is restored, and two CURRENT memories of one key disagree |
| `ConversationFacts.FactStore.SaveFact` | src/rlmgraph/store.py:666-672 | a fact is appended, or replaces the row of its id |
| `ConversationFacts.FactStore.Commit` | src/rlmgraph/conversation_memory.py:556-596 | the loop over a turn's candidates, with both dictionaries, computes the specified log |
| `ConversationFacts.FactStore.CommitCandidate` | src/rlmgraph/conversation_memory.py:573-595 | one candidate confirms the indexed fact of its key or supersedes it |
| `FactRefinement.AddedFactHolds` | src/rlmgraph/conversation_memory.py:684-695 | adding a fact that supersedes the one active fact of its key makes it the one active fact, and leaves other keys alone |
| `FactRefinement.ConsolidatedCores` | src/rlmgraph/conversation_memory.py:573-595 | a repetition changes no id, key, value, confidence, source or supersession; a new value adds exactly one fact |
| `FactSupport.RepetitionJoins` | src/rlmgraph/conversation_memory.py:573-582 | a value said again adds its turn to the indexed fact, keeping the last eight, unless it comes from that turn or was added before, and changes nothing else |
| `FactSupport.FactsAreSupported` | src/rlmgraph/conversation_memory.py:573-582 | after every history each fact has at most eight supporting turns, all different and none its own |
| `ConversationFacts.FactStore.Retract` | src/rlmgraph/observer_chat.py:1266-1267 | superseding a turn hides its facts and changes nothing else |
| `FactRetries.CommitAgain` | src/rlmgraph/conversation_memory.py:573-595 | committing from any index, whatever is active: the added facts of a key form one chain from the indexed fact, there are some exactly when a statement gives another value, and the index ends with the value stated last |
| `FactRetries.CommitLays` | src/rlmgraph/conversation_memory.py:556-596 | the same for a commit on a log: for each key the new facts supersede the indexed one only, and one of them caps the others |
| `FactRetries.TwoOver` | src/rlmgraph/conversation_memory.py:684-695 | facts laid over visible ones leave two active for a key exactly when two were active, or when they supersede none of the key's active ones |
| `FactOrder.IndexIsTop` | src/rlmgraph/conversation_memory.py:563-570 | of several active facts of a key the dictionary holds that of the latest turn |
| `FactHistory.HistoryIsRemembered` | src/rlmgraph/conversation_memory.py:556-596 | over every history of commits, hidings in any order and retries of any turn, the log keeps for each key and visible turn what that turn recorded and on which turn's fact |
| `FactHistory.ActiveFactsStand` | src/rlmgraph/conversation_memory.py:684-695 | after every history the active facts of a key are those of the turns that stand for it: each such turn has exactly one, with the value it stated last, and no other turn has any |
| `FactHistory.TwoActiveExactly` | src/rlmgraph/observer_chat.py:1250-1280 | after every history a key has two active facts exactly when two turns stand for it |
| `FactHistory.IndexHoldsSaid` | src/rlmgraph/conversation_memory.py:563-575 | after every history the dictionary and an active fact hold what the latest visible recorder of the key stated; a key nobody recorded has none |
| `FactHistory.RetractionRestores` | src/rlmgraph/conversation_memory.py:684-695 | after every history, hiding the turn just committed restores the scope's active facts, confirmations aside |
| `FactHistory.OnlyRepetitionChangesNothing` | src/rlmgraph/conversation_memory.py:573-582 | after every history a turn leaves the active facts as they were exactly when it gives no key a value other than the one said |
| `RetryRuns.ActiveFactsAreTheLatest` | src/rlmgraph/conversation_memory.py:556-695 | over every history without retries whose retractions are of a scope's latest turn, a key has exactly one active fact, a single row of the log, holding the latest unretracted value up to case, or none if none was stated |
| `RetryRuns.RecordsWhatItChanges` | src/rlmgraph/conversation_memory.py:573-582 | after every such history a turn records a key exactly when it gives it, at some point of the turn, a value other than the latest one up to letter case |
| `RetryRuns.HidingBeneathLeavesTwo` | src/rlmgraph/observer_chat.py:1261-1268 | once the replaced turn is hidden and before the second commit, a key has two active facts exactly when it had two beneath that turn, or it had a value, the hidden turn changed it and its replacement changed it again |
| `RetryRuns.RetriesShowTheLatest` | src/rlmgraph/observer_chat.py:1250-1280 | after any history whose retractions and retries are of a scope's latest turn, a key shows the latest unretracted value, in an active fact and in the dictionary; it has a second active fact exactly when some unretracted turn replaced another, the key had a value before both, the replaced turn changed it and the replacement changed it again |
| `RetryExamples.RetryCanLeaveTwo` | src/rlmgraph/observer_chat.py:1250-1275 | a message read as one objective, and as another when retried, leaves two active objectives |
| `RetryExamples.ProfileRetryCanLeaveTwo` | src/rlmgraph/observer_chat.py:1250-1275 | retrying a session's latest turn after another session of the profile spoke leaves two active facts, though both replaced and replacing turn changed the key only once |
| `EpisodicRecall.RankedIsRanking` | src/rlmgraph/episodic_recall.py:60-71 | the ranking lists exactly the turns sharing a term with the query, from best to worst |
| `EpisodicRecall.AnchorsAreTheBestMatches` | src/rlmgraph/episodic_recall.py:60-80 | at most four anchors; a matching turn is passed over only for a better anchor with the same message or for four better ones |
| `EpisodicRecall.ChooseAnchors` | src/rlmgraph/episodic_recall.py:73-80 | the loop with its early exit chooses the specified anchors |
| `EpisodicRecall.OfferTurns` | src/rlmgraph/episodic_recall.py:81-89 | anchors with their neighbours, then the session backwards, each turn once |
| `EpisodicRecall.OfferedExactly` | src/rlmgraph/episodic_recall.py:81-89 | offered exactly: anchors, their same-session neighbours, and the current session's turns |
| `EpisodicRecall.FillBudget` | src/rlmgraph/episodic_recall.py:90-110 | the greedy loop with its early exit computes the specified selection |
| `EpisodicRecall.EpisodesAreBounded` | src/rlmgraph/episodic_recall.py:50-111 | at most twelve distinct unsuperseded turns in index order, whole user messages, prefix answers, within the budget; at most one answer is cut, and then the budget is used up |
| `EpisodicRecall.EpisodesAreMaximal` | src/rlmgraph/episodic_recall.py:90-110 | a turn that may be offered and fits what is left is missing only if there are twelve turns or no room |
| `EpisodicRecall.PassedOverIsLonger` | src/rlmgraph/episodic_recall.py:94-97 | a turn passed over is longer than every excerpt taken after it |
| `EpisodicRecall.RetrieveEpisodes` | src/rlmgraph/episodic_recall.py:50-111 | the whole retrieval returns the excerpts of the specified selection |
| `EpisodicOrder.EpisodesAreGreedy` | src/rlmgraph/episodic_recall.py:60-111 | the result, turn by turn: anchors by rank, each with its neighbours, then the session's other turns from the latest on; a turn is returned exactly when there is a place and room for its message beside those before it, with as much of the answer as then fits |
| `EpisodicOrder.BestMatchIsReturned` | src/rlmgraph/episodic_recall.py:60-111 | the best match is returned whenever the budget takes its message |
| `EpisodicOrder.NearIsMissingForRoom` | src/rlmgraph/episodic_recall.py:81-99 | an anchor or a neighbour of one is missing only if twelve such turns were taken or they leave no room |
| `EpisodicOrder.LatestTurnsGoFirst` | src/rlmgraph/episodic_recall.py:87-99 | of two other turns of the session the earlier is returned without the later only if the later's message did not fit when considered |
| `EpisodicOrder.AnchorsGoByRankExactly` | src/rlmgraph/episodic_recall.py:81-86 | anchors are considered by rank, except exactly when the lower one is a neighbour of an anchor better than both |
| `MemoryInterpreter.SelectedAreBest` | src/rlmgraph/conversation_interpreter.py:75-97 | the selected records are the best scored ones, as many as the slice by the limit takes, a negative limit included |
| `MemoryInterpreter.MeaningHolds` | src/rlmgraph/conversation_interpreter.py:75-82 | the text a record is matched by holds its meaning, objective, request and entities, those that are given |
| `MemoryInterpreter.BetterExactly` | src/rlmgraph/conversation_interpreter.py:75-96 | more shared terms always win; among equally many the record that stands further on, where naming targets counts half the list |
| `MemoryInterpreter.SelectedAreOldestFirst` | src/rlmgraph/conversation_interpreter.py:97-97 | the selected records are in the order of their creation, those of one instant best first |
| `MemoryInterpreter.KeptIsGreedy` | src/rlmgraph/conversation_interpreter.py:123-132 | room goes to the newest first: a record is kept exactly when its summary fits beside those kept before it |
| `MemoryInterpreter.KeptFits` | src/rlmgraph/conversation_interpreter.py:123-132 | the kept summaries fit the character limit |
| `MemoryInterpreter.KeptIsMaximal` | src/rlmgraph/conversation_interpreter.py:123-132 | a record left out has a summary longer than what is left |
| `MemoryInterpreter.NoTurnIsQuotedTwice` | src/rlmgraph/conversation_interpreter.py:110-162 | two excerpts are of one turn id exactly when the session's last two turns share an id and both messages fit |
| `MemoryInterpreter.ExcerptsAreBudgeted` | src/rlmgraph/conversation_interpreter.py:110-162 | verbatim text exceeds its limit exactly when a kept record's turn, not quoted before, has a message that fits what is left and an answer that does not; then by exactly the marker's length, in the last answer |
| `MemoryInterpreter.VerbatimCanExceed` | src/rlmgraph/conversation_interpreter.py:149-162 | a session in which the limit is exceeded |
| `MemoryInterpreter.SummaryTextLength` | src/rlmgraph/conversation_interpreter.py:163-163 | the length of the joined summaries with their separators, or of the default text |
| `MemoryInterpreter.OlderSummaryComesFirst` | src/rlmgraph/conversation_interpreter.py:163-163 | an older kept record's summary comes before those of the newer ones |
| `MemoryInterpreter.EstimateIsBounded` | src/rlmgraph/conversation_interpreter.py:163-176 | the closed bound on the token estimate in the three limits, whatever their signs |
| `MemoryInterpreter.EstimateIsCeiling` | src/rlmgraph/conversation_interpreter.py:176-176 | one token for every four characters of summary and quotations, rounded up |
| `MemoryInterpreter.FirstGivenIsFirst` | src/rlmgraph/conversation_interpreter.py:133-136 | the value chosen is the first one given in the list, and none is chosen exactly when none is given |
| `MemoryInterpreter.RelevantTurns` | src/rlmgraph/conversation_interpreter.py:110-169 | the relevant turns are exactly those quoted or named by a kept record, each listed once |
| `MemoryInterpreter.FirstBindingWins` | src/rlmgraph/conversation_interpreter.py:140-141 | each name bound in a list is remembered once, letter case aside, as the list first binds it |
| `MemoryInterpreter.GatherAll` | src/rlmgraph/conversation_interpreter.py:123-162 | the record loop computes all its specified variables: summaries, objective, request, ambiguities, turn and claim ids, excerpts, concepts, reflections and the two character counts |
| `MemoryInterpreter.Reconstruct` | src/rlmgraph/conversation_interpreter.py:61-177 | every field of the projection returned; objective and request are those of a latest kept record that has one, none exactly when no kept record has one, and each concept is as a latest kept record that binds its name binds it |
| `Base64Url.DecodeUndoesEncode` | src/rlmgraph/authority.py:14-19 | decoding undoes encoding for every byte string (sections 3.2 and 5 of RFC 4648) |
| `Base64Url.EncodedShape` | src/rlmgraph/authority.py:14-19 | the recomputed padding is exactly what encoding stripped, and encoded text is plain |
| `Base64Url.DigitsDecodeExactly` | src/rlmgraph/authority.py:14-19 | digits decode exactly when no single one is left of the last group, to as many octets as they fill, however much padding follows them |
| `Authority.ManagedKeyring.RotateKey` | src/rlmgraph/authority.py:52-57 | the new key file, and nothing for a damaged one |
| `Authority.ManagedKeyring.RevokeKey` | src/rlmgraph/authority.py:59-71 | the new key file or the error, in the order in which the code finds them |
| `Authority.KeyLivesUntilRevoked` | src/rlmgraph/authority.py:52-90 | through any run with fresh key ids a key stays usable until it is revoked, and is revoked exactly if the run says so |
| `Authority.TokenLivesUntilExpiryOrRevocation` | src/rlmgraph/authority.py:149-175 | an issued token authenticates to its claims exactly until it expires or its key is revoked, through any run of rotations and revocations |
| `Authority.AuthenticatesExactly` | src/rlmgraph/authority.py:78-175 | for every token, forged ones included: it authenticates to an identity exactly when it reads back as those claims and a signature, which is the MAC of the claims under the first held key of the id it names, not revoked, and the claims have not expired |
| `Authority.RefusedExactly` | src/rlmgraph/authority.py:160-175 | for every token the exact reason of its refusal: it does not read back, its key is revoked or unknown, its MAC is another one, or it has expired |
| `Authority.MessagesAreSeparate` | src/rlmgraph/authority.py:73-76 | no two pairs of purpose and body are signed as one message |
| `Authority.ReplacedKeySignsNoMore` | src/rlmgraph/authority.py:52-71 | a key rotated out or revoked never signs again, through any run with fresh ids |
| `Authority.IssuedTokenReadsBack` | src/rlmgraph/authority.py:149-165 | an issued token splits at its dot into the encodings of claims and signature, which read back |
| `Authority.IssuedExactly` | src/rlmgraph/authority.py:149-158 | a token is issued exactly for a named subject and organization, a positive lifetime and a readable key |
| `Authority.SplitUndoesJoin` | src/rlmgraph/authority.py:160-165 | splitting at the first dot undoes joining when the first part has none |
| `Authority.RevokedKeyNeverAuthenticates` | src/rlmgraph/authority.py:78-90 | a token naming a revoked key is refused after any further operations |
| `Authority.RevocationIsPermanent` | src/rlmgraph/authority.py:59-71 | a revoked key stays revoked |
| `Deliberation.AutonomousDeliberationManager.Deliberate` | src/rlmgraph/autonomous_deliberation.py:23-95 | the decision and inquiry returned and saved, in all four cases |
| `Deliberation.AutonomousDeliberationManager.CountChildren` | src/rlmgraph/autonomous_deliberation.py:47-50 | the dictionary holds each branch's number of children |
| `Deliberation.AutonomousDeliberationManager.Complete` | src/rlmgraph/autonomous_deliberation.py:124-152 | the saved inquiry, decision and outcome, and the saved inquiry alone when its decision is missing |
| `Deliberation.AutonomousDeliberationManager.Fail` | src/rlmgraph/autonomous_deliberation.py:154-165 | the same for a failure |
| `Deliberation.ScoresAreInRange` | src/rlmgraph/autonomous_deliberation.py:97-113 | every component of a score lies between 0 and 1 under any sound rounding |
| `Deliberation.ScoreIsMonotone` | src/rlmgraph/autonomous_deliberation.py:97-113 | a branch less certain, less explored, better supported and shallower never scores lower |
| `Deliberation.ScoreExactly` | src/rlmgraph/autonomous_deliberation.py:97-113 | the total in closed form: no cap but the last is ever reached |
| `Deliberation.FirstIsBest` | src/rlmgraph/autonomous_deliberation.py:58-61 | the first of the sorted scores is maximal, and of the smallest id on ties |
| `DeliberationRuns.RunKeepsInv` | src/rlmgraph/autonomous_deliberation.py:23-165 | over every run: one active inquiry a session, no branch inquired twice, inquiries mirrored by their decisions and bounded by the budget |
| `DeliberationRuns.EveryDeliberationIsCharged` | src/rlmgraph/autonomous_deliberation.py:24-33 | a session's decisions are exactly its deliberations, whatever they decided |
| `DeliberationRuns.ExhaustionIsForGood` | src/rlmgraph/autonomous_deliberation.py:24-33 | an exhausted budget stays exhausted through any further calls |
| `DeliberationRuns.DecisionExactly` | src/rlmgraph/autonomous_deliberation.py:23-95 | which of the four decisions is taken, exactly |
| `DeliberationRuns.SelectionIsBest` | src/rlmgraph/autonomous_deliberation.py:51-77 | the inquired branch is eligible, of maximal score, and of the smallest id on ties |
| `DeliberationRuns.CandidatesAreTheBest` | src/rlmgraph/autonomous_deliberation.py:58-95 | the candidates reported are the best open branches, best first, as many as the budget shows; one left out is below all of them |
| `DeliberationRuns.OutcomesReportCompletions` | src/rlmgraph/autonomous_deliberation.py:124-152 | in every run each completed inquiry leaves one outcome, in order, stalled without claims and supported exactly by claims of confidence 0.75 or more |
| `TicketLoop.AutomaticTicketRunner.Start` | src/rlmgraph/automatic_tickets.py:42-69 | `start` is the two steps of the interleaved machine, with its four refusals |
| `TicketLoop.AutomaticTicketRunner.Stop` | src/rlmgraph/automatic_tickets.py:71-74 | `stop` sets the flag |
| `TicketLoop.Oldest` | src/rlmgraph/automatic_tickets.py:76-82 | a ready ticket created no later than any other, and of those of one instant the first in the store |
| `TicketLoop.AutomaticTicketRunner.Attempt` | src/rlmgraph/automatic_tickets.py:96-144 | the operations of an iteration are steps of the machine, up to the first that raises |
| `TicketLoop.AutomaticTicketRunner.Recover` | src/rlmgraph/automatic_tickets.py:145-152 | the handling of a failed ticket is steps of the machine |
| `TicketLoop.AutomaticTicketRunner.Run` | src/rlmgraph/automatic_tickets.py:84-157 | the loop terminates, and is a path of its worker's steps to the end |
| `TicketLoop.RunAlone` | src/rlmgraph/automatic_tickets.py:84-157 | what a run nobody interferes with leaves: no ticket twice, oldest first, nothing ready if completed |
| `TicketRuns.InterleavingKeepsInv` | src/rlmgraph/automatic_tickets.py:42-157 | under every interleaving at most one worker is live, exactly while the status is RUNNING, the counters agree with the tickets taken, and the log is sound |
| `TicketRuns.EveryTakenTicketIsCounted` | src/rlmgraph/automatic_tickets.py:144-154 | completed and failed add up to the tickets taken once the run stopped or completed |
| `TicketRuns.PromotionFollowsApprovals` | src/rlmgraph/automatic_tickets.py:96-134 | a promotion directly follows plan approval, validation and promotion approval of its ticket, in an iteration begun in AUTONOMOUS_PROJECT mode |
| `TicketRuns.TakenInModeRead` | src/rlmgraph/automatic_tickets.py:86-98 | every ticket is taken in the mode its worker read at the start of that iteration, with no step of its own in between |
| `TicketRuns.TakenWasTheOldestWaiting` | src/rlmgraph/automatic_tickets.py:76-98 | under every interleaving each ticket taken was then READY, of the worker's project, the named one if one was named, and oldest of those, in store order at one instant |
| `TicketRuns.NoneTakenMeansNoneWaits` | src/rlmgraph/automatic_tickets.py:91-95 | a worker that may take a ticket leaves without one only when none waits |
| `TicketRuns.StepMovesTickets` | src/rlmgraph/automatic_tickets.py:96-152 | a step moves the ticket in hand only: to ACTIVE when taken up, to AWAITING_REVIEW when delivered, to BLOCKED when given up |
| `TicketRuns.StartsExactly` | src/rlmgraph/automatic_tickets.py:42-69 | a run starts exactly when the project's mode is autonomous, no run is active, and a named ticket is READY in the project |
| `TicketRuns.WorkersWereAskedFor` | src/rlmgraph/automatic_tickets.py:42-69 | under every interleaving a worker runs only for a project for which a run was asked while its mode was autonomous |
| `TicketRuns.OperationFailsExactly` | src/rlmgraph/automatic_tickets.py:96-145 | an operation fails exactly when it raises or the ticket it moves is gone |
| `TicketRuns.FailedTicketIsBlocked` | src/rlmgraph/automatic_tickets.py:145-157 | a failed ticket is blocked unless it is blocked, satisfied or closed already; the run fails exactly when that raises or the ticket is gone |
| `TicketTermination.LiveWorkersCanStep` | src/rlmgraph/automatic_tickets.py:84-157 | a live worker always has a step that does not raise |
| `TicketTermination.LoopTerminates` | src/rlmgraph/automatic_tickets.py:84-157 | while nobody makes tickets ready, a worker takes boundedly many steps, however other calls are interleaved |
| `TicketTermination.CalmRunTakesReadyTicketsInOrder` | src/rlmgraph/automatic_tickets.py:76-157 | then tickets are taken oldest first and none twice, only ones ready at the start, and a completed run leaves nothing ready |
| `TicketTermination.StopIsObeyed` | src/rlmgraph/automatic_tickets.py:71-94 | after a stop request at most one more ticket is taken, and only past the test of the flag |

## Left out

- SQLite, its SQL text, triggers and transactions: tables are maps and lists, and a call that raises changes nothing, except where the code saves before it raises.
- JSON text and file reading: serializers are injective constructors with a reader, files a map that each call sees as it is just then; a file that changes during one call is not modelled.
- `LedgerIntegrity.IntegrityReportsExactlyBrokenArtifacts`: is about reachable tables, and `LedgerReplacement` about any others, whose payloads are the five record shapes or do not parse, not arbitrary JSON.
- Shortened digests used as ids are taken to be free of collisions, like the digests themselves.
- The order in which envelopes are listed is a parameter of the integrity check.
- Clocks, random ids and secrets are parameters; new ids are fresh.
- Edges, evidence texts and examined files of graph claims, and equality of claims other than by id.
- `MemorySafety.AtMostOneCurrentSemanticMemory`: is for runs that never make a stale claim CURRENT again, because re-validation can break it, as `MemoryRevival.RevivalCanBreakUniqueness` shows.
- `Merkle.ComputeMerkleRoot`: orders records by id alone, because symbolic digests have no order; records of one id with different payload digests, which the ledger never makes, keep the order given.
- What an assessment of source files finds is a parameter of the sweep.
- The place of a ticket in the store while it is not READY.
- The extraction of facts from messages, associations, aliases and the neural ranker; `casefold` is a parameter.
- Facts are read in the order in which they were stored; two facts created at one instant in another order are not modelled.
- `RetryRuns.ActiveFactsAreTheLatest`: is about retractions of a scope's latest unretracted turn, because hiding an earlier one can leave two active facts; `FactHistory.ActiveFactsStand` is about any.
- `RetryRuns.RetriesShowTheLatest`: is about retries of a scope's latest turn. In a profile's scope another session may have spoken after the retried turn; `FactHistory.ActiveFactsStand` and `FactHistory.IndexHoldsSaid` cover that.
- The second commit of a retried answer extracts the same statements as the first; an answer without an interpretation record states nothing in either.
- Retrieval of facts, theories and action memories for a message, and the ranking formula of episodes, whose logarithms are an abstract score.
- Repair, self-reference and the deterministic interpretation in `conversation_interpreter.py`.
- Backup, restore, staging files and file modes of the keyring; the MAC and the two encodings of a token are parameters that read back what they wrote.
- Rounding of scores is any monotone function that keeps 0 and 1; scores are real numbers, not floating point.
- The text of questions, reasons and stages.
- Operations of the ticket runner on the workspace, the sandbox and the tickets either take effect or raise; their polling, timeouts and validation workers are single steps, and saving the activity record is taken to succeed.
- `TicketTermination.CalmRunTakesReadyTicketsInOrder`: assumes that no other code makes a ticket ready during the run, because such a ticket may be taken again.
- Adapters, dashboard, command line, benchmarks, architecture context and the work bridge: prompts, wiring and record building.
- `autonomous_tasks.py`: its budget and once-only tests are weaker than those of the deliberation manager.
