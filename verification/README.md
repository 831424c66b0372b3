# LivingADR: the approval, mutation and publication protocol

LivingADR turns merged pull requests into architecture decision records. A reviewer's approval
becomes a one-shot decision; the decision authorises one graph write; the written record is then
published to the repository as a numbered Markdown file. Every step leaves durable rows, and every
step may be interrupted, repeated, or raced by another process. This project models that protocol
and the smaller pieces around it, and proves what callers may rely on.

`dafny verify dfyconfig.toml` checks everything.

## How the model is built

The protocol appears at three levels, and the levels are tied to each other:

* **Small steps.** `MutationProtocol` and `PublicationProtocol` split each service call at every
  access to shared state. Any number of service instances interleave; they may crash between any
  two statements, restart (losing the in-process set of used decisions) and meet store failures.
  A publisher may crash between creating a file and recording it, lose its record store at any
  moment, be told of a conflict by a create that landed, be asked for another template, and meet
  foreign commits. Theorems hold for every sequence of steps.
  `InsertOnce` does the same for the read, insert, reconcile sequence that the decision
  consumption and the publication reservation share.
* **Sequential specifications.** `Approval`, `Mutation`, `Publication`, `Workflow` and `Ingestion`
  hold each operation as a function from state to state. `SoloCall` and `SoloAttempt` prove that
  a small-step call without interference is that function.
* **Classes.** Services and stores whose methods update fields are classes, and each method is
  proved equal to its function, early returns and loops included.

| File | What it covers |
|---|---|
| `InsertOnce.dfy` | insert-only tables with reconcile on a duplicate key |
| `Approval.dfy`, `Mutation.dfy` | minting, validation, the audit log, both mutation services |
| `MintingLaws.dfy`, `MutationAnswers.dfy` | what minting records and what a mutation call answers, told by the inputs |
| `MutationProtocol.dfy`, `SoloCall.dfy`, `LostWrites.dfy`, `AuditTrails.dfy` | interleaved mutation calls, what their audit trails say, and runs that show where the guarantees end |
| `Publication.dfy`, `PublicationRuns.dfy`, `PublicationLaws.dfy`, `PublicationTraces.dfy`, `PublicationAnswers.dfy` | records, committer, publication service, single publish calls and sequences of them |
| `PublicationProtocol.dfy`, `PublicationAuthority.dfy`, `SoloAttempt.dfy`, `SharedDirectory.dfy` | a crashing publisher in small steps, the authority behind its files, and several sharing a directory |
| `SystemRuns.dfy`, `PublishedRuns.dfy` | minting, mutation and publication as one system; the audit trail and the publication records |
| `Workflow.dfy`, `WorkflowRuns.dfy`, `ResumeRuns.dfy` | the review workflow from intake to the graph write, and what each answer of a client leads to |
| `Fingerprints.dfy`, `Hashing.dfy`, `Text.dfy` | fingerprints, canonical hashes, strings |
| `Numbering.dfy`, `Slugging.dfy` | ADR numbers, paths, markers, slugs |
| `Ingestion.dfy`, `IngestionRuns.dfy`, `PullRequests.dfy` | webhooks, replay, evidence, pull request keys |
| `Redaction.dfy`, `RedactionLaws.dfy`, `RedactionKeys.dfy` | recursive metadata redaction and its key rules |
| `TokenBudget.dfy`, `Sorting.dfy` | the greedy prompt budget |
| `DependencyEvidence.dfy`, `DependencyClassifier.dfy`, `DependencyLaws.dfy`, `DependencyRecords.dfy` | the dependency classifier and its records |
| `Domain.dfy`, `Prelude.dfy` | shared records and sequence helpers |

Clock readings, generated ids, what the provider answers and what injected nodes return are
parameters, so every theorem holds for all of them. Times are microseconds.

`Hashing.Sha256` stands in for SHA-256. It is a concrete injective function into non-empty
hexadecimal text; proofs use these two properties only.

## Where the code says something other than its documentation

* A rejection by the already-consumed gate, by the inner service, or for lack of a consumption
  leaves no audit row; only failed validation does (`Mutation.Authorize`,
  `Publication.AuthorizePublication`).
* The edited hash of an approve-after-edit is bound to the decision, but the record that is
  written still carries the draft's text and hash. An edit that changes the text is therefore
  refused at mutation (`WorkflowRuns.EditedHashNeverWrites`, `InnerContentRefusedExactly`).
* An idempotent answer repeats the caller's repository. The fingerprint covers three of its four
  fields, so two answers for one decision agree on the node id exactly when the callers'
  repositories agree (`MutationProtocol.SuccessesNameOneNode`, `LostWrites.TwoRepositories`).
* A decision is marked as used in its process only after the store call returns. A store call
  that raises after the node has landed is followed by a second write when the caller retries
  (`LostWrites.RetryWritesExactly`, `TwoWritesHappen`).
* The audit trail is meant to reconstruct every authoritative mutation. A process that stops
  between the consumption and its audit row leaves a written decision whose trail names the node
  but never tells of the mutation (`AuditTrails.RowsCanBeLost`, `RowsNeverCome`).
* Only the publication record remembers the directory: after its loss one decision can be published
  into a second one (`PublicationLaws.OtherDirectoryAfterLoss`).
* A publication record is meant to hold the commit. One rebuilt from the file that a recovery
  found holds the content id of the listing instead (`PublicationAnswers.RecoveryNamesTheContent`).
* Publication checks the content hash field of the record, not its text
  (`PublicationLaws.TextIsNotChecked`).
* A dead-lettered publication can be retried only inside the lifetime of its decision
  (`PublicationLaws.DeadLetterRetriedInTime`).
* Fingerprints join their parts with `|`. They are unambiguous exactly for parts without `|`
  (`Fingerprints.UnambiguousIffPipeFree`).
* The marker search looks for a prefix of the marker line: it answers for every id that extends
  the sought one (`Numbering.PlainMarkerAnswers`).
* The pipeline counts retries against its own default, the replay service against its
  configuration; they agree exactly when the budget is at least one
  (`IngestionRuns.BudgetHoldsExactly`).
* A delivery can end as accepted with an envelope and without evidence, when a process without a
  provider takes over after one that stopped behind its envelope (`IngestionRuns.EvidenceIsLost`).

## Model

| member | source | states |
|---|---|---|
| InsertOnce.Linearizable | src/living_adr/approval/repository.py:318-346 | under every interleaving of clients and crashes, the finished read-insert-reconcile calls, in the order they finished, are a sequential execution of the in-memory operation with the same table |
| InsertOnce.EveryCallAgreesWithTheRow | src/living_adr/approval/repository.py:140-149 | one row per key survives; a call fails exactly when its fingerprint differs from that row, every other call returns the row, and the missing-row failure never happens |
| InsertOnce.OneInsertPerKey | src/living_adr/publication/repository.py:110-133 | of all calls for a key only one is the inserter |
| InsertOnce.RowsAreFinal | src/living_adr/approval/repository.py:318-346 | a stored row is never changed or removed by later calls |
| Fingerprints.FingerprintsEqual | src/living_adr/core/graph/approval_bound_mutation.py:43-94 | two targets share a fingerprint exactly when a reader splitting at bars sees the same fields, across the six mutations and publication |
| Fingerprints.FingerprintInjective | src/living_adr/publication/models.py:196-224 | over bar-free components equal fingerprints mean the same operation with the same components |
| Fingerprints.UnambiguousIffPipeFree | src/living_adr/core/graph/approval_bound_mutation.py:43-94 | a target's fingerprint is shared by no other target exactly when its components have no bar |
| Fingerprints.UpsertDeterminesAdr | src/living_adr/core/graph/approval_bound_mutation.py:47-50 | with key and content hash fixed, the upsert fingerprint determines the ADR id, bars or not |
| Fingerprints.Preimages | src/living_adr/core/graph/approval_bound_mutation.py:43-94 | the exact texts that are hashed for the six graph mutations |
| Fingerprints.PublishPreimage | src/living_adr/publication/models.py:196-224 | and for a publication |
| Hashing.TwoPassesAreOneScan | src/living_adr/approval/hashing.py:24-27 | the two-pass line-ending rewrite is a one-pass scan that ends a line at CRLF, CR or LF |
| Hashing.CanonicalForm | src/living_adr/approval/hashing.py:24-27 | the canonical form has no CR, is idempotent, and leaves exactly the CR-free texts alone |
| Hashing.CheckoutUndone | src/living_adr/approval/hashing.py:24-27 | it undoes a whole-document LF to CRLF or LF to CR conversion of any CR-free text |
| Hashing.CanonicalHashStable | src/living_adr/approval/hashing.py:30-41 | the reviewed hash still matches after such a conversion |
| Hashing.CanonicalHashIsDigest | src/living_adr/approval/hashing.py:30-35 | the canonical hash equals the plain digest exactly for CR-free text |
| Hashing.CanonicalHashEqual | src/living_adr/approval/hashing.py:30-41 | two texts share a canonical hash exactly when they agree up to line endings |
| Approval.AuditRepository.RecordReviewEvent | src/living_adr/approval/repository.py:104-110 | a repeated review event id is refused and changes nothing; a new one is appended |
| Approval.AuditRepository.RecordMintedDecision | src/living_adr/approval/repository.py:124-132 | a repeated decision id is refused; a new one is stored |
| Approval.AuditRepository.RecordConsumption | src/living_adr/approval/repository.py:140-149 | insert once, return the stored row for an equal fingerprint, conflict otherwise |
| Approval.AuditRepository.ListAuditEvents | src/living_adr/approval/repository.py:167-177 | the rows of one decision, in order |
| Approval.AuditRepository.FindReviewEventForDecision | src/living_adr/approval/repository.py:179-186 | the first review event that names the decision |
| Approval.RunValidation | src/living_adr/approval/validation.py:62-136 | the checks in their fixed order at one clock reading; a failure appends exactly one row with its kind |
| Approval.MintApprovedDecision | src/living_adr/approval/minting.py:191-309 | review event, minted record and audit row in this order; a store that raises at any of them leaves what came before and hands out no capability; other outcomes record their event only |
| Approval.BuildDecisionAuditTrail | src/living_adr/approval/audit_queries.py:107-118 | event, minted record, consumption and rows of one decision |
| MintingLaws.ApprovalIsMinted | src/living_adr/approval/minting.py:191-309 | an approval with fresh ids leaves one event, one record that repeats the capability field by field, and one row with the action's word; the capability carries reviewer, draft, hash and target of the review |
| MintingLaws.OtherOutcomesAreRecorded | src/living_adr/approval/minting.py:134-188 | reject and defer record their event and mint nothing |
| MintingLaws.UsedIdsAreRefused | src/living_adr/approval/minting.py:217-309 | a used event id changes nothing, a used decision id leaves the event only |
| MintingLaws.MintedExpiry | src/living_adr/approval/minting.py:268-285 | for every lifetime the record expires less than a second before the lifetime is over and never after, and exactly then for whole seconds |
| Mutation.GraphStore.UpsertAdrNode | src/living_adr/graph/llamaindex_adapter.py:289-312 | a record of another repository is refused; otherwise the node is upserted, also when committing raises |
| Mutation.ApprovalBoundMutationService.UpsertAdrNode | src/living_adr/core/graph/approval_bound_mutation.py:110-175 | inner checks in order, then the write, then the in-process mark; nothing on a rejection, and no mark when the store raises |
| Mutation.DurableMutationService.AuthorizeAndUpsert | src/living_adr/approval/mutation_service.py:132-241 | gate, validation, write, consumption and audit rows exactly as the sequential specification, with and without a raising graph store |
| MutationAnswers.ConsumedIsAnswered | src/living_adr/approval/mutation_service.py:141-158 | a consumed decision presented again succeeds exactly for the target it was consumed for, with the stored node, is refused as consumed for any other, and changes nothing |
| MutationAnswers.ReplaysShareTheTarget | src/living_adr/approval/mutation_service.py:141-158 | of two records with one hash a consumed decision succeeds for both exactly when they have one id |
| MutationAnswers.FirstFailureAnswers | src/living_adr/approval/mutation_service.py:160-199 | a fresh approving decision is answered by the first failing of seven checks in a fixed order; the first four leave one report of who presented what for which target, the others leave nothing, and none touches graph, tables or process |
| MutationAnswers.UnapprovedIsRefused | src/living_adr/approval/validation.py:62-136 | a call without an approving decision is refused and reported |
| MutationAnswers.PassingWrites | src/living_adr/approval/mutation_service.py:178-241 | when all checks pass: the node, the consumption and both rows, in every field |
| MutationAnswers.MutatesExactly | src/living_adr/approval/mutation_service.py:132-241 | a call mutates exactly when its decision approves, is unconsumed and passes every check |
| MutationAnswers.SuccessIsConsumed | src/living_adr/approval/mutation_service.py:132-241 | after any success the decision is consumed for the very target presented, and the answer names the consumed node |
| MutationAnswers.InnerFirstFailure | src/living_adr/core/graph/approval_bound_mutation.py:110-138 | called directly, the inner service answers with the first failing of its checks, in this order: repository, content hash, target, in-process mark, scope of the store; nothing changes |
| MutationAnswers.InnerNeedsApproval | src/living_adr/core/graph/approval_bound_mutation.py:118-121 | it refuses for lack of approval exactly when no approving decision is presented, and then writes nothing |
| MutationAnswers.InnerOneShot | src/living_adr/core/graph/approval_bound_mutation.py:160-175 | a passing call writes its node, the same capability is then refused for whatever is presented with it, and after a raising store, and only then, it writes again |
| MutationProtocol.AtMostOneFreshAnswer | src/living_adr/approval/mutation_service.py:132-241 | under every interleaving, crash and restart at most one call per decision answers with a mutation of its own |
| MutationProtocol.SuccessesNameOneNode | src/living_adr/approval/mutation_service.py:141-158 | all successful calls for one decision name the node of its consumption, and agree on the whole id exactly when their repositories agree |
| MutationProtocol.AnswersMatchTheTarget | src/living_adr/approval/mutation_service.py:141-158 | over every run of interleaved calls: a call succeeds only for the target its decision was consumed for, and one refused as consumed named another |
| MutationProtocol.SuccessesShareTheTarget | src/living_adr/approval/mutation_service.py:141-158 | so all successes under one decision have one target, and one ADR id when key and hash agree |
| LostWrites.TwoRepositories | src/living_adr/approval/mutation_service.py:141-158 | such a difference is reachable: a mutation answered for one repository is replayed for any other with the same key |
| MutationProtocol.WritesAgree | src/living_adr/approval/mutation_service.py:160-179 | all graph writes under one decision hit the same node with the same content hash and the same text up to line endings |
| MutationProtocol.SecondWriteFollowsALoss | src/living_adr/core/graph/approval_bound_mutation.py:160-175 | between restarts an instance writes again under a decision only when its earlier write was lost: the store raised after the node had landed, which skips the mark |
| MutationProtocol.WritesPerLife | src/living_adr/core/graph/approval_bound_mutation.py:160-175 | so its writes under a decision are at most one more than such losses |
| LostWrites.RetryWritesExactly | src/living_adr/core/graph/approval_bound_mutation.py:110-175 | in every reachable state a request that passes all other checks is written, once more, exactly when every write of this life under its decision was lost; otherwise the inner service refuses it |
| LostWrites.TwoWritesHappen | src/living_adr/graph/llamaindex_adapter.py:275-312 | from the empty system every writable record can be written twice under one decision in one life, when the first store call raises after landing |
| LostWrites.RaisedCallIsForgotten | src/living_adr/approval/mutation_service.py:178-199 | in the sequential service too, a raising store leaves the write and nothing else, and the same call writes again |
| MutationProtocol.EveryWriteIsAuthorized | src/living_adr/approval/validation.py:52-95 | every write ever made was validated under an issued approving decision of equal repository, fingerprint and content hash, at a clock reading not past the minted record's expiry |
| MutationProtocol.NoWriteOutlivesItsDecision | src/living_adr/approval/validation.py:52-78 | when minting never gives more than some lifetime, no write of any run was validated later than that after its minting |
| MutationProtocol.EveryConsumptionIsBacked | src/living_adr/approval/mutation_service.py:178-199 | every consumption names a node that was written under its decision and is in the graph |
| MutationProtocol.AuditRowsAtMostOnce | src/living_adr/approval/mutation_service.py:211-228 | the audit log holds at most one mutation row and one consumption row per decision |
| AuditTrails.TrailReads | src/living_adr/approval/audit_queries.py:55-70 | a trail tells of a mutation exactly when the log holds a mutation row of the decision, and names a node exactly when the decision is consumed: the consumed one |
| AuditTrails.TrailsNameWrites | src/living_adr/approval/audit_queries.py:55-70 | at every moment of every interleaved run a trail that tells of a mutation names a node, and a named node was written under the decision |
| AuditTrails.RowsNeverCome | src/living_adr/approval/mutation_service.py:192-228 | a consumed decision without its mutation row and with no call left to write it never gets one, in any continuation |
| AuditTrails.RowsCanBeLost | src/living_adr/approval/mutation_service.py:192-228 | from the empty system every writable record can be written and consumed that way |
| SoloCall.SoloCallIsAuthorize | src/living_adr/approval/mutation_service.py:132-241 | the small steps of one call without interference do what the sequential specification says |
| SystemRuns.TrailShape | src/living_adr/approval/mutation_service.py:160-228 | in every crash-free run a decision's rows are none, or MINTED and failures, or those followed by MUTATION_PERFORMED, CONSUMPTION_RECORDED and then failures and publication links, as told by the minted and consumption tables |
| SystemRuns.CountsAgree | src/living_adr/approval/mutation_service.py:178-228 | graph writes, consumptions, mutation rows and consumption rows are equally many, and minted rows as many as minted records |
| SystemRuns.TrailRecoversTheWrite | src/living_adr/approval/audit_queries.py:31-118 | the trail says mutated exactly when the graph has a write for the decision, which is then its only one, and names its node |
| SystemRuns.FilesNeedAuthority | src/living_adr/publication/service.py:391-425 | in every run, a publication that changes the files presents a decision issued for its repository and target, in time, consumed in the log, with exactly one graph write |
| SystemRuns.PublishedAdrIsTheWrittenOne | src/living_adr/publication/service.py:391-425 | the published ADR has the node and content hash of that write exactly when its content hash is the decision's, which holds whenever its target has no bar |
| Numbering.NumberedExactly | src/living_adr/publication/numbering.py:16-41 | a file name carries a number exactly when it starts with its digits and then ends, or goes on with a dash or a dot |
| Numbering.ParsePrinted | src/living_adr/publication/numbering.py:24-60 | a zero-padded number is read back exactly when what follows ends it, for every number and width |
| Numbering.ParseRendered | src/living_adr/publication/numbering.py:24-60 | parsing a rendered path gives its number exactly when the template's rest ends the number; a dash or dot after the number suffices |
| Numbering.RenderedPathHalves | src/living_adr/publication/numbering.py:45-60 | a rendered path stays in the template's directory under the rendered name |
| Numbering.RenderedPathIsFresh | src/living_adr/publication/numbering.py:38-60 | the path rendered from a listing's next number names no listed file |
| Numbering.NumbersIncrease | src/living_adr/publication/numbering.py:38-42 | while a committed file is listed the next number is larger |
| Numbering.RenderedIsMarkdown | src/living_adr/publication/numbering.py:45-60 | a template ending in .md renders names ending in .md |
| Numbering.NumberShape | src/living_adr/publication/numbering.py:45-60 | a number is written with its digits, without leading zeros of its own, behind exactly the zeros the width asks for |
| Numbering.NextFollowsTheHighest | src/living_adr/publication/numbering.py:38-42 | the next number is one more than the highest listed one, and 1 when nothing is numbered |
| Numbering.EmbeddedKeepsTheText | src/living_adr/publication/numbering.py:63-75 | embedding puts the one marker line in front, and nothing when the line is there |
| Numbering.EmbeddedCarries | src/living_adr/publication/numbering.py:63-75 | an embedded text carries its marker for the search |
| Numbering.MarkerAnswers | src/living_adr/publication/numbering.py:63-87 | for all ids: a marker line answers a search exactly when its id and closing begin with the sought id or hold a marker themselves |
| Numbering.PlainMarkerAnswers | src/living_adr/publication/numbering.py:63-87 | for ids without spaces, colons and newlines: exactly when the sought id is a prefix of the marked one |
| Numbering.PublishedFileAnswers | src/living_adr/publication/numbering.py:63-87 | for all ids and texts: when a published file answers a search |
| Numbering.PublishedFileCarries | src/living_adr/publication/numbering.py:63-87 | for such plain ids and all texts: exactly when its own id extends the sought one or its text mentions it |
| Slugging.SlugIsTitleWords | src/living_adr/publication/slugging.py:22-43 | a slug is the maximal runs of usable characters of the title, lower-cased, in order and joined by hyphens, cut at the cap; the ADR id enters exactly when no character is usable |
| Slugging.UsableExactly | src/living_adr/publication/slugging.py:22-43 | usable are the ASCII letters and digits, and capitals become their small letters |
| Slugging.TrimmedShape | src/living_adr/publication/slugging.py:22-43 | a slug is lower-case letters, digits and single inner hyphens within the cap; it is empty exactly when the cap is zero or no character is usable |
| Slugging.SlugifyIdempotent | src/living_adr/publication/slugging.py:22-43 | a slug of a slug is that slug |
| Slugging.SlugHasNoSlash | src/living_adr/publication/slugging.py:22-43 | a path separator can enter only through the fallback id |
| Publication.PublicationRecords.Reserve | src/living_adr/publication/repository.py:61-66 | insert once and reconcile by fingerprint |
| Publication.PublicationRecords.Finalize | src/living_adr/publication/repository.py:68-73 | refuse a record of another fingerprint, otherwise overwrite |
| Publication.Committer.FindExistingMarker | src/living_adr/publication/service.py:228-250 | the first listed Markdown file that carries the marker, or none |
| Publication.Committer.AttemptJob | src/living_adr/publication/service.py:183-221 | one attempt recovers the marked file or creates the next path; a conflict decides nothing |
| Publication.Committer.CommitJob | src/living_adr/publication/service.py:170-226 | the bounded loop with recovery before every attempt |
| Publication.PublicationService.Authorize | src/living_adr/publication/service.py:391-425 | validation, then proof of consumption |
| Publication.PublicationService.PublishToFile | src/living_adr/publication/service.py:337-388 | reserve, commit, finalise and link, with the states of every failure |
| Publication.PublicationService.PublishOne | src/living_adr/publication/service.py:276-388 | short cut, authorisation, policy skip and publication as the sequential specification |
| PublicationRuns.ExhaustedIffAllConflict | src/living_adr/publication/service.py:181-226 | a commit is exhausted exactly when every attempt conflicts |
| PublicationRuns.CommitEffect | src/living_adr/publication/service.py:181-226 | a commit adds at most one file of its own, at the path of its last listing and under the commit the provider answered; any other success names the file the last listing showed, with its listed commit |
| PublicationRuns.CommittedOnce | src/living_adr/publication/service.py:170-250 | against foreign commits without this marker the directory keeps at most one marked file, and a success leaves exactly the one it returned |
| PublicationRuns.InvisibleFilesAreRepeated | src/living_adr/publication/service.py:228-250 | a file created outside the searched files is not found after its record is lost, and a second one is created exactly when the next path is free |
| PublicationRuns.CommittedPathIsFresh | src/living_adr/publication/service.py:199-206 | the path of an attempt is never in the listing it was computed from |
| PublicationRuns.LaterCommitsGetLargerNumbers | src/living_adr/publication/service.py:181-213 | later commits into a directory that still lists the earlier file get strictly larger numbers |
| PublicationLaws.CallTakesLegalSteps | src/living_adr/publication/service.py:285-388 | every call moves each record by at most two legal steps: absent to pending or skipped, pending or dead-lettered to committed or dead-lettered |
| PublicationLaws.ReserveThenFinalize | src/living_adr/publication/service.py:337-388 | an authorised publishing call reserves, then dead-letters exactly when every attempt conflicts, commits exactly when it succeeds, and stays reserved when the provider breaks |
| PublicationTraces.FileCallLeaves | src/living_adr/publication/service.py:337-388 | the record and the audit row of an authorised publishing call, in every field, for a created file, a recovered one, exhausted conflicts and a broken provider |
| PublicationTraces.SkipCallLeaves | src/living_adr/publication/service.py:312-335 | the record and the row of a skip; the files stay |
| PublicationAnswers.AuthorizedExactly | src/living_adr/publication/service.py:391-425 | a request is authorised exactly when its decision approves, is for its repository, in time, for its target and consumed |
| PublicationAnswers.RefusedForTheFirst | src/living_adr/publication/service.py:391-425 | a call without an earlier record is refused for the first of these that fails; failures of the decision are reported in one row, a missing consumption is not; records and files stay |
| PublicationAnswers.UnapprovedIsNotPublished | src/living_adr/publication/service.py:393-396 | without an approving decision it is refused and nothing is left |
| PublicationAnswers.TargetsStay | src/living_adr/publication/repository.py:61-73 | whatever is reserved and finalised in whatever order, a decision keeps the target of its first record, and a store is refused exactly when it names another |
| PublicationAnswers.RecoveryNamesTheContent | src/living_adr/publication/service.py:187-197 | once its record is lost a repeated call finds its file again, creates none, and records the same path, but the listed content id in place of the commit |
| PublicationRuns.RecordsOverRuns | src/living_adr/publication/repository.py:61-73 | over every sequence of calls a decision's fingerprint never changes and a satisfied record stays as it is |
| PublishedRuns.SameTargetExactly | src/living_adr/publication/models.py:196-224 | two requests authorised under one decision have the same fingerprint exactly when policy is equal and branch and template read alike, bars in the ADR or not |
| PublishedRuns.EveryRecordIsSourced | src/living_adr/publication/service.py:312-388 | in every run of the whole system each record was stored for a request bound to an issued decision, and is skipped exactly when that request's policy skips |
| PublishedRuns.SuccessIsStored | src/living_adr/publication/service.py:316-388 | in every run every successful publication, whatever policy and target, leaves a satisfied record with the path and commit it returned |
| PublishedRuns.SatisfiedRequestsReplay | src/living_adr/publication/service.py:285-310 | after a success in any run, every later request under that decision, after any operations and any time, is answered from the record: as already published, with the stored path and commit for the same target, a mismatch for another; nothing changes |
| PublicationLaws.DeadLetterRetriedInTime | src/living_adr/publication/service.py:312-388 | a dead-lettered publication retried by an entitled request that the directory lets through succeeds exactly while its decision is in time, and stays dead-lettered after |
| PublicationLaws.OtherDirectoryAfterLoss | src/living_adr/publication/service.py:228-250 | once the record is lost, a request of the same decision for a directory that does not show the first file publishes a second one |
| PublicationLaws.TextIsNotChecked | src/living_adr/publication/service.py:404-414 | a succeeding publication would succeed at the same path with any text in its record |
| PublicationLaws.PublishedTextIsReviewed | src/living_adr/publication/service.py:404-414 | the published text is the reviewed one, up to line endings, exactly when its canonical hash is the decision's |
| PublicationLaws.DefaultTemplateIsSound | src/living_adr/publication/service.py:82-112 | the default destination meets what the file theorems ask for |
| PublicationLaws.TemplateIsSound | src/living_adr/publication/service.py:82-112 | so does every template of a directory, four places and a Markdown tail |
| PublicationLaws.ClearCallNamesTheFile | src/living_adr/publication/service.py:170-226 | with the default template an authorised call that can create its file creates docs/adr/, the next number in at least four digits, a dash, the words of the title and .md, holding the record's text behind its marker line; the ADR id names the file exactly when no character of the title is usable |
| PublicationLaws.PaddingCounts | src/living_adr/publication/service.py:82-86 | numbers are as wide as the template's first run of N, four digits without one |
| PublicationProtocol.AtMostOneMarkedFile | src/living_adr/publication/service.py:170-250 | at every moment of every run, through crashes, lost records, conflicts, creates that land unseen, changed templates and foreign commits, the directory holds at most one file with the decision's marker |
| PublicationProtocol.CommittedRecordNamesTheFile | src/living_adr/publication/service.py:368-388 | a committed record names the only marked file there can be |
| PublicationProtocol.MarkedFilesAreOwn | src/living_adr/publication/service.py:187-250 | every marked file that is ever present was created for this decision, and so was every file that is recovered or recorded |
| PublicationProtocol.OwnFilesAreCounted | src/living_adr/publication/service.py:199-213 | with a Markdown template that stays in its directory and slugs without a separator, every created file is one the search finds |
| PublicationProtocol.OneOwnFileSurvives | src/living_adr/publication/service.py:276-388 | of all files ever created for the decision at most one is present |
| PublicationAuthority.NothingWithoutAuthority | src/living_adr/publication/service.py:312-388 | every file a run ever created has the text of a call that was let through, in time, for a consumed decision and without contradicting the record; every record stands for the template of such a call |
| PublicationAuthority.LateRunsLeaveNothing | src/living_adr/publication/service.py:312-388 | a run in which no check is in time creates no file and leaves no record |
| SharedDirectory.EachDecisionHasItsFile | src/living_adr/publication/service.py:170-250 | several decisions in one directory, with ids none of which is a prefix of another and texts that do not mention each other's markers: however their publishers interleave, crash and lose records, each has at most one marked file, created for it, and its record names one created for it |
| SharedDirectory.NoFileHasTwoDecisions | src/living_adr/publication/numbering.py:78-87 | and no file is found for two decisions |
| SoloAttempt.SoloAttemptIsAttempt | src/living_adr/publication/service.py:182-221 | the small steps of one attempt without interference are the sequential attempt |
| Workflow.MintingNode.Call | src/living_adr/workflow/approval_node.py:87-126 | mints for the record the handoff will write and attaches the decision, or reports the failure |
| Workflow.HandoffNode.Call | src/living_adr/workflow/nodes/stubs.py:264-313 | the handoff's branches in order, and the service call exactly when all of them pass, with and without a raising graph store |
| Workflow.MintedRun | src/living_adr/workflow/graph.py:75-129 | an authorising answer goes through minting to the handoff, or stops at minting |
| ResumeRuns.MutatedMeansApproved | src/living_adr/workflow/nodes/stubs.py:63-84 | in every wiring a run that ends as mutated or changes the graph was resumed with an approval in one of the client's four forms, and carries the client's own command |
| ResumeRuns.RejectEndsRejected | src/living_adr/workflow/graph.py:61-73 | a client that says reject or defer, in any form, ends at that node with the world as it was |
| ResumeRuns.ApprovalGoesOn | src/living_adr/workflow/graph.py:61-129 | an approval goes on to minting where wired, else to the handoff, with the client's own command |
| ResumeRuns.BadResumeExactly | src/living_adr/workflow/nodes/stubs.py:63-84 | a run stops for its answer exactly when the answer names no action |
| ResumeRuns.NoAdrIsSaid | src/living_adr/workflow/graph.py:53-59 | without an ADR to write nobody is asked |
| ResumeRuns.MutatedMeansConsumed | src/living_adr/workflow/nodes/stubs.py:240-313 | a mutated run showed the draft and recorded it, title and change included; its decision is consumed for exactly that record, and the answer names the consumed node |
| ResumeRuns.ApprovalMintsForTheDraft | src/living_adr/workflow/approval_node.py:87-126 | where minting is wired an approval with fresh ids mints a capability in the reviewer's name for the draft that was shown and the change it is about, and leaves its record and event, however the run ends |
| ResumeRuns.NoCapabilityNoMutation | src/living_adr/workflow/nodes/stubs.py:281-289 | without minting an approval without an approved capability says that nothing was mutated |
| ResumeRuns.NoServiceNoMutation | src/living_adr/workflow/nodes/stubs.py:290-300 | without a service an approved capability is only acknowledged |
| ResumeRuns.HandoffTells | src/living_adr/workflow/nodes/stubs.py:267-313 | on any state, the handoff's outcome tells whether there was an answer, which, whether it came with a capability, and whether the service let a write through; without a service call the world stays |
| WorkflowRuns.MintingArms | src/living_adr/workflow/approval_node.py:107-120 | the fingerprint bound at mint time, with the decision id still pending, is the one checked at consume time; minting fails exactly for used ids |
| WorkflowRuns.ArmedHandoff | src/living_adr/approval/mutation_service.py:132-241 | a fresh bound decision is refused with the first failing check, or writes its record and consumption |
| WorkflowRuns.MintedRunWritesExactly | src/living_adr/workflow/nodes/stubs.py:240-313 | a minted run writes exactly when ids are fresh, the decision is in time and unused here, the approved hash is the draft's, and it is the canonical hash of the preview or the preview is empty; the written record is what was shown |
| WorkflowRuns.PlainApprovalWritesExactly | src/living_adr/approval/minting.py:81-91 | a plain approval of a draft hashed canonically writes exactly when in time with unused ids |
| WorkflowRuns.InTimeExactly | src/living_adr/approval/minting.py:268-285 | with fresh ids and a lifetime of whole seconds it writes exactly when checked within the lifetime, to the microsecond |
| WorkflowRuns.LateNeverWrites | src/living_adr/approval/validation.py:52-78 | a minted capability checked past its lifetime never writes, whatever the fraction of a second |
| WorkflowRuns.EditedHashNeverWrites | src/living_adr/approval/minting.py:81-91 | an edited hash other than the canonical hash of the non-empty preview never writes |
| WorkflowRuns.InnerContentRefusedExactly | src/living_adr/core/graph/approval_bound_mutation.py:110-138 | after the durable checks the inner content check refuses exactly when the approved hash is not the draft's, so never for a plain approval |
| WorkflowRuns.MutatedMeansReviewed | src/living_adr/workflow/graph.py:53-129 | in every wiring a run that ends as mutated or changes the graph took the one mutating path under an authorising answer, and its record is what the review request showed |
| WorkflowRuns.RejectAndDeferTouchNothing | src/living_adr/workflow/nodes/stubs.py:201-224 | reject and defer reach neither minting nor the service and leave log, graph and process as they were |
| WorkflowRuns.HandoffReplays | src/living_adr/approval/mutation_service.py:141-158 | the handoff repeated on a written state, at any time and in any process, reports the same node and writes nothing |
| WorkflowRuns.RaisedHandoffWritesAgain | src/living_adr/workflow/nodes/stubs.py:264-313 | a handoff whose graph store raises after the node has landed fails, leaves the write and nothing else, and writes again when repeated |
| Ingestion.IngestionStore.PutEvidence | src/living_adr/persistence/ingestion_store.py:75-78 | the first evidence of a key wins and is returned |
| Ingestion.EvidenceBuilder.BuildEvidence | src/living_adr/workflow/ingestion.py:67-100 | cached evidence without a fetch, the first failing fetch without evidence, or fetched and stored evidence |
| Ingestion.IngestionPipeline.ProcessWebhook | src/living_adr/workflow/ingestion.py:123-171 | duplicates are answered without change; others are filtered, normalised and stored |
| Ingestion.IngestionPipeline.AcceptDelivery | src/living_adr/workflow/ingestion.py:173-243 | envelope, build and delivery in this order with the status of a failure |
| Ingestion.ReplayService.ReplayDelivery | src/living_adr/workflow/replay.py:58-155 | missing, not reprocessable, reused, failed and succeeded replays |
| IngestionRuns.EveryDelivery | src/living_adr/core/ingestion.py:116-131 | in every run with a budget of at least one, by processes with a provider or without, a retryable delivery has a retryable category and budget left and a dead-lettered one does not |
| IngestionRuns.EvidenceLostExactly | src/living_adr/workflow/ingestion.py:146-158 | an accepted delivery with an envelope comes to lack its evidence exactly when a process without a provider accepts it after an interrupted one left the envelope |
| IngestionRuns.AcceptedHasEvidence | src/living_adr/workflow/ingestion.py:173-243 | a delivery has its evidence at every moment of a run, whenever it is accepted or replayed with an envelope, exactly when that never happens to it in the run |
| IngestionRuns.EvidenceIsLost | src/living_adr/workflow/ingestion.py:146-158 | it can happen: every accepted webhook, stopped behind its envelope and sent again to a process without a provider, ends accepted without evidence |
| IngestionRuns.BudgetHoldsExactly | src/living_adr/core/ingestion.py:116-131 | statuses agree with the budget in every run exactly when the budget is at least one |
| IngestionRuns.NoBudgetBreaks | src/living_adr/workflow/ingestion.py:189-202 | with any smaller budget one transient failure is stored as a retryable delivery over budget |
| IngestionRuns.RunGrows | src/living_adr/persistence/ingestion_store.py:61-86 | evidence is never replaced, retry counts never go down, and known deliveries keep their envelopes |
| IngestionRuns.DuplicatesChangeNothing | src/living_adr/workflow/ingestion.py:126-143 | a known delivery id changes nothing however much later it arrives |
| IngestionRuns.AnswersAgree | src/living_adr/workflow/replay.py:83-155 | all replays of one pull request, anywhere in a run, return the same evidence |
| IngestionRuns.OneFetchPerPullRequest | src/living_adr/workflow/ingestion.py:67-100 | without a stop between fetch and storage each pull request is fetched to completion at most once, and exactly when it has evidence |
| IngestionRuns.StopAfterFetchRefetches | src/living_adr/workflow/ingestion.py:76-93 | a stop there is followed by a second fetch |
| IngestionRuns.FailingReplaysCount | src/living_adr/workflow/replay.py:105-133 | while no fetch of its pull request succeeds, a delivery counts exactly its failing replays and the count alone decides between retryable and dead-lettered |
| IngestionRuns.DeadLetteredAtTheBudget | src/living_adr/core/ingestion.py:116-131 | a retryable delivery is dead-lettered on failing replay number max_retries, not before, and stays there |
| IngestionRuns.EvidenceRecoversDeadLetters | src/living_adr/workflow/replay.py:83-103 | once the pull request has evidence, any of its deliveries is replayed from the store without a fetch |
| PullRequests.KeyIdentifies | src/living_adr/core/scm.py:39-53 | with merge commits free of colons a key names exactly one repository key, number and commit |
| PullRequests.ColonsCollide | src/living_adr/core/scm.py:39-53 | with a colon in it a commit can make two pull requests share a key |
| PullRequests.EvidenceIsItsOwn | src/living_adr/workflow/ingestion.py:67-100 | over every run the evidence under a delivery's key was fetched for the repository, number and merge commit of that delivery's webhook |
| PullRequests.SharedExactly | src/living_adr/workflow/ingestion.py:67-100 | two deliveries share evidence exactly when they are of one pull request |
| PullRequests.UnfetchedAnswers | src/living_adr/workflow/ingestion.py:123-171 | answers and delivery rows of known, skipped and rejected deliveries, and of accepted ones without a provider |
| PullRequests.FetchedAnswers | src/living_adr/workflow/ingestion.py:173-243 | accepted with evidence, or the first failing fetch decides category, status and code |
| PullRequests.ReplayAnswers | src/living_adr/workflow/replay.py:58-155 | what a replay answers and stores: reuse uncounted, a fetch counted, the count and the category decide a failure; all else of the delivery stays |
| PullRequests.NothingToReplay | src/living_adr/workflow/replay.py:58-81 | without delivery or envelope nothing changes |
| Redaction.RedactOne | src/living_adr/observability/redaction.py:147-194 | keeps, converts, descends or drops one value and appends its diagnostics |
| Redaction.RedactMapping | src/living_adr/observability/redaction.py:197-213 | the same for a mapping, with the assignment order of a dictionary |
| Redaction.ApplyPolicy | src/living_adr/observability/redaction.py:216-256 | raw export needs the debug flag and a repository that is not sensitive |
| Redaction.DiffForbidden | src/living_adr/observability/redaction.py:259-270 | one report for every top-level string under a forbidden key |
| RedactionLaws.Survivors | src/living_adr/observability/redaction.py:147-213 | the leaves of the result are exactly the surviving leaves of the tree in order under the same keys: a string survives when its nearest key is not forbidden and its length is at most 512, or raw export is on |
| RedactionLaws.Diagnosed | src/living_adr/observability/redaction.py:147-213 | every dropped leaf gives exactly one diagnostic, in traversal order, with its path, key and reason |
| RedactionLaws.EntriesDiagnosed | src/living_adr/observability/redaction.py:197-213 | the same for whole mappings, repeated keys included |
| RedactionLaws.RedactionIsIdempotent | src/living_adr/observability/redaction.py:197-213 | a second pass changes nothing and reports nothing |
| RedactionLaws.EntriesWithinRaw | src/living_adr/observability/redaction.py:197-213 | the default export is contained, at every depth, in what raw export would give |
| RedactionLaws.NothingForbiddenIsExported | src/living_adr/observability/redaction.py:216-256 | without raw export no text under a forbidden key and no oversized text leaves, at any depth |
| RedactionLaws.SensitiveOverridesDebug | src/living_adr/observability/redaction.py:237-256 | marking a repository sensitive gives the default export, and the extra reports name only dropped strings |
| RedactionLaws.RawExportExactly | src/living_adr/observability/redaction.py:216-256 | raw export is allowed exactly when asked for in a repository that is not sensitive, and then drops only objects that are no metadata |
| RedactionLaws.DenialsExactly | src/living_adr/observability/redaction.py:259-270 | a refused raw export reports exactly the top-level strings under forbidden keys |
| RedactionKeys.ForbiddenExactly | src/living_adr/observability/redaction.py:20-140 | a key is forbidden exactly when it mentions, in any case, one of the sensitive words, is none of the plain keys and has no measure's ending; words, keys and endings are listed |
| TokenBudget.Apply | src/living_adr/workflow/drafting/token_budget.py:88-151 | the accumulating loops compute the specification |
| TokenBudget.BudgetPartitions | src/living_adr/workflow/drafting/token_budget.py:102-151 | included and omitted sections together are the input |
| TokenBudget.BudgetTotals | src/living_adr/workflow/drafting/token_budget.py:105-151 | blocked exactly when required cost is over budget; otherwise all required sections are in, the total is the exact cost within budget, and truncated means something was omitted |
| TokenBudget.BudgetIsMaximalExactly | src/living_adr/workflow/drafting/token_budget.py:121-130 | no omitted section of any result would still fit exactly when the estimator does not take both signs |
| TokenBudget.BothSignsLeaveRoom | src/living_adr/workflow/drafting/token_budget.py:121-130 | two sections and a budget that leave room, for every estimator that does |
| TokenBudget.RoomByPriority | src/living_adr/workflow/drafting/token_budget.py:83-130 | optional sections are looked at by ascending priority and then by name, and each is included exactly when it fits beside the required ones and those included before it |
| TokenBudget.OmittedInOrder | src/living_adr/workflow/drafting/token_budget.py:105-151 | omitted sections are listed in that order, and a blocked budget lists all, the required ones first |
| TokenBudget.BudgetForgetsInputOrder | src/living_adr/workflow/drafting/token_budget.py:83-151 | with unique priority and name the whole result does not depend on the input order |
| TokenBudget.PromptWithinBudget | src/living_adr/workflow/drafting/token_budget.py:37-41 | the heuristic estimate of the concatenated included contents is at most the total |
| Sorting.StableSort | src/living_adr/workflow/drafting/token_budget.py:83-85 | elements with equal keys keep their order |
| Sorting.SortedIsUnique | src/living_adr/workflow/drafting/token_budget.py:83-85 | with unique keys there is one sorted arrangement |
| Sorting.LexMeans | src/living_adr/core/dependency_evidence.py:163-182 | the order on texts is alphabetical |
| DependencyEvidence.NestedPathsMatch | src/living_adr/core/dependency_evidence.py:86-119 | recognition depends on the last path component only, under either separator |
| DependencyEvidence.RecognizeFiles | src/living_adr/core/dependency_evidence.py:163-182 | recognised files sorted by path |
| DependencyEvidence.RecognizeForgetsOrder | src/living_adr/core/dependency_evidence.py:163-182 | with distinct names they do not depend on the order of the changes |
| DependencyEvidence.BuildEvidence | src/living_adr/core/dependency_evidence.py:194-248 | one evidence record per recognised file, in path order |
| DependencyClassifier.AggregateOperation | src/living_adr/workflow/dependency_classifier.py:76-95 | none for an unknown or missing operation, the common one, or mixed |
| DependencyClassifier.GroupFiles | src/living_adr/workflow/dependency_classifier.py:118-124 | the dictionary of groups holds each ecosystem's files in order and no empty group |
| DependencyClassifier.ClassifyCandidate | src/living_adr/workflow/dependency_classifier.py:115-238 | the loops compute the specification |
| DependencyLaws.ClassifyForgetsOrder | src/living_adr/workflow/dependency_classifier.py:115-238 | the whole result is the same for every order of changed files with distinct names |
| DependencyLaws.ChangesExactly | src/living_adr/workflow/dependency_classifier.py:160-232 | an ecosystem has a change exactly when it has a manifest, all manifest operations are known and the threshold is met; then it has one, covering all its files, mixed exactly when two manifests differ |
| DependencyLaws.OneRecordPerEcosystem | src/living_adr/workflow/dependency_classifier.py:160-238 | there are as many records as ecosystems with recognised files |
| DependencyLaws.EveryFileInOneRecord | src/living_adr/workflow/dependency_classifier.py:115-238 | the paths of all records together are the recognised paths, each once |
| DependencyLaws.ChangesCiteTheirEvidence | src/living_adr/workflow/dependency_classifier.py:194-232 | a change cites the evidence record of each of its files in order |
| DependencyRecords.RecognizedExactly | src/living_adr/core/dependency_evidence.py:54-119 | under any directory and either separator the known manifests and lockfiles of the seven ecosystems are recognised, and nothing else |
| DependencyRecords.ObservedExactly | src/living_adr/core/dependency_evidence.py:122-148 | what is observed of a file: lockfiles churn; a manifest's status decides, in any case, and the changed lines where it is silent |
| DependencyRecords.RecognizedSays | src/living_adr/core/dependency_evidence.py:163-182 | the recognised files are the changed files with known names, each with what is observed of it |
| DependencyRecords.EvidenceIdentifies | src/living_adr/core/structural_change.py:180-195 | an evidence id identifies repository, pull request, path and kind, over bar-free parts |
| DependencyRecords.EvidencePreimage | src/living_adr/core/structural_change.py:152-194 | the exact text that is hashed for an evidence id |
| DependencyRecords.EvidenceSays | src/living_adr/core/dependency_evidence.py:194-248 | an evidence record quotes its file |
| DependencyRecords.ChangeSays | src/living_adr/workflow/dependency_classifier.py:176-232 | operation, certainty, reason and ordered paths of every change |
| DependencyRecords.OutcomesExactly | src/living_adr/workflow/dependency_classifier.py:130-192 | every ecosystem with files and without a change has an outcome that says why, and there is no other outcome |
| DependencyRecords.OutcomesCiteTheirEvidence | src/living_adr/workflow/dependency_classifier.py:130-158 | an outcome cites, in the order of its paths, the evidence of each of its files |
| DependencyRecords.ResultsInOrder | src/living_adr/workflow/dependency_classifier.py:232-238 | changes come by ecosystem, outcomes by reason and id |
| DependencyRecords.ChangeIdIdentifies | src/living_adr/workflow/dependency_classifier.py:194-232 | a change id identifies repository, pull request, operation and paths |
| DependencyRecords.OutcomeIdIdentifies | src/living_adr/workflow/dependency_classifier.py:130-158 | an outcome id identifies repository, pull request, reason and paths |

## Left out

- SQL, JSON serialisation, HTTP, the GitHub client, LangGraph checkpoints and LlamaIndex storage: each table is a map with a unique key, the contents port a list of entries, the graph store an upsert map.
- SHA-256 itself and Unicode: the digest is some injective function into hexadecimal text; letters outside ASCII are neither lower-cased nor normalised, and slugs start from text already reduced to ASCII.
- Validators that strip identifiers or refuse empty ones, and random audit row ids, which nothing reads.
- `decision_mutation_links` and the timeline queries, which list rows the model already relates.
- The other five graph mutations: only their fingerprints are modelled.
- A create that lands and is answered as a conflict in the sequential commit loop: `PublicationProtocol` has it as a step.
- Two publishers of one decision at the same time, and racing `finalize` calls: the contents port has no branch head, so the file theorems are for one writer.
- `PullRequestPublisher`, which reuses the same helpers over the base branch's listing.
- Payload parsing and signature checks: a webhook arrives with its filter decision.
- Interrupting and resuming a workflow: a run is taken from its event to its end, with the reviewer's answer as an input.
- Summaries and provenance of dependency evidence, prompt notes, observability events, confidence floats of the drafting classifier, schema and API detectors, configuration, onboarding and the CLI.
- PublicationProtocol.CommittedRecordNamesTheFile: says that no other marked file exists, not that the file is still there, because foreign commits may delete it.
- PublicationProtocol.AtMostOneMarkedFile: speaks of one directory of one branch, because a decision whose record is lost gets a second file when the retry names another (`PublicationLaws.OtherDirectoryAfterLoss`); it assumes that foreign commits bring no file the search for this decision would find; for the commits of other decisions `SharedDirectory` proves it.
- Publication.PublicationService.PublishToFile: has no outcome for a record store or audit store that raises between reservation, commit and finalisation; `PublicationProtocol` has a crash at each of these places.
- Slugging.TrimmedShape: speaks of titles already reduced to ASCII, so it does not say which accented letters the normalisation keeps.
- RedactionLaws.Survivors: speaks of mappings whose keys stay distinct as text, as does `RedactionLaws.EntriesWithinRaw`; when two keys read the same a later surviving value replaces the earlier one, and then `Diagnosed`, `RedactionIsIdempotent` and `NothingForbiddenIsExported` still hold.
