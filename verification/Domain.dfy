/** Records shared by the approval, mutation and publication code
    (core/models.py, core/adr.py, core/approval.py, approval/models.py).
    Their validators strip identifiers and refuse empty ones; values here are taken as
    already validated. Times are microseconds, and clock readings are inputs. */
module Domain {
  import opened Prelude
  import opened InsertOnce

  datatype Repository = Repository(host: string, owner: string, repo: string, repoId: string) {
    /** `RepositoryIdentity.key`: three of the four fields. */
    function Key(): string {
      host + "/" + owner + "/" + repo
    }
  }

  datatype ADRRecord = ADRRecord(
    repository: Repository,
    adrId: string,
    title: string,
    contentHash: string,
    decisionId: string,
    structuralChangeId: Option<string>,
    evidenceIds: seq<string>,
    markdown: string)

  /** `ApprovedReviewDecision`: the one-shot capability. */
  datatype Decision = Decision(
    repository: Repository,
    decisionId: string,
    reviewerId: string,
    adrDraftId: string,
    contentHash: string,
    structuralChangeId: Option<string>,
    targetFingerprint: string,
    mintedAt: int,
    approved: bool)

  /** `MintedDecisionRecord`: what survives a restart. */
  datatype Minted = Minted(
    decisionId: string,
    reviewEventId: string,
    repositoryKey: string,
    reviewerId: string,
    adrDraftId: string,
    adrRecordId: string,
    contentHash: string,
    targetFingerprint: string,
    mintedAt: int,
    ttlSeconds: int)
  {
    function ExpiresAt(): int {
      mintedAt + 1000000 * ttlSeconds
    }
  }

  /** Python's `int(...)` of a duration in seconds: rounds toward zero. */
  function WholeSeconds(ttl: int): int {
    if ttl >= 0 then ttl / 1000000 else -((-ttl) / 1000000)
  }

  datatype ConsumptionBody = ConsumptionBody(repositoryKey: string, nodeId: string, consumedAt: int)

  /** `ConsumptionRecord`: keyed by the decision id, compared by the target fingerprint. */
  type Consumption = Row<ConsumptionBody>

  datatype NodeId = NodeId(repository: Repository, value: string)

  /** `adr_node_value` (graph/llamaindex_mapping.py). */
  function AdrNodeValue(adr: ADRRecord): string {
    "adr:" + adr.adrId
  }

  datatype EventType =
    | CapabilityMinted
    | ValidationFailed
    | ConsumptionRecorded
    | MutationPerformed
    | PublicationLinked

  /** One audit row. Its random id is left out: nothing reads it. */
  datatype AuditEvent = AuditEvent(
    eventType: EventType,
    repositoryKey: string,
    recordedAt: int,
    decisionId: Option<string>,
    reviewerId: Option<string>,
    targetFingerprint: string,
    detail: string)

  datatype ReviewAction = Approve | ApproveAfterEdit | Reject | Defer {
    predicate AuthorizesMutation() {
      Approve? || ApproveAfterEdit?
    }
  }

  datatype ReviewCommand = ReviewCommand(
    action: ReviewAction,
    reviewerId: string,
    editedContentHash: Option<string>,
    approvedDecision: Option<Decision>)

  datatype ReviewContext = ReviewContext(
    repository: Repository,
    adrDraftId: string,
    contentHash: string,
    structuralChangeId: Option<string>,
    adrRecordId: string)

  datatype ApprovalEvent = ApprovalEvent(
    reviewEventId: string,
    repository: Repository,
    reviewerId: string,
    action: ReviewAction,
    adrDraftId: string,
    contentHash: string,
    recordedAt: int,
    decisionId: Option<string>,
    authorizing: bool)

  /** The exceptions of the approval boundary. The inner service raises its own set, which
      is told apart here because it leaves no audit row. */
  datatype Error =
    | NotApproved
    | RepositoryMismatch
    | Expired
    | ContentMismatch
    | TargetMismatch
    | AlreadyConsumed
    | InnerNotApproved
    | InnerRepositoryMismatch
    | InnerContentMismatch
    | InnerTargetMismatch
    | InnerAlreadyConsumed
    | WriteScopeMismatch
    | AuditDurability
    | StoreFailure
    | DuplicateReviewEvent
    | NotAuthorized
    | PublicationTargetMismatch
    | ConflictExhausted
    | ProviderFailure
  {
    /** The class name a failed validation leaves in its audit row. */
    function FailureKind(): string {
      match this
      case NotApproved => "DecisionNotApprovedError"
      case RepositoryMismatch => "DecisionRepositoryMismatchError"
      case Expired => "DecisionExpiredError"
      case ContentMismatch => "DraftContentMismatchError"
      case TargetMismatch => "TargetMutationMismatchError"
      case _ => "ApprovalError"
    }
  }
}
