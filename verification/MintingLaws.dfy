/** What minting records: the capability and the minted record say what the reviewer decided,
    and the record expires when the capability's lifetime is over. */
module MintingLaws {
  import opened Prelude
  import opened Domain
  import opened Approval

  /** The content hash a review approves: an edited one only where the reviewer approved after
      editing and gave one. */
  ghost predicate Approves(command: ReviewCommand, context: ReviewContext, hash: string) {
    if command.action == ApproveAfterEdit && command.editedContentHash.Some? && command.editedContentHash.value != "" then
      hash == command.editedContentHash.value
    else
      hash == context.contentHash
  }

  /** The capability carries the decision of the reviewer. */
  ghost predicate Capability(d: Decision, command: ReviewCommand, context: ReviewContext, target: Option<string>, at: int, id: string) {
    && d.approved && d.decisionId == id && d.mintedAt == at
    && d.reviewerId == command.reviewerId
    && d.repository == context.repository && d.adrDraftId == context.adrDraftId && d.structuralChangeId == context.structuralChangeId
    && Approves(command, context, d.contentHash)
    && (target.Some? && target.value != "" ==> d.targetFingerprint == target.value)
    && (target.None? || target.value == "" ==> d.targetFingerprint == "unbound:" + id)
  }

  /** The minted record repeats the capability, field by field. */
  ghost predicate Repeats(m: Minted, d: Decision, context: ReviewContext, reviewEventId: string) {
    && m.decisionId == d.decisionId && m.reviewEventId == reviewEventId && m.repositoryKey == d.repository.Key()
    && m.reviewerId == d.reviewerId && m.adrDraftId == d.adrDraftId && m.adrRecordId == context.adrRecordId
    && m.contentHash == d.contentHash && m.targetFingerprint == d.targetFingerprint && m.mintedAt == d.mintedAt
  }

  ghost predicate RecordsReview(e: ApprovalEvent, command: ReviewCommand, context: ReviewContext, at: int, id: string, decisionId: Option<string>) {
    && e.reviewEventId == id && e.recordedAt == at && e.decisionId == decisionId
    && e.repository == context.repository && e.adrDraftId == context.adrDraftId
    && e.reviewerId == command.reviewerId && e.action == command.action
    && (e.authorizing <==> command.action == Approve || command.action == ApproveAfterEdit)
    && Approves(command, context, e.contentHash)
  }

  /** The words of the review actions. */
  function Word(action: ReviewAction): string {
    if action == Approve then "approve"
    else if action == ApproveAfterEdit then "approve_after_edit"
    else if action == Reject then "reject"
    else "defer"
  }

  /** An approval with fresh ids is minted: one event, one record that repeats the capability,
      and one row with the action. */
  lemma ApprovalIsMinted(log: Log, command: ReviewCommand, context: ReviewContext, target: Option<string>, ttl: int,
                         at: int, reviewEventId: string, decisionId: string)
    requires command.action == Approve || command.action == ApproveAfterEdit
    requires !log.HasEvent(reviewEventId) && decisionId !in log.decisions
    ensures var (after, r) := Mint(log, command, context, target, ttl, at, reviewEventId, decisionId);
      && r.Ok? && r.value.decision.Some? && r.value.minted.Some?
      && var d, m, e := r.value.decision.value, r.value.minted.value, r.value.event;
      && Capability(d, command, context, target, at, decisionId)
      && Repeats(m, d, context, reviewEventId)
      && RecordsReview(e, command, context, at, reviewEventId, Some(decisionId))
      && after.events == log.events + [e] && after.decisions == log.decisions[decisionId := m]
      && after.consumptions == log.consumptions
      && after.audit == log.audit + [AuditEvent(CapabilityMinted, context.repository.Key(), at, Some(decisionId), Some(command.reviewerId),
                                                d.targetFingerprint, Word(command.action))]
  {
  }

  /** Whatever else the reviewer answers is recorded as an event, and nothing is minted. */
  lemma OtherOutcomesAreRecorded(log: Log, command: ReviewCommand, context: ReviewContext, target: Option<string>, ttl: int,
                                 at: int, reviewEventId: string, decisionId: string)
    requires command.action == Reject || command.action == Defer
    ensures var (after, r) := Mint(log, command, context, target, ttl, at, reviewEventId, decisionId);
      && (log.HasEvent(reviewEventId) ==> after == log && r == Err(DuplicateReviewEvent))
      && (!log.HasEvent(reviewEventId) ==>
            && r.Ok? && r.value.decision.None? && r.value.minted.None?
            && RecordsReview(r.value.event, command, context, at, reviewEventId, None)
            && after == log.(events := log.events + [r.value.event]))
  {
  }

  /** Used ids are refused: a used event id before anything is stored, a used decision id behind
      the event. */
  lemma UsedIdsAreRefused(log: Log, command: ReviewCommand, context: ReviewContext, target: Option<string>, ttl: int,
                          at: int, reviewEventId: string, decisionId: string)
    requires command.action == Approve || command.action == ApproveAfterEdit
    requires log.HasEvent(reviewEventId) || decisionId in log.decisions
    ensures var (after, r) := Mint(log, command, context, target, ttl, at, reviewEventId, decisionId);
      && r == Err(AuditDurability)
      && after.(events := log.events) == log
      && (log.HasEvent(reviewEventId) ==> after == log)
      && (!log.HasEvent(reviewEventId) ==> |after.events| == |log.events| + 1 && after.events[..|log.events|] == log.events)
  {
  }

  /** The minted record expires when the lifetime is over: less than a second early, never late,
      and exactly then for a lifetime of whole seconds. */
  lemma MintedExpiry(log: Log, command: ReviewCommand, context: ReviewContext, target: Option<string>, ttl: int,
                     at: int, reviewEventId: string, decisionId: string)
    requires Mint(log, command, context, target, ttl, at, reviewEventId, decisionId).1.Ok?
    ensures var minted := Mint(log, command, context, target, ttl, at, reviewEventId, decisionId).1.value.minted;
      minted.Some? ==>
        && (ttl >= 0 ==> at + ttl - 1000000 < minted.value.ExpiresAt() <= at + ttl)
        && (ttl <= 0 ==> at + ttl <= minted.value.ExpiresAt() < at + ttl + 1000000)
        && (ttl % 1000000 == 0 ==> minted.value.ExpiresAt() == at + ttl)
  {
  }
}
