/** Durable approval facts: the append-only log (approval/repository.py), just-in-time
    validation (approval/validation.py), minting (approval/minting.py) and the per-decision
    trail (approval/audit_queries.py). */
module Approval {
  import opened Prelude
  import opened Hashing
  import opened Domain
  import opened InsertOnce

  // ------------------------------------------------------------------ the log

  datatype Log = Log(
    events: seq<ApprovalEvent>,
    decisions: map<string, Minted>,
    consumptions: Table<ConsumptionBody>,
    audit: seq<AuditEvent>)
  {
    predicate HasEvent(id: string) {
      exists e :: e in events && e.reviewEventId == id
    }

    function GetMinted(id: string): Option<Minted> {
      if id in decisions then Some(decisions[id]) else None
    }

    function GetConsumption(id: string): Option<Consumption> {
      if id in consumptions then Some(consumptions[id]) else None
    }

    function Append(row: AuditEvent): Log {
      this.(audit := audit + [row])
    }

    /** `list_audit_events(decision_id=id)`. */
    function Trail(id: string): seq<AuditEvent> {
      Filter(audit, (e: AuditEvent) => e.decisionId == Some(id))
    }

    function EventFor(id: string): Option<ApprovalEvent> {
      var found := Filter(events, (e: ApprovalEvent) => e.decisionId == Some(id));
      if found == [] then None else Some(found[0])
    }
  }

  const EMPTY_LOG := Log([], map[], map[], [])

  /** `InMemoryApprovalAuditRepository`. */
  class AuditRepository {
    var events: seq<ApprovalEvent>
    var decisions: map<string, Minted>
    var consumptions: Table<ConsumptionBody>
    var audit: seq<AuditEvent>

    function State(): Log
      reads this
    {
      Log(events, decisions, consumptions, audit)
    }

    constructor ()
      ensures State() == EMPTY_LOG
    {
      events, decisions, consumptions, audit := [], map[], map[], [];
    }

    method RecordReviewEvent(event: ApprovalEvent) returns (r: Result<ApprovalEvent, Error>)
      modifies this
      ensures old(State()).HasEvent(event.reviewEventId) ==> r == Err(DuplicateReviewEvent) && State() == old(State())
      ensures !old(State()).HasEvent(event.reviewEventId) ==>
                r == Ok(event) && State() == old(State()).(events := old(events) + [event])
    {
      if exists e :: e in events && e.reviewEventId == event.reviewEventId {
        return Err(DuplicateReviewEvent);
      }
      events := events + [event];
      return Ok(event);
    }

    method RecordMintedDecision(record: Minted) returns (r: Result<Minted, Error>)
      modifies this
      ensures record.decisionId in old(decisions) ==> r.Err? && State() == old(State())
      ensures record.decisionId !in old(decisions) ==>
                r == Ok(record) && State() == old(State()).(decisions := old(decisions)[record.decisionId := record])
    {
      if record.decisionId in decisions {
        return Err(AuditDurability);
      }
      decisions := decisions[record.decisionId := record];
      return Ok(record);
    }

    method RecordConsumption(row: Consumption) returns (outcome: Outcome<ConsumptionBody>)
      modifies this
      ensures (consumptions, outcome) == Put(old(consumptions), row)
      ensures State() == old(State()).(consumptions := consumptions)
    {
      if row.key in consumptions {
        outcome := Reconcile(consumptions[row.key], row);
      } else {
        consumptions := consumptions[row.key := row];
        outcome := Inserted(row);
      }
    }

    method RecordAuditEvent(row: AuditEvent)
      modifies this
      ensures State() == old(State()).Append(row)
    {
      audit := audit + [row];
    }

    method ListAuditEvents(id: string) returns (rows: seq<AuditEvent>)
      ensures rows == State().Trail(id)
    {
      rows := [];
      var mine := (e: AuditEvent) => e.decisionId == Some(id);
      for i := 0 to |audit|
        invariant rows == Filter(audit[..i], mine)
      {
        FilterAppend(audit[..i], [audit[i]], mine);
        assert audit[..i + 1] == audit[..i] + [audit[i]];
        if audit[i].decisionId == Some(id) {
          rows := rows + [audit[i]];
        }
      }
      assert audit[..] == audit;
      assert audit[..|audit|] == audit;
    }

    method FindReviewEventForDecision(id: string) returns (found: Option<ApprovalEvent>)
      ensures found == State().EventFor(id)
    {
      var mine := (e: ApprovalEvent) => e.decisionId == Some(id);
      for i := 0 to |events|
        invariant Filter(events[..i], mine) == []
      {
        FilterAppend(events[..i], [events[i]], mine);
        assert events[..i + 1] == events[..i] + [events[i]];
        if events[i].decisionId == Some(id) {
          FilterAppend(events[..i + 1], events[i + 1..], mine);
          assert events == events[..i + 1] + events[i + 1..];
          return Some(events[i]);
        }
      }
      assert events[..|events|] == events;
      return None;
    }
  }

  // ------------------------------------------------------------------ validation

  function ExpiryFor(decision: Decision, ttl: int, minted: Option<Minted>): int {
    match minted
    case Some(record) => record.ExpiresAt()
    case None => decision.mintedAt + ttl
  }

  /** `validate_decision`: the checks in their fixed order, at clock reading `now`. */
  function Validate(decision: Option<Decision>, repository: Repository, expected: string,
                    content: Option<string>, now: int, ttl: int, minted: Option<Minted>): (r: Result<Decision, Error>)
  {
    if decision.None? || !decision.value.approved then Err(NotApproved)
    else
      var d := decision.value;
      if d.repository != repository then Err(RepositoryMismatch)
      else if now > ExpiryFor(d, ttl, minted) then Err(Expired)
      else if content.Some? && CanonicalHash(content.value) != d.contentHash then Err(ContentMismatch)
      else if d.targetFingerprint != expected then Err(TargetMismatch)
      else Ok(d)
  }

  function FailureRow(decision: Option<Decision>, repository: Repository, expected: string, at: int, e: Error): AuditEvent {
    AuditEvent(
      ValidationFailed, repository.Key(), at,
      if decision.Some? then Some(decision.value.decisionId) else None,
      if decision.Some? then Some(decision.value.reviewerId) else None,
      expected, e.FailureKind())
  }

  /** `validate_for_mutation`: a failed validation leaves one audit row. */
  function ValidateForMutation(log: Log, decision: Option<Decision>, repository: Repository, expected: string,
                               content: Option<string>, now: int, failedAt: int, ttl: int): (Log, Result<Decision, Error>)
  {
    var minted := if decision.Some? then log.GetMinted(decision.value.decisionId) else None;
    var r := Validate(decision, repository, expected, content, now, ttl, minted);
    match r
    case Ok(_) => (log, r)
    case Err(e) => (log.Append(FailureRow(decision, repository, expected, failedAt, e)), r)
  }

  method RunValidation(audit: AuditRepository, decision: Option<Decision>, repository: Repository, expected: string,
                       content: Option<string>, now: int, failedAt: int, ttl: int)
    returns (r: Result<Decision, Error>)
    modifies audit
    ensures (audit.State(), r) == ValidateForMutation(old(audit.State()), decision, repository, expected, content, now, failedAt, ttl)
  {
    var minted := if decision.Some? then audit.State().GetMinted(decision.value.decisionId) else None;
    r := Validate(decision, repository, expected, content, now, ttl, minted);
    if r.Err? {
      audit.RecordAuditEvent(FailureRow(decision, repository, expected, failedAt, r.error));
    }
  }

  // ------------------------------------------------------------------ minting

  /** `_reviewed_content_hash`: an edited hash wins on approve-after-edit. */
  function ReviewedHash(command: ReviewCommand, context: ReviewContext): string {
    if command.action.ApproveAfterEdit? && command.editedContentHash.Some? && command.editedContentHash.value != ""
    then command.editedContentHash.value
    else context.contentHash
  }

  datatype MintResult = MintResult(event: ApprovalEvent, decision: Option<Decision>, minted: Option<Minted>)

  function ReviewEvent(command: ReviewCommand, context: ReviewContext, at: int, id: string, decisionId: Option<string>): ApprovalEvent {
    ApprovalEvent(id, context.repository, command.reviewerId, command.action, context.adrDraftId,
                  ReviewedHash(command, context), at, decisionId, command.action.AuthorizesMutation())
  }

  function NewDecision(command: ReviewCommand, context: ReviewContext, target: Option<string>, at: int, id: string): Decision {
    Decision(context.repository, id, command.reviewerId, context.adrDraftId, ReviewedHash(command, context),
             context.structuralChangeId,
             if target.Some? && target.value != "" then target.value else "unbound:" + id,
             at, true)
  }

  function MintedFor(d: Decision, context: ReviewContext, reviewEventId: string, ttl: int): Minted {
    Minted(d.decisionId, reviewEventId, d.repository.Key(), d.reviewerId, d.adrDraftId, context.adrRecordId,
           d.contentHash, d.targetFingerprint, d.mintedAt, WholeSeconds(ttl))
  }

  function ActionValue(a: ReviewAction): string {
    match a
    case Approve => "approve"
    case ApproveAfterEdit => "approve_after_edit"
    case Reject => "reject"
    case Defer => "defer"
  }

  function MintedRow(d: Decision, action: ReviewAction): AuditEvent {
    AuditEvent(CapabilityMinted, d.repository.Key(), d.mintedAt, Some(d.decisionId), Some(d.reviewerId),
               d.targetFingerprint, ActionValue(action))
  }

  /** Where the audit store raises during minting, if it does. */
  datatype MintFailure = NoFailure | AtEvent | AtRecord | AtRow

  /** `mint_approved_decision`: the review event, then the minted record, then the audit row.
      An outcome that does not authorise records its event only. A store that raises leaves
      what was stored before, and no capability is handed out. */
  function MintWith(log: Log, command: ReviewCommand, context: ReviewContext, target: Option<string>, ttl: int,
                    at: int, reviewEventId: string, decisionId: string, failure: MintFailure): (Log, Result<MintResult, Error>)
  {
    if !command.action.AuthorizesMutation() then
      var event := ReviewEvent(command, context, at, reviewEventId, None);
      if failure.AtEvent? then (log, Err(AuditDurability))
      else if log.HasEvent(reviewEventId) then (log, Err(DuplicateReviewEvent))
      else (log.(events := log.events + [event]), Ok(MintResult(event, None, None)))
    else
      var event := ReviewEvent(command, context, at, reviewEventId, Some(decisionId));
      if failure.AtEvent? || log.HasEvent(reviewEventId) then (log, Err(AuditDurability))
      else
        var recorded := log.(events := log.events + [event]);
        if failure.AtRecord? || decisionId in log.decisions then (recorded, Err(AuditDurability))
        else
          var d := NewDecision(command, context, target, at, decisionId);
          var m := MintedFor(d, context, reviewEventId, ttl);
          var minted := recorded.(decisions := recorded.decisions[decisionId := m]);
          if failure.AtRow? then (minted, Err(AuditDurability))
          else (minted.Append(MintedRow(d, command.action)), Ok(MintResult(event, Some(d), Some(m))))
  }

  /** ... with a store that does not raise. */
  function Mint(log: Log, command: ReviewCommand, context: ReviewContext, target: Option<string>, ttl: int,
                at: int, reviewEventId: string, decisionId: string): (Log, Result<MintResult, Error>)
  {
    MintWith(log, command, context, target, ttl, at, reviewEventId, decisionId, NoFailure)
  }

  method MintApprovedDecision(audit: AuditRepository, command: ReviewCommand, context: ReviewContext,
                              target: Option<string>, ttl: int, at: int, reviewEventId: string, decisionId: string,
                              failure: MintFailure)
    returns (r: Result<MintResult, Error>)
    modifies audit
    ensures (audit.State(), r) == MintWith(old(audit.State()), command, context, target, ttl, at, reviewEventId, decisionId, failure)
  {
    if failure.AtEvent? {
      return Err(AuditDurability);
    }
    if !command.action.AuthorizesMutation() {
      var event := ReviewEvent(command, context, at, reviewEventId, None);
      var recorded := audit.RecordReviewEvent(event);
      if recorded.Err? {
        return Err(recorded.error);
      }
      return Ok(MintResult(event, None, None));
    }
    var event := ReviewEvent(command, context, at, reviewEventId, Some(decisionId));
    var recorded := audit.RecordReviewEvent(event);
    if recorded.Err? || failure.AtRecord? {
      return Err(AuditDurability);
    }
    var d := NewDecision(command, context, target, at, decisionId);
    var m := MintedFor(d, context, reviewEventId, ttl);
    var stored := audit.RecordMintedDecision(m);
    if stored.Err? || failure.AtRow? {
      return Err(AuditDurability);
    }
    audit.RecordAuditEvent(MintedRow(d, command.action));
    return Ok(MintResult(event, Some(d), Some(m)));
  }

  // ------------------------------------------------------------------ the per-decision trail

  /** `DecisionAuditTrail`. */
  datatype DecisionTrail = DecisionTrail(
    event: Option<ApprovalEvent>,
    minted: Option<Minted>,
    consumption: Option<Consumption>,
    rows: seq<AuditEvent>)
  {
    predicate WasMutated() {
      exists e :: e in rows && e.eventType == MutationPerformed
    }

    function MutationNode(): Option<string> {
      if consumption.Some? then Some(consumption.value.body.nodeId) else None
    }
  }

  method BuildDecisionAuditTrail(audit: AuditRepository, id: string) returns (trail: DecisionTrail)
    ensures trail == TrailOf(audit.State(), id)
  {
    var event := audit.FindReviewEventForDecision(id);
    var rows := audit.ListAuditEvents(id);
    trail := DecisionTrail(event, audit.State().GetMinted(id), audit.State().GetConsumption(id), rows);
  }

  function TrailOf(log: Log, id: string): DecisionTrail {
    DecisionTrail(log.EventFor(id), log.GetMinted(id), log.GetConsumption(id), log.Trail(id))
  }
}
