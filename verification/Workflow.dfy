/** The review workflow (workflow/graph.py, workflow/nodes/stubs.py, workflow/approval_node.py):
    the node topology, the nodes, and what a whole run shows the reviewer and writes. The
    classifier and drafting nodes are injected there, so their results are inputs here. */
module Workflow {
  import opened Prelude
  import opened Domain
  import opened Fingerprints
  import opened Approval
  import opened Mutation
  import Numbering

  // ------------------------------------------------------------------ the state

  datatype Event = Event(provider: string, repository: Repository, prNumber: nat, deliveryId: string) {
    function DefaultKey(): string {
      provider + ":" + repository.Key() + ":" + Numbering.Decimal(prNumber) + ":" + deliveryId
    }
  }

  datatype Classification = Classification(adrNeeded: bool, changes: seq<string>)

  datatype Draft = Draft(
    draftId: string,
    contentHash: string,
    preview: string,
    citationIds: seq<string>,
    structuralChangeId: Option<string>)

  /** `ReviewRequestPayload`: what the reviewer is shown. */
  datatype Request = Request(
    repository: Repository,
    eventKey: string,
    draftId: string,
    contentHash: string,
    preview: string,
    evidenceIds: seq<string>)

  datatype Outcome = Mutated | NoMutation | Rejected | Deferred | Blocked

  datatype MutationResult = MutationResult(
    outcome: Outcome,
    nodeId: Option<string>,
    decisionId: Option<string>,
    serviceCalled: bool)

  datatype Status =
    | AtIntake
    | Classifying
    | NoAdrNeeded
    | Drafting
    | Resuming
    | Completed
    | WasRejected
    | WasDeferred
    | HasFailed

  datatype WorkflowState = WorkflowState(
    repository: Option<Repository>,
    event: Option<Event>,
    eventKey: Option<string>,
    classification: Option<Classification>,
    draft: Option<Draft>,
    request: Option<Request>,
    command: Option<ReviewCommand>,
    decision: Option<Decision>,
    result: Option<MutationResult>,
    status: Status)

  function TextOr(s: Option<string>, otherwise: string): string {
    if s.Some? && s.value != "" then s.value else otherwise
  }

  /** `WorkflowState.for_event`. */
  function ForEvent(event: Event, key: Option<string>): WorkflowState {
    WorkflowState(Some(event.repository), Some(event), Some(TextOr(key, event.DefaultKey())), None, None, None, None, None, None, AtIntake)
  }

  datatype Fault = BadState | BadResume | Refused(error: Error)

  // ------------------------------------------------------------------ the nodes

  /** What a client resumes the interrupted run with. */
  datatype Resume =
    | Typed(command: ReviewCommand)
    | Mapping(fields: ReviewCommand)
    | Action(action: ReviewAction)
    | Text(text: string)
    | SomethingElse

  function ParseAction(text: string): Option<ReviewAction> {
    if text == "approve" then Some(Approve)
    else if text == "approve_after_edit" then Some(ApproveAfterEdit)
    else if text == "reject" then Some(Reject)
    else if text == "defer" then Some(Defer)
    else None
  }

  /** `_coerce_resume_command`. */
  function Coerce(value: Resume): Result<ReviewCommand, Fault> {
    match value
    case Typed(command) => Ok(command)
    case Mapping(fields) => Ok(fields)
    case Action(action) => Ok(ReviewCommand(action, "stub-reviewer", None, None))
    case Text(text) =>
      (match ParseAction(text)
       case Some(action) => Ok(ReviewCommand(action, "stub-reviewer", None, None))
       case None => Err(BadResume))
    case SomethingElse => Err(BadResume)
  }

  /** `build_request`. */
  function BuildRequest(s: WorkflowState): Option<Request> {
    if s.repository.None? || s.draft.None? then None
    else
      var d := s.draft.value;
      Some(Request(s.repository.value, TextOr(s.eventKey, ""), d.draftId, d.contentHash, d.preview, d.citationIds))
  }

  function ChangeId(s: WorkflowState): Option<string>
    requires s.draft.Some?
  {
    if s.classification.Some? && s.classification.value.changes != [] then Some(s.classification.value.changes[0])
    else s.draft.value.structuralChangeId
  }

  /** `build_adr_record`: the record an approval covers. */
  function BuildRecord(s: WorkflowState): Option<ADRRecord> {
    if s.repository.None? || s.draft.None? then None
    else
      var d := s.draft.value;
      var change := ChangeId(s);
      Some(ADRRecord(
             s.repository.value,
             d.draftId,
             if change.Some? && change.value != "" then "Approved ADR for change " + change.value else "Approved ADR",
             d.contentHash,
             if s.decision.Some? then s.decision.value.decisionId else "pending",
             change,
             d.citationIds,
             d.preview))
  }

  /** The clock readings, ids and injected results of one run. */
  datatype Input = Input(
    classification: Classification,
    draft: Draft,
    resume: Resume,
    mintedAt: int,
    reviewEventId: string,
    decisionId: string,
    checkedAt: int,
    recordedAt: int)

  /** Which optional parts a graph is built with. */
  datatype Wiring = Wiring(minting: bool, service: bool, mintTtl: int, serviceTtl: int)

  function Terminal(outcome: Outcome): MutationResult {
    MutationResult(outcome, None, None, false)
  }

  function Rejection(s: WorkflowState): WorkflowState {
    s.(result := Some(Terminal(Rejected)), status := WasRejected)
  }

  function Deferral(s: WorkflowState): WorkflowState {
    s.(result := Some(Terminal(Deferred)), status := WasDeferred)
  }

  function ContextOf(s: WorkflowState, record: ADRRecord): ReviewContext
    requires s.repository.Some? && s.draft.Some?
  {
    ReviewContext(s.repository.value, s.draft.value.draftId, s.draft.value.contentHash, record.structuralChangeId, record.adrId)
  }

  /** `ApprovalMintingNode`: mint for the very record the handoff will write. */
  function MintFor(log: Log, s: WorkflowState, ttl: int, at: int, reviewEventId: string, decisionId: string): (Log, Result<WorkflowState, Fault>) {
    var record := BuildRecord(s);
    if s.command.None? || record.None? then (log, Err(BadState))
    else
      var command := s.command.value;
      var target := UpsertFingerprint(s.repository.value, record.value);
      var (after, minted) := Mint(log, command, ContextOf(s, record.value), Some(target), ttl, at, reviewEventId, decisionId);
      match minted
      case Err(e) => (after, Err(Refused(e)))
      case Ok(m) => (after, Ok(s.(decision := m.decision)))
  }

  class MintingNode {
    const audit: AuditRepository
    const ttl: int

    constructor (audit: AuditRepository, ttl: int)
      ensures this.audit == audit && this.ttl == ttl
    {
      this.audit, this.ttl := audit, ttl;
    }

    method Call(s: WorkflowState, at: int, reviewEventId: string, decisionId: string) returns (r: Result<WorkflowState, Fault>)
      modifies audit
      ensures (audit.State(), r) == MintFor(old(audit.State()), s, ttl, at, reviewEventId, decisionId)
    {
      var record := BuildRecord(s);
      if s.command.None? || record.None? {
        return Err(BadState);
      }
      var target := UpsertFingerprint(s.repository.value, record.value);
      var minted := MintApprovedDecision(audit, s.command.value, ContextOf(s, record.value), Some(target), ttl, at, reviewEventId, decisionId, NoFailure);
      if minted.Err? {
        return Err(Refused(minted.error));
      }
      return Ok(s.(decision := minted.value.decision));
    }
  }

  function Written(s: WorkflowState, decision: Decision, node: NodeId): WorkflowState {
    s.(result := Some(MutationResult(Mutated, Some(node.value), Some(decision.decisionId), true)), status := Completed)
  }

  /** `StubMutationHandoffNode`; `raises` as in `AuthorizeWith`. */
  function HandoffWith(w: World, s: WorkflowState, service: bool, checkedAt: int, recordedAt: int, ttl: int, raises: bool)
    : (World, Result<WorkflowState, Fault>)
  {
    if s.command.None? then (w, Ok(s.(result := Some(Terminal(Blocked)), status := HasFailed)))
    else if s.command.value.action.Reject? then (w, Ok(Rejection(s)))
    else if s.command.value.action.Defer? then (w, Ok(Deferral(s)))
    else if s.decision.None? || !s.decision.value.approved then
      (w, Ok(s.(result := Some(Terminal(NoMutation)), status := HasFailed)))
    else if !service then
      (w, Ok(s.(result := Some(MutationResult(NoMutation, None, Some(s.decision.value.decisionId), false)), status := Completed)))
    else
      var record := BuildRecord(s);
      if record.None? then (w, Err(BadState))
      else
        var (after, r) := AuthorizeWith(w, s.repository.value, record.value, s.decision, checkedAt, recordedAt, ttl, raises);
        match r
        case Err(e) => (after, Err(Refused(e)))
        case Ok(a) => (after, Ok(Written(s, s.decision.value, a.node)))
  }

  /** ... and with a store that does not raise. */
  function Handoff(w: World, s: WorkflowState, service: bool, checkedAt: int, recordedAt: int, ttl: int): (World, Result<WorkflowState, Fault>) {
    HandoffWith(w, s, service, checkedAt, recordedAt, ttl, false)
  }

  class HandoffNode {
    const service: DurableMutationService

    constructor (service: DurableMutationService)
      ensures this.service == service
    {
      this.service := service;
    }

    method Call(s: WorkflowState, checkedAt: int, recordedAt: int, raises: bool) returns (r: Result<WorkflowState, Fault>)
      modifies service.core, service.core.store, service.audit
      ensures (service.State(), r) == HandoffWith(old(service.State()), s, true, checkedAt, recordedAt, service.ttl, raises)
    {
      if s.command.None? {
        return Ok(s.(result := Some(Terminal(Blocked)), status := HasFailed));
      }
      if s.command.value.action.Reject? {
        return Ok(Rejection(s));
      }
      if s.command.value.action.Defer? {
        return Ok(Deferral(s));
      }
      if s.decision.None? || !s.decision.value.approved {
        return Ok(s.(result := Some(Terminal(NoMutation)), status := HasFailed));
      }
      var record := BuildRecord(s);
      if record.None? {
        return Err(BadState);
      }
      var done := service.AuthorizeAndUpsert(s.repository.value, record.value, s.decision, checkedAt, recordedAt, raises);
      if done.Err? {
        return Err(Refused(done.error));
      }
      return Ok(Written(s, s.decision.value, done.value.node));
    }
  }

  // ------------------------------------------------------------------ the graph

  datatype Node = Intake | Classify | DraftNode | Hitl | Minting | MutationNode | RejectionNode | DeferralNode | End

  /** How far a node is from the end of every path. */
  function Rank(n: Node): nat {
    match n
    case Intake => 6
    case Classify => 5
    case DraftNode => 4
    case Hitl => 3
    case Minting => 2
    case MutationNode => 1
    case RejectionNode => 1
    case DeferralNode => 1
    case End => 0
  }

  function RouteAfterClassify(s: WorkflowState): Node {
    if s.classification.Some? && s.classification.value.adrNeeded then DraftNode else End
  }

  function RouteAfterHitl(w: Wiring, s: WorkflowState): Node {
    if s.command.Some? && s.command.value.action.AuthorizesMutation() then (if w.minting then Minting else MutationNode)
    else if s.command.Some? && s.command.value.action.Defer? then DeferralNode
    else RejectionNode
  }

  /** The edges of `build_workflow_graph`. */
  function Route(w: Wiring, n: Node, s: WorkflowState): Node {
    match n
    case Intake => Classify
    case Classify => RouteAfterClassify(s)
    case DraftNode => Hitl
    case Hitl => RouteAfterHitl(w, s)
    case Minting => MutationNode
    case _ => End
  }

  function Visit(w: Wiring, input: Input, n: Node, s: WorkflowState, world: World): (World, Result<WorkflowState, Fault>) {
    match n
    case Intake =>
      (match s.event
       case None => (world, Err(BadState))
       case Some(event) => (world, Ok(s.(eventKey := Some(TextOr(s.eventKey, event.DefaultKey())), status := Classifying))))
    case Classify =>
      (world, Ok(s.(classification := Some(input.classification),
                    status := if input.classification.adrNeeded then Classifying else NoAdrNeeded)))
    case DraftNode => (world, Ok(s.(draft := Some(input.draft), status := Drafting)))
    case Hitl =>
      var request := BuildRequest(s);
      var command := Coerce(input.resume);
      if request.None? then (world, Err(BadState))
      else if command.Err? then (world, Err(command.error))
      else (world, Ok(s.(request := request, command := Some(command.value), decision := command.value.approvedDecision, status := Resuming)))
    case Minting =>
      var (log, r) := MintFor(world.log, s, w.mintTtl, input.mintedAt, input.reviewEventId, input.decisionId);
      (world.(log := log), r)
    case MutationNode => Handoff(world, s, w.service, input.checkedAt, input.recordedAt, w.serviceTtl)
    case RejectionNode => (world, Ok(Rejection(s)))
    case DeferralNode => (world, Ok(Deferral(s)))
    case End => (world, Ok(s))
  }

  /** A finished run: the nodes it entered, the last state, the world it left, and the fault
      that stopped it, if any. */
  datatype Finished = Finished(path: seq<Node>, state: WorkflowState, world: World, fault: Option<Fault>)

  function RunFrom(w: Wiring, input: Input, n: Node, path: seq<Node>, s: WorkflowState, world: World): Finished
    decreases Rank(n)
  {
    if n.End? then Finished(path, s, world, None)
    else
      var (after, r) := Visit(w, input, n, s, world);
      match r
      case Err(e) => Finished(path + [n], s, after, Some(e))
      case Ok(t) => RunFrom(w, input, Route(w, n, t), path + [n], t, after)
  }

  function Run(w: Wiring, input: Input, event: Event, key: Option<string>, world: World): Finished {
    RunFrom(w, input, Intake, [], ForEvent(event, key), world)
  }

  // ------------------------------------------------------------------ the review of a run

  /** The state in which the reviewer is asked. */
  function Asked(input: Input, event: Event, key: Option<string>): WorkflowState {
    ForEvent(event, key).(classification := Some(input.classification), draft := Some(input.draft), status := Drafting)
  }

  /** The state after the reviewer answered. */
  function Answered(input: Input, event: Event, key: Option<string>, command: ReviewCommand): WorkflowState {
    var s := Asked(input, event, key);
    s.(request := BuildRequest(s), command := Some(command), decision := command.approvedDecision, status := Resuming)
  }

  const ASKED := [Intake, Classify, DraftNode, Hitl]

  lemma KeyIsSet(event: Event, key: Option<string>)
    ensures TextOr(ForEvent(event, key).eventKey, event.DefaultKey()) == ForEvent(event, key).eventKey.value
  {
  }

  lemma OneNode(w: Wiring, input: Input, n: Node, path: seq<Node>, s: WorkflowState, world: World)
    requires !n.End? && Visit(w, input, n, s, world).1.Ok?
    ensures var (after, r) := Visit(w, input, n, s, world);
      RunFrom(w, input, n, path, s, world) == RunFrom(w, input, Route(w, n, r.value), path + [n], r.value, after)
  {
  }

  lemma RunToReview(w: Wiring, input: Input, event: Event, key: Option<string>, world: World)
    ensures var s := ForEvent(event, key).(classification := Some(input.classification), status := if input.classification.adrNeeded then Classifying else NoAdrNeeded);
      Run(w, input, event, key, world) == RunFrom(w, input, RouteAfterClassify(s), [Intake, Classify], s, world)
  {
    KeyIsSet(event, key);
    var s0 := ForEvent(event, key);
    var s1 := s0.(status := Classifying);
    assert Visit(w, input, Intake, s0, world) == (world, Ok(s1));
    OneNode(w, input, Intake, [], s0, world);
    OneNode(w, input, Classify, [Intake], s1, world);
    assert [] + [Intake] == [Intake];
    assert [Intake] + [Classify] == [Intake, Classify];
  }

  /** Without an ADR to write the run ends after classification. */
  lemma NoAdrRun(w: Wiring, input: Input, event: Event, key: Option<string>, world: World)
    requires !input.classification.adrNeeded
    ensures var f := Run(w, input, event, key, world);
      f.path == [Intake, Classify] && f.state.result.None? && f.world == world && f.fault.None?
  {
    RunToReview(w, input, event, key, world);
  }

  lemma RunThroughReview(w: Wiring, input: Input, event: Event, key: Option<string>, world: World)
    requires input.classification.adrNeeded
    ensures Coerce(input.resume).Err? ==>
              Run(w, input, event, key, world) == Finished(ASKED, Asked(input, event, key), world, Some(BadResume))
    ensures Coerce(input.resume).Ok? ==>
              var s := Answered(input, event, key, Coerce(input.resume).value);
              Run(w, input, event, key, world) == RunFrom(w, input, RouteAfterHitl(w, s), ASKED, s, world)
  {
    RunToReview(w, input, event, key, world);
    var s := ForEvent(event, key).(classification := Some(input.classification), status := Classifying);
    OneNode(w, input, DraftNode, [Intake, Classify], s, world);
    assert [Intake, Classify] + [DraftNode] == [Intake, Classify, DraftNode];
    assert [Intake, Classify, DraftNode] + [Hitl] == ASKED;
  }

  /** A run that stops with the given last visit. */
  ghost predicate EndsLike(f: Finished, path: seq<Node>, last: (World, Result<WorkflowState, Fault>)) {
    && f.path == path && f.world == last.0
    && (match last.1
        case Ok(t) => f.state == t && f.fault.None?
        case Err(e) => f.state.result.None? && f.fault == Some(e))
  }

  /** The last node of a path. */
  lemma LastNode(w: Wiring, input: Input, n: Node, path: seq<Node>, s: WorkflowState, world: World)
    requires n in {MutationNode, RejectionNode, DeferralNode}
    requires s.result.None?
    ensures EndsLike(RunFrom(w, input, n, path, s, world), path + [n], Visit(w, input, n, s, world))
  {
  }

  /** Rejections and deferrals end the run. */
  lemma TerminalRun(w: Wiring, input: Input, event: Event, key: Option<string>, world: World, command: ReviewCommand)
    requires input.classification.adrNeeded && Coerce(input.resume) == Ok(command) && !command.action.AuthorizesMutation()
    ensures var s := Answered(input, event, key, command);
      Run(w, input, event, key, world)
      == Finished(ASKED + [if command.action.Defer? then DeferralNode else RejectionNode],
                  if command.action.Defer? then Deferral(s) else Rejection(s), world, None)
  {
    RunThroughReview(w, input, event, key, world);
    LastNode(w, input, if command.action.Defer? then DeferralNode else RejectionNode, ASKED, Answered(input, event, key, command), world);
  }

  /** An authorising answer goes straight to the handoff when no minting node is wired. */
  lemma DirectRun(w: Wiring, input: Input, event: Event, key: Option<string>, world: World, command: ReviewCommand)
    requires input.classification.adrNeeded && Coerce(input.resume) == Ok(command) && command.action.AuthorizesMutation()
    requires !w.minting
    ensures var s := Answered(input, event, key, command);
      EndsLike(Run(w, input, event, key, world), ASKED + [MutationNode],
               Handoff(world, s, w.service, input.checkedAt, input.recordedAt, w.serviceTtl))
  {
    RunThroughReview(w, input, event, key, world);
    LastNode(w, input, MutationNode, ASKED, Answered(input, event, key, command), world);
  }

  /** With a minting node it goes through minting, and stops there if minting fails. */
  lemma MintedRun(w: Wiring, input: Input, event: Event, key: Option<string>, world: World, command: ReviewCommand)
    requires input.classification.adrNeeded && Coerce(input.resume) == Ok(command) && command.action.AuthorizesMutation()
    requires w.minting
    ensures var s := Answered(input, event, key, command);
      var (log, minted) := MintFor(world.log, s, w.mintTtl, input.mintedAt, input.reviewEventId, input.decisionId);
      var f := Run(w, input, event, key, world);
      if minted.Err? then f == Finished(ASKED + [Minting], s, world.(log := log), Some(minted.error))
      else EndsLike(f, ASKED + [Minting, MutationNode],
                    Handoff(world.(log := log), minted.value, w.service, input.checkedAt, input.recordedAt, w.serviceTtl))
  {
    RunThroughReview(w, input, event, key, world);
    var s := Answered(input, event, key, command);
    var (log, minted) := MintFor(world.log, s, w.mintTtl, input.mintedAt, input.reviewEventId, input.decisionId);
    if minted.Ok? {
      OneNode(w, input, Minting, ASKED, s, world);
      LastNode(w, input, MutationNode, ASKED + [Minting], minted.value, world.(log := log));
      assert ASKED + [Minting] + [MutationNode] == ASKED + [Minting, MutationNode];
    }
  }
}
