/** What the client of an interrupted review sends, and what the run makes of it: which answers
    are understood, where each of them leads, and what is shown, recorded and answered. */
module ResumeRuns {
  import opened Prelude
  import opened Domain
  import opened Fingerprints
  import opened Approval
  import opened Mutation
  import opened Workflow
  import opened WorkflowRuns
  import opened MintingLaws
  import MutationAnswers
  import Numbers = Numbering

  // ------------------------------------------------------------------ understanding the client

  lemma WordsDiffer(a: ReviewAction, b: ReviewAction)
    ensures Word(a) == Word(b) <==> a == b
  {
    assert |Word(Approve)| == 7 && |Word(ApproveAfterEdit)| == 18 && |Word(Reject)| == 6 && |Word(Defer)| == 5;
  }

  /** The client's answer names this action, in whichever form. */
  ghost predicate Says(value: Resume, action: ReviewAction) {
    match value
    case Typed(command) => command.action == action
    case Mapping(fields) => fields.action == action
    case Action(a) => a == action
    case Text(text) => text == Word(action)
    case SomethingElse => false
  }

  /** The command is the client's own: all of it where a whole command was sent, and otherwise
      the action alone, in the name of the stand-in reviewer. */
  ghost predicate SentBy(value: Resume, command: ReviewCommand) {
    && (value.Typed? ==> command == value.command)
    && (value.Mapping? ==> command == value.fields)
    && (value.Action? || value.Text? ==>
          command.reviewerId == "stub-reviewer" && command.editedContentHash.None? && command.approvedDecision.None?)
    && Says(value, command.action)
  }

  lemma CoerceExactly(value: Resume)
    ensures Coerce(value).Ok? <==> exists action :: Says(value, action)
    ensures Coerce(value).Ok? ==> SentBy(value, Coerce(value).value)
    ensures Coerce(value).Err? ==> Coerce(value) == Err(BadResume)
    ensures forall a, b :: Says(value, a) && Says(value, b) ==> a == b
  {
    assert Word(Approve) == "approve" && Word(ApproveAfterEdit) == "approve_after_edit" && Word(Reject) == "reject" && Word(Defer) == "defer";
    forall a, b | Says(value, a) && Says(value, b) ensures a == b {
      WordsDiffer(a, b);
    }
    if Coerce(value).Ok? {
      assert Says(value, Coerce(value).value.action);
    }
  }

  // ------------------------------------------------------------------ where each answer leads

  /** However the graph is wired: a run that ends as mutated, or changes the graph at all, was
      resumed with an approval, and carries the command the client sent. */
  lemma MutatedMeansApproved(w: Wiring, input: Input, event: Event, key: Option<string>, world: World)
    ensures var f := Run(w, input, event, key, world);
      IsMutated(f) || f.world.graph != world.graph ==>
        && (Says(input.resume, Approve) || Says(input.resume, ApproveAfterEdit))
        && f.state.command.Some? && SentBy(input.resume, f.state.command.value)
  {
    MutatedMeansReviewed(w, input, event, key, world);
    CoerceExactly(input.resume);
  }

  /** A client that says reject, or defer, in whichever form, ends the run at the node of that
      name, with the world as it was. */
  lemma RejectEndsRejected(w: Wiring, input: Input, event: Event, key: Option<string>, world: World)
    requires input.classification.adrNeeded && (Says(input.resume, Reject) || Says(input.resume, Defer))
    ensures var f := Run(w, input, event, key, world); var rejected := Says(input.resume, Reject);
      && f.path == [Intake, Classify, DraftNode, Hitl] + [if rejected then RejectionNode else DeferralNode]
      && f.world == world && f.fault.None?
      && f.state.status == (if rejected then WasRejected else WasDeferred)
      && f.state.result == Some(MutationResult(if rejected then Rejected else Deferred, None, None, false))
      && f.state.command.Some? && SentBy(input.resume, f.state.command.value)
  {
    CoerceExactly(input.resume);
    TerminalRun(w, input, event, key, world, Coerce(input.resume).value);
  }

  /** An answer that names no action, an unknown text or another value, stops the run where it
      asked; nothing else stops it so. */
  lemma BadResumeExactly(w: Wiring, input: Input, event: Event, key: Option<string>, world: World)
    ensures var f := Run(w, input, event, key, world);
      && (f.fault == Some(BadResume) <==> input.classification.adrNeeded && !exists action :: Says(input.resume, action))
      && (f.fault == Some(BadResume) ==> f.world == world && f.path == [Intake, Classify, DraftNode, Hitl] && f.state.result.None?)
  {
    CoerceExactly(input.resume);
    if !input.classification.adrNeeded {
      NoAdrRun(w, input, event, key, world);
    } else if Coerce(input.resume).Err? {
      RunThroughReview(w, input, event, key, world);
    } else {
      var command := Coerce(input.resume).value;
      if !command.action.AuthorizesMutation() {
        TerminalRun(w, input, event, key, world, command);
      } else {
        ApprovalFaults(w, input, event, key, world, command);
      }
    }
  }

  lemma NodeFaults(log: Log, world: World, s: WorkflowState, t: WorkflowState, service: bool, ttl: int, at: int, recordedAt: int, reviewEventId: string, decisionId: string)
    ensures MintFor(log, s, ttl, at, reviewEventId, decisionId).1 != Err(BadResume)
    ensures Handoff(world, t, service, at, recordedAt, ttl).1 != Err(BadResume)
  {
  }

  lemma ApprovalFaults(w: Wiring, input: Input, event: Event, key: Option<string>, world: World, command: ReviewCommand)
    requires input.classification.adrNeeded && Coerce(input.resume) == Ok(command) && command.action.AuthorizesMutation()
    ensures Run(w, input, event, key, world).fault != Some(BadResume)
  {
    var s := Answered(input, event, key, command);
    NodeFaults(world.log, world, s, s, w.service, w.mintTtl, input.mintedAt, input.recordedAt, input.reviewEventId, input.decisionId);
    if w.minting {
      MintedRun(w, input, event, key, world, command);
      var (log, minted) := MintFor(world.log, s, w.mintTtl, input.mintedAt, input.reviewEventId, input.decisionId);
      if minted.Ok? {
        NodeFaults(log, world.(log := log), s, minted.value, w.service, w.serviceTtl, input.checkedAt, input.recordedAt, "", "");
      }
    } else {
      DirectRun(w, input, event, key, world, command);
      NodeFaults(world.log, world, s, s, w.service, w.serviceTtl, input.checkedAt, input.recordedAt, "", "");
    }
  }

  /** An approval goes on behind the review: to minting where it is wired, else to the handoff. */
  lemma ApprovalGoesOn(w: Wiring, input: Input, event: Event, key: Option<string>, world: World)
    requires input.classification.adrNeeded && (Says(input.resume, Approve) || Says(input.resume, ApproveAfterEdit))
    ensures var f := Run(w, input, event, key, world);
      && [Intake, Classify, DraftNode, Hitl] + [if w.minting then Minting else MutationNode] <= f.path
      && f.state.command.Some? && SentBy(input.resume, f.state.command.value)
  {
    CoerceExactly(input.resume);
    var command := Coerce(input.resume).value;
    var s := Answered(input, event, key, command);
    if w.minting {
      MintedRun(w, input, event, key, world, command);
      assert ASKED + [Minting, MutationNode] == ASKED + [Minting] + [MutationNode];
      MintKeepsTheAnswer(world.log, s, w.mintTtl, input.mintedAt, input.reviewEventId, input.decisionId);
      var (log, minted) := MintFor(world.log, s, w.mintTtl, input.mintedAt, input.reviewEventId, input.decisionId);
      if minted.Ok? {
        HandoffKeepsTheAnswer(w, input, world.(log := log), minted.value, ASKED + [Minting]);
        MintedState(w, input, event, key, world, command);
      }
    } else {
      DirectState(w, input, event, key, world, command);
      HandoffKeepsTheAnswer(w, input, world, s, ASKED);
    }
  }

  lemma MintKeepsTheAnswer(log: Log, s: WorkflowState, ttl: int, at: int, reviewEventId: string, decisionId: string)
    ensures var r := MintFor(log, s, ttl, at, reviewEventId, decisionId).1; r.Ok? ==> r.value.command == s.command && r.value.request == s.request
  {
  }

  lemma HandoffKeepsTheAnswer(w: Wiring, input: Input, world: World, s: WorkflowState, path: seq<Node>)
    ensures var f := RunFrom(w, input, MutationNode, path, s, world); f.state.command == s.command && f.path == path + [MutationNode]
  {
  }

  lemma DirectState(w: Wiring, input: Input, event: Event, key: Option<string>, world: World, command: ReviewCommand)
    requires input.classification.adrNeeded && Coerce(input.resume) == Ok(command) && command.action.AuthorizesMutation() && !w.minting
    ensures Run(w, input, event, key, world) == RunFrom(w, input, MutationNode, ASKED, Answered(input, event, key, command), world)
  {
    RunThroughReview(w, input, event, key, world);
  }

  lemma MintedState(w: Wiring, input: Input, event: Event, key: Option<string>, world: World, command: ReviewCommand)
    requires input.classification.adrNeeded && Coerce(input.resume) == Ok(command) && command.action.AuthorizesMutation() && w.minting
    ensures var (log, minted) := MintFor(world.log, Answered(input, event, key, command), w.mintTtl, input.mintedAt, input.reviewEventId, input.decisionId);
      minted.Ok? ==> Run(w, input, event, key, world) == RunFrom(w, input, MutationNode, ASKED + [Minting], minted.value, world.(log := log))
  {
    RunThroughReview(w, input, event, key, world);
    var s := Answered(input, event, key, command);
    if MintFor(world.log, s, w.mintTtl, input.mintedAt, input.reviewEventId, input.decisionId).1.Ok? {
      OneNode(w, input, Minting, ASKED, s, world);
    }
  }

  /** Without an ADR to write the run says so. */
  lemma NoAdrIsSaid(w: Wiring, input: Input, event: Event, key: Option<string>, world: World)
    requires !input.classification.adrNeeded
    ensures var f := Run(w, input, event, key, world);
      && f.path == [Intake, Classify] && f.world == world && f.fault.None?
      && f.state.status == NoAdrNeeded && f.state.result.None? && f.state.request.None?
  {
    RunToReview(w, input, event, key, world);
  }

  // ------------------------------------------------------------------ what is shown, recorded and answered

  /** The key under which the reviewer is asked: the given one, or provider, repository, number
      and delivery. */
  function AskedKey(event: Event, key: Option<string>): string {
    if key.Some? && key.value != "" then key.value
    else event.provider + ":" + event.repository.host + "/" + event.repository.owner + "/" + event.repository.repo + ":"
         + Numbers.Decimal(event.prNumber) + ":" + event.deliveryId
  }

  /** The reviewer is shown the draft. */
  ghost predicate ShowsTheDraft(request: Request, input: Input, event: Event, key: Option<string>) {
    && request.repository == event.repository && request.eventKey == AskedKey(event, key)
    && request.draftId == input.draft.draftId && request.contentHash == input.draft.contentHash
    && request.preview == input.draft.preview && request.evidenceIds == input.draft.citationIds
  }

  /** The change a record is about: the first one classified, else the draft's own. */
  function AboutChange(input: Input): Option<string> {
    if |input.classification.changes| > 0 then Some(input.classification.changes[0]) else input.draft.structuralChangeId
  }

  /** The record of the draft, under a decision. */
  ghost predicate RecordsTheDraft(adr: ADRRecord, input: Input, event: Event, decisionId: string) {
    && adr.repository == event.repository && adr.adrId == input.draft.draftId
    && adr.contentHash == input.draft.contentHash && adr.markdown == input.draft.preview
    && adr.evidenceIds == input.draft.citationIds && adr.decisionId == decisionId
    && adr.structuralChangeId == AboutChange(input)
    && adr.title == (if AboutChange(input).Some? && AboutChange(input).value != "" then "Approved ADR for change " + AboutChange(input).value
                     else "Approved ADR")
  }

  lemma EventKey(event: Event, key: Option<string>)
    ensures ForEvent(event, key).eventKey == Some(AskedKey(event, key))
  {
    var r := event.repository;
    var p, n, d := event.provider, Numbers.Decimal(event.prNumber), event.deliveryId;
    assert r.Key() == r.host + "/" + r.owner + "/" + r.repo;
    assert p + ":" + (r.host + "/" + r.owner + "/" + r.repo) + ":" + n + ":" + d
        == p + ":" + r.host + "/" + r.owner + "/" + r.repo + ":" + n + ":" + d;
  }

  lemma KeyNotEmpty(event: Event, key: Option<string>)
    ensures AskedKey(event, key) != ""
  {
    if key.None? || key.value == "" {
      var k := AskedKey(event, key);
      assert |k| >= 1;
    }
  }

  lemma AnsweredShows(input: Input, event: Event, key: Option<string>, command: ReviewCommand, decision: Option<Decision>)
    ensures var s := Answered(input, event, key, command).(decision := decision);
      && s.request.Some? && ShowsTheDraft(s.request.value, input, event, key)
      && BuildRecord(s).Some?
      && RecordsTheDraft(BuildRecord(s).value, input, event, if decision.Some? then decision.value.decisionId else "pending")
  {
    EventKey(event, key);
    KeyNotEmpty(event, key);
  }

  /** In every wiring, a mutated run presented the record of the draft it had shown; its
      decision is consumed for exactly that record, and its answer names the consumed node. */
  lemma MutatedMeansConsumed(w: Wiring, input: Input, event: Event, key: Option<string>, world: World)
    ensures var f := Run(w, input, event, key, world);
      IsMutated(f) ==>
        && f.state.request.Some? && ShowsTheDraft(f.state.request.value, input, event, key)
        && f.state.decision.Some? && BuildRecord(f.state).Some?
        && var id, record := f.state.decision.value.decisionId, BuildRecord(f.state).value;
        && RecordsTheDraft(record, input, event, id)
        && f.state.status == Completed && f.fault.None?
        && id in f.world.log.consumptions
        && f.world.log.consumptions[id].fingerprint == UpsertFingerprint(event.repository, record)
        && f.state.result == Some(MutationResult(Mutated, Some(f.world.log.consumptions[id].body.nodeId), Some(id), true))
  {
    var f := Run(w, input, event, key, world);
    MutatedMeansReviewed(w, input, event, key, world);
    if IsMutated(f) {
      var command := Coerce(input.resume).value;
      var s := Answered(input, event, key, command);
      if w.minting {
        var (log, minted) := MintFor(world.log, s, w.mintTtl, input.mintedAt, input.reviewEventId, input.decisionId);
        MintedRun(w, input, event, key, world, command);
        assert minted.value == s.(decision := minted.value.decision);
        HandoffConsumes(world.(log := log), minted.value, w.service, input.checkedAt, input.recordedAt, w.serviceTtl);
        AnsweredShows(input, event, key, command, minted.value.decision);
      } else {
        DirectRun(w, input, event, key, world, command);
        assert s.(decision := s.decision) == s;
        HandoffConsumes(world, s, w.service, input.checkedAt, input.recordedAt, w.serviceTtl);
        AnsweredShows(input, event, key, command, s.decision);
      }
    }
  }

  lemma HandoffConsumes(world: World, s: WorkflowState, service: bool, checkedAt: int, recordedAt: int, ttl: int)
    requires s.result.None?
    ensures var (after, r) := Handoff(world, s, service, checkedAt, recordedAt, ttl);
      r.Ok? && r.value.result.Some? && r.value.result.value.outcome == Mutated ==>
        && s.decision.Some? && s.repository.Some? && BuildRecord(s).Some?
        && var id := s.decision.value.decisionId;
        && id in after.log.consumptions
        && after.log.consumptions[id].fingerprint == UpsertFingerprint(s.repository.value, BuildRecord(s).value)
        && r.value == s.(result := Some(MutationResult(Mutated, Some(after.log.consumptions[id].body.nodeId), Some(id), true)), status := Completed)
  {
    if s.command.Some? && s.command.value.action.AuthorizesMutation() && s.decision.Some? && s.decision.value.approved && service && BuildRecord(s).Some? {
      MutationAnswers.SuccessIsConsumed(world, s.repository.value, BuildRecord(s).value, s.decision, checkedAt, recordedAt, ttl);
    }
  }

  ghost predicate Capable(s: WorkflowState) {
    s.decision.Some? && s.decision.value.approved
  }

  /** How an outcome answers the state the handoff was called on. */
  ghost predicate Tells(status: Status, told: MutationResult, s: WorkflowState, service: bool) {
    && (told.outcome == Blocked <==> s.command.None?)
    && (told.outcome == Rejected <==> s.command.Some? && s.command.value.action == Reject)
    && (told.outcome == Deferred <==> s.command.Some? && s.command.value.action == Defer)
    && (told.outcome == Mutated <==> told.serviceCalled)
    && (told.outcome == Mutated ==> Capable(s) && service && told.decisionId == Some(s.decision.value.decisionId) && told.nodeId.Some?)
    && (told.outcome == NoMutation ==> told.nodeId.None? && !(Capable(s) && service))
    && (status == HasFailed <==> s.command.None? || (told.outcome == NoMutation && !Capable(s)))
  }

  /** Called on any state, the handoff's outcome tells what was asked of it: blocked without an
      answer, rejected and deferred for those answers, mutated exactly when the service was
      called and let the write through. Everything but a service call leaves the world alone. */
  lemma HandoffTells(world: World, s: WorkflowState, service: bool, checkedAt: int, recordedAt: int, ttl: int, raises: bool)
    ensures var (after, r) := HandoffWith(world, s, service, checkedAt, recordedAt, ttl, raises);
      && (r.Ok? ==> r.value.result.Some? && Tells(r.value.status, r.value.result.value, s, service))
      && (r.Ok? && r.value.result.value.outcome == NoMutation ==> after == world)
      && (after != world || r.Err? ==> service && Capable(s) && s.command.Some? && s.command.value.action.AuthorizesMutation())
  {
  }

  // ------------------------------------------------------------------ approvals that do not mutate

  /** Without a minting node an approval needs a capability of its own: when the client sent none,
      or one that is not approved, the run says that nothing was mutated. */
  lemma NoCapabilityNoMutation(w: Wiring, input: Input, event: Event, key: Option<string>, world: World, command: ReviewCommand)
    requires input.classification.adrNeeded && !w.minting && SentBy(input.resume, command)
    requires command.action == Approve || command.action == ApproveAfterEdit
    requires command.approvedDecision.None? || !command.approvedDecision.value.approved
    ensures var f := Run(w, input, event, key, world);
      && f.world == world && f.fault.None? && f.state.status == HasFailed
      && f.state.result == Some(MutationResult(NoMutation, None, None, false))
  {
    CoerceExactly(input.resume);
    CoerceIsSent(input.resume, command);
    DirectRun(w, input, event, key, world, command);
  }

  lemma CoerceIsSent(value: Resume, command: ReviewCommand)
    requires SentBy(value, command)
    ensures Coerce(value) == Ok(command)
  {
    CoerceExactly(value);
    assert Says(value, command.action);
  }

  /** Without a service an approved capability is only acknowledged. */
  lemma NoServiceNoMutation(w: Wiring, input: Input, event: Event, key: Option<string>, world: World, command: ReviewCommand, d: Decision)
    requires input.classification.adrNeeded && !w.minting && !w.service && SentBy(input.resume, command)
    requires command.action == Approve || command.action == ApproveAfterEdit
    requires command.approvedDecision == Some(d) && d.approved
    ensures var f := Run(w, input, event, key, world);
      && f.world == world && f.fault.None? && f.state.status == Completed
      && f.state.result == Some(MutationResult(NoMutation, None, Some(d.decisionId), false))
  {
    CoerceExactly(input.resume);
    CoerceIsSent(input.resume, command);
    DirectRun(w, input, event, key, world, command);
  }

  // ------------------------------------------------------------------ what is minted

  /** The context of minting is the draft that was shown and the change it is about. */
  lemma ContextIsTheDraft(input: Input, event: Event, key: Option<string>, command: ReviewCommand)
    ensures var s := Answered(input, event, key, command);
      && BuildRecord(s).Some?
      && ContextOf(s, BuildRecord(s).value)
         == ReviewContext(event.repository, input.draft.draftId, input.draft.contentHash, AboutChange(input), input.draft.draftId)
  {
  }

  lemma HandoffKeepsMinted(world: World, s: WorkflowState, service: bool, checkedAt: int, recordedAt: int, ttl: int)
    ensures var (after, r) := Handoff(world, s, service, checkedAt, recordedAt, ttl);
      && after.log.decisions == world.log.decisions && after.log.events == world.log.events
      && (r.Ok? ==> r.value.decision == s.decision)
  {
  }

  lemma LastDecision(w: Wiring, input: Input, world: World, s: WorkflowState, path: seq<Node>)
    ensures var f := RunFrom(w, input, MutationNode, path, s, world);
      f.state.decision == s.decision && f.world.log.decisions == world.log.decisions && f.world.log.events == world.log.events
  {
    HandoffKeepsMinted(world, s, w.service, input.checkedAt, input.recordedAt, w.serviceTtl);
  }

  /** Where minting is wired, an approval with fresh ids mints a capability in the reviewer's name
      for the draft that was shown, and leaves its record and event, however the run ends. */
  lemma ApprovalMintsForTheDraft(w: Wiring, input: Input, event: Event, key: Option<string>, world: World, command: ReviewCommand)
    requires input.classification.adrNeeded && w.minting && SentBy(input.resume, command)
    requires command.action == Approve || command.action == ApproveAfterEdit
    requires !world.log.HasEvent(input.reviewEventId) && input.decisionId !in world.log.decisions
    ensures var f := Run(w, input, event, key, world);
      var context := ReviewContext(event.repository, input.draft.draftId, input.draft.contentHash, AboutChange(input), input.draft.draftId);
      && f.state.decision.Some? && input.decisionId in f.world.log.decisions
      && f.world.log.decisions == world.log.decisions[input.decisionId := f.world.log.decisions[input.decisionId]]
      && (exists target :: Capability(f.state.decision.value, command, context, target, input.mintedAt, input.decisionId))
      && Repeats(f.world.log.decisions[input.decisionId], f.state.decision.value, context, input.reviewEventId)
      && |f.world.log.events| == |world.log.events| + 1
      && RecordsReview(f.world.log.events[|world.log.events|], command, context, input.mintedAt, input.reviewEventId, Some(input.decisionId))
  {
    CoerceIsSent(input.resume, command);
    var s := Answered(input, event, key, command);
    ContextIsTheDraft(input, event, key, command);
    var target := UpsertFingerprint(s.repository.value, BuildRecord(s).value);
    var context := ContextOf(s, BuildRecord(s).value);
    ApprovalIsMinted(world.log, command, context, Some(target), w.mintTtl, input.mintedAt, input.reviewEventId, input.decisionId);
    var (log, minted) := MintFor(world.log, s, w.mintTtl, input.mintedAt, input.reviewEventId, input.decisionId);
    MintedState(w, input, event, key, world, command);
    LastDecision(w, input, world.(log := log), minted.value, ASKED + [Minting]);
    assert Capability(minted.value.decision.value, command, context, Some(target), input.mintedAt, input.decisionId);
  }
}
