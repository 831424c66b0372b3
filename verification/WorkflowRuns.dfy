/** What holds of every run of the review workflow: what the reviewer saw is what is written,
    and exactly when a review leads to a write. */
module WorkflowRuns {
  import opened Prelude
  import opened Hashing
  import opened Domain
  import opened Fingerprints
  import opened Approval
  import opened Mutation
  import opened Workflow
  import LostWrites
  import Strings = Text

  ghost predicate IsMutated(f: Finished) {
    f.state.result.Some? && f.state.result.value.outcome == Mutated
  }

  /** A log in which every consumption belongs to a minted decision. */
  ghost predicate Sane(log: Log) {
    log.consumptions.Keys <= log.decisions.Keys
  }

  /** What the handoff answers for a fresh capability bound to its record: the first failing
      check, if any. */
  function Obstacle(w: World, d: Decision, expiresAt: int, draft: Draft, checkedAt: int): Option<Error> {
    if checkedAt > expiresAt then Some(Expired)
    else if draft.preview != "" && CanonicalHash(draft.preview) != d.contentHash then Some(ContentMismatch)
    else if d.contentHash != draft.contentHash then Some(InnerContentMismatch)
    else if d.decisionId in w.consumed then Some(InnerAlreadyConsumed)
    else None
  }

  /** The state carries a capability minted for the record it would write, not yet used. */
  ghost predicate Armed(w: World, s: WorkflowState, d: Decision) {
    && s.repository.Some? && s.draft.Some? && s.command.Some?
    && s.command.value.action.AuthorizesMutation()
    && s.decision == Some(d) && d.approved
    && d.repository == s.repository.value
    && d.targetFingerprint == UpsertFingerprint(d.repository, BuildRecord(s).value)
    && d.decisionId in w.log.decisions && d.decisionId !in w.log.consumptions
  }

  lemma ArmedHandoff(w: World, s: WorkflowState, d: Decision, checkedAt: int, recordedAt: int, ttl: int)
    requires Armed(w, s, d)
    ensures var (after, r) := Handoff(w, s, true, checkedAt, recordedAt, ttl);
      var record := BuildRecord(s).value;
      match Obstacle(w, d, w.log.decisions[d.decisionId].ExpiresAt(), s.draft.value, checkedAt)
      case Some(e) => r == Err(Refused(e)) && after.graph == w.graph && after.consumed == w.consumed
      case None =>
        && r == Ok(Written(s, d, NodeId(d.repository, AdrNodeValue(record))))
        && after.graph == Upserted(w.graph, d.repository, record, d.decisionId)
        && after.log.consumptions == w.log.consumptions[d.decisionId :=
             ConsumptionRow(d, d.repository, d.targetFingerprint, NodeId(d.repository, AdrNodeValue(record)), recordedAt)]
  {
    var record := BuildRecord(s).value;
    var (log, valid) := ValidateForMutation(w.log, s.decision, d.repository, d.targetFingerprint, CurrentContent(record), checkedAt, recordedAt, ttl);
    assert Gate(w.log, d.repository, s.decision, d.targetFingerprint).None?;
    if valid.Ok? {
      var (graph, consumed, written) := InnerUpsert(w.graph, w.consumed, d.repository, record, Some(d));
    }
  }

  // ------------------------------------------------------------------ how long a capability lives

  /** The configured lifetime less its fraction of a second, which the minted record drops. */
  function Lifetime(ttl: int): int {
    if ttl >= 0 then ttl - ttl % 1000000 else ttl + -ttl % 1000000
  }

  lemma LifetimeBounds(ttl: int)
    ensures ttl >= 0 ==> ttl - 1000000 < Lifetime(ttl) <= ttl
    ensures ttl <= 0 ==> ttl <= Lifetime(ttl) < ttl + 1000000
    ensures ttl % 1000000 == 0 ==> Lifetime(ttl) == ttl
  {
  }

  lemma RecordedLifetime(ttl: int)
    ensures 1000000 * WholeSeconds(ttl) == Lifetime(ttl)
  {
  }

  // ------------------------------------------------------------------ minting arms the state

  /** The hash the reviewer approved. */
  function ApprovedHash(command: ReviewCommand, draft: Draft): string {
    if command.action.ApproveAfterEdit? && command.editedContentHash.Some? && command.editedContentHash.value != ""
    then command.editedContentHash.value
    else draft.contentHash
  }

  /** Minting binds the capability to the record the handoff writes: the record is built
      before the decision id is known, and its fingerprint does not depend on it. */
  lemma MintingArms(w: World, s: WorkflowState, ttl: int, at: int, reviewEventId: string, decisionId: string)
    requires Sane(w.log)
    requires s.repository.Some? && s.draft.Some? && s.command.Some? && s.command.value.action.AuthorizesMutation()
    ensures var (log, r) := MintFor(w.log, s, ttl, at, reviewEventId, decisionId);
      && (r.Ok? <==> !w.log.HasEvent(reviewEventId) && decisionId !in w.log.decisions)
      && (r.Err? ==> r == Err(Refused(AuditDurability)))
      && (r.Ok? ==>
            && r.value.decision.Some? && r.value == s.(decision := r.value.decision)
            && r.value.decision.value.decisionId == decisionId
            && r.value.decision.value.contentHash == ApprovedHash(s.command.value, s.draft.value)
            && Armed(w.(log := log), r.value, r.value.decision.value)
            && log.decisions[decisionId].ExpiresAt() == at + Lifetime(ttl))
  {
    var record := BuildRecord(s).value;
    var target := UpsertFingerprint(s.repository.value, record);
    FingerprintNotEmpty(s.repository.value, record);
    RecordedLifetime(ttl);
    var (log, r) := MintFor(w.log, s, ttl, at, reviewEventId, decisionId);
    if r.Ok? {
      assert UpsertFingerprint(s.repository.value, BuildRecord(r.value).value) == target;
    }
  }

  lemma FingerprintNotEmpty(repository: Repository, adr: ADRRecord)
    ensures UpsertFingerprint(repository, adr) != ""
  {
    var t := Upsert(repository.Key(), adr.adrId, adr.contentHash);
    Sha256Hex(Strings.Join(t.Parts()));
  }

  // ------------------------------------------------------------------ when a review leads to a write

  /** With minting and the service wired, an authorising answer leads to a write exactly when
      the ids are fresh, the capability is in time, the approved hash is the canonical hash of
      the preview (or the preview is empty), the approved hash is the draft's, and this
      process has not used the decision. */
  ghost predicate LeadsToWrite(w: Wiring, input: Input, world: World, command: ReviewCommand) {
    var approved := ApprovedHash(command, input.draft);
    && !world.log.HasEvent(input.reviewEventId) && input.decisionId !in world.log.decisions
    && input.checkedAt <= input.mintedAt + Lifetime(w.mintTtl)
    && (input.draft.preview == "" || CanonicalHash(input.draft.preview) == approved)
    && approved == input.draft.contentHash
    && input.decisionId !in world.consumed
  }

  /** The record covers what the reviewer was shown. */
  ghost predicate IsWhatWasShown(adr: ADRRecord, request: Request) {
    && adr.repository == request.repository
    && adr.adrId == request.draftId
    && adr.contentHash == request.contentHash
    && adr.markdown == request.preview
    && adr.evidenceIds == request.evidenceIds
  }

  lemma ArmedEnd(f: Finished, path: seq<Node>, w: World, s: WorkflowState, d: Decision, checkedAt: int, recordedAt: int, ttl: int)
    requires Armed(w, s, d)
    requires EndsLike(f, path, Handoff(w, s, true, checkedAt, recordedAt, ttl))
    ensures var obstacle := Obstacle(w, d, w.log.decisions[d.decisionId].ExpiresAt(), s.draft.value, checkedAt);
      && (IsMutated(f) <==> obstacle.None?)
      && (obstacle.Some? ==> f.fault == Some(Refused(obstacle.value)) && f.world.graph == w.graph)
      && (obstacle.None? ==> f.fault.None? && f.state.request == s.request && f.state.decision == s.decision
                             && BuildRecord(f.state) == BuildRecord(s)
                             && f.world.graph == Upserted(w.graph, d.repository, BuildRecord(s).value, d.decisionId))
  {
    ArmedHandoff(w, s, d, checkedAt, recordedAt, ttl);
  }

  /** How a minted run ends: not minted, or at the first obstacle, or with the write. */
  lemma MintedEnd(w: Wiring, input: Input, event: Event, key: Option<string>, world: World, command: ReviewCommand)
    returns (minted: bool, after: World, d: Decision, expiresAt: int)
    requires w.minting && w.service && Sane(world.log)
    requires input.classification.adrNeeded && Coerce(input.resume) == Ok(command) && command.action.AuthorizesMutation()
    ensures minted <==> !world.log.HasEvent(input.reviewEventId) && input.decisionId !in world.log.decisions
    ensures after.consumed == world.consumed
    ensures var f := Run(w, input, event, key, world); var s := Answered(input, event, key, command);
      if !minted then !IsMutated(f) && f.fault == Some(Refused(AuditDurability)) && f.world.graph == world.graph
      else
        && d.decisionId == input.decisionId && d.contentHash == ApprovedHash(command, input.draft)
        && expiresAt == input.mintedAt + Lifetime(w.mintTtl)
        && var obstacle := Obstacle(after, d, expiresAt, input.draft, input.checkedAt);
           && (IsMutated(f) <==> obstacle.None?)
           && (obstacle.Some? ==> f.fault == Some(Refused(obstacle.value)) && f.world.graph == world.graph)
           && (obstacle.None? ==>
                 f.fault.None? && f.state.request == s.request && f.state.decision == Some(d)
                 && BuildRecord(f.state) == BuildRecord(s.(decision := Some(d)))
                 && f.world.graph == Upserted(world.graph, event.repository, BuildRecord(f.state).value, d.decisionId))
  {
    var s := Answered(input, event, key, command);
    MintedRun(w, input, event, key, world, command);
    MintingArms(world, s, w.mintTtl, input.mintedAt, input.reviewEventId, input.decisionId);
    var (log, r) := MintFor(world.log, s, w.mintTtl, input.mintedAt, input.reviewEventId, input.decisionId);
    after := world.(log := log);
    minted := r.Ok?;
    if minted {
      d := r.value.decision.value;
      expiresAt := log.decisions[d.decisionId].ExpiresAt();
      ArmedEnd(Run(w, input, event, key, world), ASKED + [Minting, MutationNode], after, r.value, d,
               input.checkedAt, input.recordedAt, w.serviceTtl);
    } else {
      d, expiresAt := Decision(event.repository, "", "", "", "", None, "", 0, false), 0;
    }
  }

  lemma ShownIsRecorded(input: Input, event: Event, key: Option<string>, command: ReviewCommand, decision: Option<Decision>)
    ensures var s := Answered(input, event, key, command);
      var record := BuildRecord(s.(decision := decision));
      && s.request.Some? && record.Some?
      && IsWhatWasShown(record.value, s.request.value)
      && record.value.decisionId == (if decision.Some? then decision.value.decisionId else "pending")
  {
  }

  lemma MintedRunWritesExactly(w: Wiring, input: Input, event: Event, key: Option<string>, world: World, command: ReviewCommand)
    requires w.minting && w.service && Sane(world.log)
    requires input.classification.adrNeeded && Coerce(input.resume) == Ok(command) && command.action.AuthorizesMutation()
    ensures var f := Run(w, input, event, key, world);
      && (IsMutated(f) <==> LeadsToWrite(w, input, world, command))
      && (!IsMutated(f) ==> f.world.graph == world.graph && f.fault.Some?)
      && (IsMutated(f) ==>
            f.state.request.Some? && f.state.decision.Some? && BuildRecord(f.state).Some?
            && IsWhatWasShown(BuildRecord(f.state).value, f.state.request.value)
            && BuildRecord(f.state).value.decisionId == input.decisionId
            && f.world.graph == Upserted(world.graph, event.repository, BuildRecord(f.state).value, input.decisionId))
  {
    var minted, after, d, expiresAt := MintedEnd(w, input, event, key, world, command);
    ShownIsRecorded(input, event, key, command, Some(d));
  }

  /** A plain approval of a draft whose hash is the canonical hash of its preview is written
      exactly when it is in time and its ids are unused. */
  lemma PlainApprovalWritesExactly(w: Wiring, input: Input, event: Event, key: Option<string>, world: World, command: ReviewCommand)
    requires w.minting && w.service && Sane(world.log)
    requires input.classification.adrNeeded && Coerce(input.resume) == Ok(command) && command.action == Approve
    requires input.draft.contentHash == CanonicalHash(input.draft.preview)
    ensures IsMutated(Run(w, input, event, key, world)) <==>
      && !world.log.HasEvent(input.reviewEventId) && input.decisionId !in world.log.decisions && input.decisionId !in world.consumed
      && input.checkedAt <= input.mintedAt + Lifetime(w.mintTtl)
  {
    MintedRunWritesExactly(w, input, event, key, world, command);
  }

  /** Past its lifetime a minted capability never writes; a lifetime of whole seconds is kept to
      the microsecond. */
  lemma LateNeverWrites(w: Wiring, input: Input, event: Event, key: Option<string>, world: World)
    requires w.minting && w.service && Sane(world.log) && w.mintTtl >= 0
    requires input.checkedAt > input.mintedAt + w.mintTtl
    ensures var f := Run(w, input, event, key, world); !IsMutated(f) && f.world.graph == world.graph
  {
    LifetimeBounds(w.mintTtl);
    MutatedMeansReviewed(w, input, event, key, world);
    var f := Run(w, input, event, key, world);
    if IsMutated(f) || f.world.graph != world.graph {
      if input.classification.adrNeeded {
        MintedRunWritesExactly(w, input, event, key, world, f.state.command.value);
      } else {
        NoAdrRun(w, input, event, key, world);
      }
    }
  }

  lemma InTimeExactly(w: Wiring, input: Input, event: Event, key: Option<string>, world: World, command: ReviewCommand)
    requires w.minting && w.service && Sane(world.log) && w.mintTtl % 1000000 == 0
    requires input.classification.adrNeeded && Coerce(input.resume) == Ok(command) && command.action == Approve
    requires input.draft.contentHash == CanonicalHash(input.draft.preview)
    requires !world.log.HasEvent(input.reviewEventId) && input.decisionId !in world.log.decisions && input.decisionId !in world.consumed
    ensures IsMutated(Run(w, input, event, key, world)) <==> input.checkedAt <= input.mintedAt + w.mintTtl
  {
    LifetimeBounds(w.mintTtl);
    PlainApprovalWritesExactly(w, input, event, key, world, command);
  }

  /** Approving with an edited hash that is not the canonical hash of the shown preview never
      writes. */
  lemma EditedHashNeverWrites(w: Wiring, input: Input, event: Event, key: Option<string>, world: World, command: ReviewCommand)
    requires w.minting && w.service && Sane(world.log)
    requires Coerce(input.resume) == Ok(command) && command.action == ApproveAfterEdit
    requires command.editedContentHash.Some? && command.editedContentHash.value != ""
    requires input.draft.preview != "" && command.editedContentHash.value != CanonicalHash(input.draft.preview)
    ensures var f := Run(w, input, event, key, world); !IsMutated(f) && f.world.graph == world.graph
  {
    if input.classification.adrNeeded {
      MintedRunWritesExactly(w, input, event, key, world, command);
    } else {
      NoAdrRun(w, input, event, key, world);
    }
  }

  /** The inner content check refuses what the durable checks let through exactly when the
      approved hash is not the draft's own: never for a plain approval. */
  lemma InnerContentRefusedExactly(w: Wiring, input: Input, event: Event, key: Option<string>, world: World, command: ReviewCommand)
    requires w.minting && w.service && Sane(world.log)
    requires input.classification.adrNeeded && Coerce(input.resume) == Ok(command) && command.action.AuthorizesMutation()
    requires !world.log.HasEvent(input.reviewEventId) && input.decisionId !in world.log.decisions
    ensures var approved := ApprovedHash(command, input.draft);
      Run(w, input, event, key, world).fault == Some(Refused(InnerContentMismatch)) <==>
        && input.checkedAt <= input.mintedAt + Lifetime(w.mintTtl)
        && (input.draft.preview == "" || CanonicalHash(input.draft.preview) == approved)
        && approved != input.draft.contentHash
    ensures command.action == Approve ==> Run(w, input, event, key, world).fault != Some(Refused(InnerContentMismatch))
  {
    var minted, after, d, expiresAt := MintedEnd(w, input, event, key, world, command);
  }

  // ------------------------------------------------------------------ every run, every wiring

  /** The one path that ends in a mutation. */
  function MutatingPath(w: Wiring): seq<Node> {
    ASKED + (if w.minting then [Minting] else []) + [MutationNode]
  }

  /** An authorised handoff either leaves the graph alone or writes the record of its state. */
  lemma HandoffWritesItsRecord(world: World, s: WorkflowState, service: bool, checkedAt: int, recordedAt: int, ttl: int)
    requires s.result.None?
    ensures var (after, r) := Handoff(world, s, service, checkedAt, recordedAt, ttl);
      && (after.graph != world.graph ==> r.Ok? && r.value.result.Some? && r.value.result.value.outcome == Mutated)
      && (r.Ok? && r.value.result.Some? && r.value.result.value.outcome == Mutated ==>
            && s.command.Some? && s.command.value.action.AuthorizesMutation()
            && s.decision.Some? && s.decision.value.approved && BuildRecord(s).Some?
            && r.value.request == s.request && r.value.command == s.command && BuildRecord(r.value) == BuildRecord(s)
            && (after.graph == world.graph ||
                after.graph == Upserted(world.graph, s.repository.value, BuildRecord(s).value, s.decision.value.decisionId)))
  {
    if s.command.Some? && s.command.value.action.AuthorizesMutation() && s.decision.Some? && s.decision.value.approved && service && BuildRecord(s).Some? {
      UngatedGraph(world, s.repository.value, BuildRecord(s).value, s.decision, checkedAt, recordedAt, ttl);
    }
  }

  /** A mutation call that changes the graph succeeds. */
  lemma UngatedGraph(world: World, repository: Repository, adr: ADRRecord, decision: Option<Decision>, checkedAt: int, recordedAt: int, ttl: int)
    ensures var (after, r) := Authorize(world, repository, adr, decision, checkedAt, recordedAt, ttl);
      after.graph == world.graph ||
      (r.Ok? && decision.Some? && after.graph == Upserted(world.graph, repository, adr, decision.value.decisionId))
  {
    var expected := UpsertFingerprint(repository, adr);
    if Gate(world.log, repository, decision, expected).None? {
      var (log, valid) := ValidateForMutation(world.log, decision, repository, expected, CurrentContent(adr), checkedAt, recordedAt, ttl);
      if valid.Ok? {
        var (graph, consumed, written) := InnerUpsert(world.graph, world.consumed, repository, adr, Some(valid.value));
      }
    }
  }

  lemma HandoffEnd(f: Finished, path: seq<Node>, world: World, s: WorkflowState, service: bool, checkedAt: int, recordedAt: int, ttl: int)
    requires s.result.None? && s.repository.Some?
    requires EndsLike(f, path, Handoff(world, s, service, checkedAt, recordedAt, ttl))
    requires IsMutated(f) || f.world.graph != world.graph
    ensures IsMutated(f) && f.path == path
    ensures f.state.command == s.command && f.state.request == s.request
    ensures s.decision.Some? && f.state.decision == s.decision && BuildRecord(s).Some? && BuildRecord(f.state) == BuildRecord(s)
    ensures f.world.graph == world.graph ||
            f.world.graph == Upserted(world.graph, s.repository.value, BuildRecord(s).value, s.decision.value.decisionId)
  {
    HandoffWritesItsRecord(world, s, service, checkedAt, recordedAt, ttl);
  }

  /** However the graph is wired and whatever the client answers: a run that ends as mutated,
      or changes the graph at all, took the one mutating path under an authorising answer, and
      the record it presented is what the reviewer was shown. */
  lemma MutatedMeansReviewed(w: Wiring, input: Input, event: Event, key: Option<string>, world: World)
    ensures var f := Run(w, input, event, key, world);
      IsMutated(f) || f.world.graph != world.graph ==>
      && IsMutated(f)
      && f.path == MutatingPath(w)
      && f.state.command.Some? && Coerce(input.resume) == Ok(f.state.command.value)
      && f.state.command.value.action.AuthorizesMutation()
      && f.state.request.Some? && f.state.decision.Some? && BuildRecord(f.state).Some?
      && IsWhatWasShown(BuildRecord(f.state).value, f.state.request.value)
      && (f.world.graph == world.graph ||
          f.world.graph == Upserted(world.graph, event.repository, BuildRecord(f.state).value, f.state.decision.value.decisionId))
  {
    if !input.classification.adrNeeded {
      NoAdrRun(w, input, event, key, world);
    } else if Coerce(input.resume).Err? {
      RunThroughReview(w, input, event, key, world);
    } else {
      var command := Coerce(input.resume).value;
      if !command.action.AuthorizesMutation() {
        TerminalRun(w, input, event, key, world, command);
      } else if w.minting {
        MintedMeansReviewed(w, input, event, key, world, command);
      } else {
        DirectMeansReviewed(w, input, event, key, world, command);
      }
    }
  }

  ghost predicate Reviewed(f: Finished, path: seq<Node>, event: Event, world: World, command: ReviewCommand) {
    && IsMutated(f) && f.path == path && f.state.command == Some(command)
    && f.state.request.Some? && f.state.decision.Some? && BuildRecord(f.state).Some?
    && IsWhatWasShown(BuildRecord(f.state).value, f.state.request.value)
    && (f.world.graph == world.graph ||
        f.world.graph == Upserted(world.graph, event.repository, BuildRecord(f.state).value, f.state.decision.value.decisionId))
  }

  lemma DirectMeansReviewed(w: Wiring, input: Input, event: Event, key: Option<string>, world: World, command: ReviewCommand)
    requires input.classification.adrNeeded && Coerce(input.resume) == Ok(command) && command.action.AuthorizesMutation() && !w.minting
    ensures var f := Run(w, input, event, key, world);
      IsMutated(f) || f.world.graph != world.graph ==> Reviewed(f, MutatingPath(w), event, world, command)
  {
    var s := Answered(input, event, key, command);
    var f := Run(w, input, event, key, world);
    DirectRun(w, input, event, key, world, command);
    if IsMutated(f) || f.world.graph != world.graph {
      HandoffEnd(f, ASKED + [MutationNode], world, s, w.service, input.checkedAt, input.recordedAt, w.serviceTtl);
      ShownIsRecorded(input, event, key, command, s.decision);
      assert s.(decision := s.decision) == s;
      assert ASKED + [] == ASKED;
    }
  }

  lemma MintedMeansReviewed(w: Wiring, input: Input, event: Event, key: Option<string>, world: World, command: ReviewCommand)
    requires input.classification.adrNeeded && Coerce(input.resume) == Ok(command) && command.action.AuthorizesMutation() && w.minting
    ensures var f := Run(w, input, event, key, world);
      IsMutated(f) || f.world.graph != world.graph ==> Reviewed(f, MutatingPath(w), event, world, command)
  {
    var s := Answered(input, event, key, command);
    MintedRun(w, input, event, key, world, command);
    var (log, minted) := MintFor(world.log, s, w.mintTtl, input.mintedAt, input.reviewEventId, input.decisionId);
    var f := Run(w, input, event, key, world);
    if minted.Ok? && (IsMutated(f) || f.world.graph != world.graph) {
      var t := minted.value;
      assert t == s.(decision := t.decision);
      HandoffEnd(f, ASKED + [Minting, MutationNode], world.(log := log), t, w.service,
                 input.checkedAt, input.recordedAt, w.serviceTtl);
      ShownIsRecorded(input, event, key, command, t.decision);
      assert ASKED + [Minting] + [MutationNode] == ASKED + [Minting, MutationNode];
    }
  }

  /** A rejection or deferral reaches neither minting nor the mutation service: the graph, the
      log and the process are as they were. */
  lemma RejectAndDeferTouchNothing(w: Wiring, input: Input, event: Event, key: Option<string>, world: World, command: ReviewCommand)
    requires Coerce(input.resume) == Ok(command) && !command.action.AuthorizesMutation()
    ensures var f := Run(w, input, event, key, world);
      && f.world == world && f.fault.None?
      && Minting !in f.path && MutationNode !in f.path
      && (input.classification.adrNeeded ==>
            f.state.result == Some(Terminal(if command.action.Defer? then Deferred else Rejected)))
  {
    if input.classification.adrNeeded {
      TerminalRun(w, input, event, key, world, command);
    } else {
      NoAdrRun(w, input, event, key, world);
    }
  }

  /** Running the handoff again on the state of a written run, whenever and in whichever
      process, reports the same node and writes nothing. */
  lemma HandoffReplays(w: World, s: WorkflowState, d: Decision, checkedAt: int, recordedAt: int, ttl: int,
                       consumed: set<string>, laterAt: int, laterRecordedAt: int)
    requires Armed(w, s, d)
    requires Handoff(w, s, true, checkedAt, recordedAt, ttl).1.Ok?
    ensures var (after, first) := Handoff(w, s, true, checkedAt, recordedAt, ttl);
      var again := after.(consumed := consumed);
      Handoff(again, s, true, laterAt, laterRecordedAt, ttl) == (again, first)
  {
    ArmedHandoff(w, s, d, checkedAt, recordedAt, ttl);
  }

  /** When the graph store raises after the node has landed, the handoff fails, leaves the write
      and nothing else, and writes again when it is repeated. */
  lemma RaisedHandoffWritesAgain(w: World, s: WorkflowState, checkedAt: int, recordedAt: int, ttl: int)
    requires Handoff(w, s, true, checkedAt, recordedAt, ttl).0.graph != w.graph
    ensures BuildRecord(s).Some? && s.decision.Some? && s.repository.Some?
    ensures var (after, r) := HandoffWith(w, s, true, checkedAt, recordedAt, ttl, true);
      var repository, adr, id := s.repository.value, BuildRecord(s).value, s.decision.value.decisionId;
      && r == Err(Refused(StoreFailure))
      && after == w.(graph := Upserted(w.graph, repository, adr, id))
      && Handoff(after, s, true, checkedAt, recordedAt, ttl).0.graph == Upserted(after.graph, repository, adr, id)
  {
    LostWrites.RaisedCallIsForgotten(w, s.repository.value, BuildRecord(s).value, s.decision, checkedAt, recordedAt, ttl);
  }
}
