/** What one mutation call answers and leaves behind, told by its request and the tables it
    meets: replays and mismatches of a consumed decision, the first failing check of a fresh
    one, and every row of a write. */
module MutationAnswers {
  import opened Prelude
  import opened Hashing
  import opened Domain
  import opened InsertOnce
  import opened Fingerprints
  import opened Approval
  import opened Mutation

  // ------------------------------------------------------------------ a consumed decision

  /** A consumed decision is answered from its consumption: presented for the target it was
      consumed for it succeeds with the stored node, presented for any other it is refused. The
      world stays as it is. */
  lemma ConsumedIsAnswered(w: World, repository: Repository, adr: ADRRecord, d: Decision,
                           checkedAt: int, recordedAt: int, ttl: int, raises: bool)
    requires d.approved && d.decisionId in w.log.consumptions
    ensures var (after, r) := AuthorizeWith(w, repository, adr, Some(d), checkedAt, recordedAt, ttl, raises);
      var row := w.log.consumptions[d.decisionId];
      && after == w
      && (r.Ok? <==> UpsertFingerprint(repository, adr) == row.fingerprint)
      && (r.Ok? ==> r.value == Authorized(d.decisionId, NodeId(repository, row.body.nodeId), true))
      && (r.Err? ==> r.error == AlreadyConsumed)
  {
  }

  /** Two ADRs that one consumed decision succeeds for read alike in key, id and hash; with
      equal hashes and keys they have one id. */
  lemma ReplaysShareTheTarget(w: World, repository: Repository, adr: ADRRecord, other: ADRRecord, d: Decision,
                              checkedAt: int, recordedAt: int, ttl: int)
    requires d.approved && d.decisionId in w.log.consumptions
    requires Authorize(w, repository, adr, Some(d), checkedAt, recordedAt, ttl).1.Ok?
    requires adr.contentHash == other.contentHash
    ensures Authorize(w, repository, other, Some(d), checkedAt, recordedAt, ttl).1.Ok? <==> adr.adrId == other.adrId
  {
    if Authorize(w, repository, other, Some(d), checkedAt, recordedAt, ttl).1.Ok? {
      UpsertDeterminesAdr(repository.Key(), adr.contentHash, adr.adrId, other.adrId);
    }
  }

  // ------------------------------------------------------------------ a fresh decision

  /** The last clock reading at which a presented decision is in time: its durable record says,
      or the service's lifetime when there is none. */
  function Deadline(log: Log, d: Decision, ttl: int): int {
    if d.decisionId in log.decisions
    then log.decisions[d.decisionId].mintedAt + 1000000 * log.decisions[d.decisionId].ttlSeconds
    else d.mintedAt + ttl
  }

  datatype Check = Check(passes: bool, error: Error)

  /** Everything a fresh approving decision is checked for, in order: four durable checks, then
      those of the inner service and the store. */
  function Checks(w: World, repository: Repository, adr: ADRRecord, d: Decision, checkedAt: int, ttl: int): (checks: seq<Check>)
    ensures |checks| == 7
  {
    [Check(repository == d.repository, RepositoryMismatch),
     Check(checkedAt <= Deadline(w.log, d, ttl), Expired),
     Check(adr.markdown == "" || CanonicalHash(adr.markdown) == d.contentHash, ContentMismatch),
     Check(UpsertFingerprint(repository, adr) == d.targetFingerprint, TargetMismatch),
     Check(adr.contentHash == d.contentHash, InnerContentMismatch),
     Check(d.decisionId !in w.consumed, InnerAlreadyConsumed),
     Check(adr.repository == repository, WriteScopeMismatch)]
  }

  const DURABLE := 4

  ghost predicate FirstFailure(checks: seq<Check>, i: nat) {
    i < |checks| && !checks[i].passes && forall j :: 0 <= j < i ==> checks[j].passes
  }

  ghost predicate AllPass(checks: seq<Check>) {
    forall i :: 0 <= i < |checks| ==> checks[i].passes
  }

  /** The class names that durable checks leave in the audit log. */
  function ErrorName(e: Error): string {
    if e == NotApproved then "DecisionNotApprovedError"
    else if e == RepositoryMismatch then "DecisionRepositoryMismatchError"
    else if e == Expired then "DecisionExpiredError"
    else if e == ContentMismatch then "DraftContentMismatchError"
    else if e == TargetMismatch then "TargetMutationMismatchError"
    else ""
  }

  /** The row of a failed validation: who presented what, for which target, and why not. */
  ghost predicate ReportsFailure(row: AuditEvent, repository: Repository, adr: ADRRecord, decision: Option<Decision>, at: int, e: Error) {
    && row.eventType == ValidationFailed && row.recordedAt == at
    && row.repositoryKey == repository.Key() && row.targetFingerprint == UpsertFingerprint(repository, adr)
    && row.decisionId == (match decision case Some(d) => Some(d.decisionId) case None => None)
    && row.reviewerId == (match decision case Some(d) => Some(d.reviewerId) case None => None)
    && row.detail == ErrorName(e)
  }

  /** A call that presents no approving decision is refused and reported. */
  lemma UnapprovedIsRefused(w: World, repository: Repository, adr: ADRRecord, decision: Option<Decision>,
                            checkedAt: int, recordedAt: int, ttl: int, raises: bool)
    requires decision.None? || !decision.value.approved
    ensures var (after, r) := AuthorizeWith(w, repository, adr, decision, checkedAt, recordedAt, ttl, raises);
      && r == Err(NotApproved)
      && |after.log.audit| == |w.log.audit| + 1
      && after == w.(log := w.log.(audit := w.log.audit + [after.log.audit[|w.log.audit|]]))
      && ReportsFailure(after.log.audit[|w.log.audit|], repository, adr, decision, recordedAt, NotApproved)
  {
  }

  ghost predicate Reported(w: World, after: World, repository: Repository, adr: ADRRecord, d: Decision, at: int, e: Error) {
    && |after.log.audit| == |w.log.audit| + 1
    && after == w.(log := w.log.(audit := w.log.audit + [after.log.audit[|w.log.audit|]]))
    && ReportsFailure(after.log.audit[|w.log.audit|], repository, adr, Some(d), at, e)
  }

  lemma DurableFailure(w: World, repository: Repository, adr: ADRRecord, d: Decision,
                       checkedAt: int, recordedAt: int, ttl: int, raises: bool, i: nat)
    requires d.approved && d.decisionId !in w.log.consumptions && i < DURABLE
    requires FirstFailure(Checks(w, repository, adr, d, checkedAt, ttl), i)
    ensures var (after, r) := AuthorizeWith(w, repository, adr, Some(d), checkedAt, recordedAt, ttl, raises);
      var e := Checks(w, repository, adr, d, checkedAt, ttl)[i].error;
      r == Err(e) && Reported(w, after, repository, adr, d, recordedAt, e)
  {
    var checks := Checks(w, repository, adr, d, checkedAt, ttl);
    if i > 0 { assert checks[0].passes; }
    if i > 1 { assert checks[1].passes; }
    if i > 2 { assert checks[2].passes; }
  }

  lemma DurableChecksPass(w: World, repository: Repository, adr: ADRRecord, d: Decision, checkedAt: int, recordedAt: int, ttl: int)
    requires d.approved
    requires forall j :: 0 <= j < DURABLE ==> Checks(w, repository, adr, d, checkedAt, ttl)[j].passes
    ensures ValidateForMutation(w.log, Some(d), repository, UpsertFingerprint(repository, adr), CurrentContent(adr), checkedAt, recordedAt, ttl)
         == (w.log, Ok(d))
  {
    var checks := Checks(w, repository, adr, d, checkedAt, ttl);
    assert checks[0].passes && checks[1].passes && checks[2].passes && checks[3].passes;
  }

  lemma InnerFailure(w: World, repository: Repository, adr: ADRRecord, d: Decision,
                     checkedAt: int, recordedAt: int, ttl: int, raises: bool, i: nat)
    requires d.approved && d.decisionId !in w.log.consumptions && i >= DURABLE
    requires FirstFailure(Checks(w, repository, adr, d, checkedAt, ttl), i)
    ensures AuthorizeWith(w, repository, adr, Some(d), checkedAt, recordedAt, ttl, raises)
         == (w, Err(Checks(w, repository, adr, d, checkedAt, ttl)[i].error))
  {
    var checks := Checks(w, repository, adr, d, checkedAt, ttl);
    DurableChecksPass(w, repository, adr, d, checkedAt, recordedAt, ttl);
    assert checks[0].passes && checks[3].passes;
    if i > 4 { assert checks[4].passes; }
    if i > 5 { assert checks[5].passes; }
  }

  /** A call with a fresh approving decision answers with its first failing check, whatever the
      store would do. A durable check leaves one report, a later one leaves nothing; neither
      touches graph, tables or process. */
  lemma FirstFailureAnswers(w: World, repository: Repository, adr: ADRRecord, d: Decision,
                            checkedAt: int, recordedAt: int, ttl: int, raises: bool, i: nat)
    requires d.approved && d.decisionId !in w.log.consumptions
    requires FirstFailure(Checks(w, repository, adr, d, checkedAt, ttl), i)
    ensures var (after, r) := AuthorizeWith(w, repository, adr, Some(d), checkedAt, recordedAt, ttl, raises);
      var e := Checks(w, repository, adr, d, checkedAt, ttl)[i].error;
      && r == Err(e)
      && (i < DURABLE ==> Reported(w, after, repository, adr, d, recordedAt, e))
      && (i >= DURABLE ==> after == w)
  {
    if i < DURABLE {
      DurableFailure(w, repository, adr, d, checkedAt, recordedAt, ttl, raises, i);
    } else {
      InnerFailure(w, repository, adr, d, checkedAt, recordedAt, ttl, raises, i);
    }
  }

  /** What a write leaves: the node in the graph, the consumption, and the two rows. */
  ghost predicate Writes(w: World, after: World, repository: Repository, adr: ADRRecord, d: Decision, at: int) {
    var node, target, n := NodeId(repository, "adr:" + adr.adrId), UpsertFingerprint(repository, adr), |w.log.audit|;
    && after.graph.nodes == w.graph.nodes[node := adr]
    && after.graph.writes == w.graph.writes + [Write(d.decisionId, node, adr.contentHash)]
    && after.consumed == w.consumed + {d.decisionId}
    && after.log.events == w.log.events && after.log.decisions == w.log.decisions
    && d.decisionId in after.log.consumptions
    && after.log.consumptions == w.log.consumptions[d.decisionId := after.log.consumptions[d.decisionId]]
    && after.log.consumptions[d.decisionId] == Row(d.decisionId, target, ConsumptionBody(repository.Key(), node.value, at))
    && |after.log.audit| == n + 2 && after.log.audit[..n] == w.log.audit
    && (forall row :: row in after.log.audit[n..] ==>
          && row.repositoryKey == repository.Key() && row.recordedAt == at && row.targetFingerprint == target
          && row.decisionId == Some(d.decisionId) && row.reviewerId == Some(d.reviewerId))
    && after.log.audit[n].eventType == MutationPerformed && after.log.audit[n].detail == "node:adr:" + adr.adrId
    && after.log.audit[n + 1].eventType == ConsumptionRecorded && after.log.audit[n + 1].detail == "upsert_adr_node"
  }

  /** Recording a decision's first consumption leaves it and the two rows behind it. */
  lemma RecordsTheWrite(w: World, repository: Repository, adr: ADRRecord, d: Decision, at: int)
    requires d.decisionId !in w.log.consumptions
    ensures var node := NodeId(repository, "adr:" + adr.adrId);
      var (after, r) := RecordResult(World(w.log, Upserted(w.graph, repository, adr, d.decisionId), w.consumed + {d.decisionId}),
                                     d, repository, UpsertFingerprint(repository, adr), node, at);
      && r == Ok(Authorized(d.decisionId, node, false))
      && Writes(w, after, repository, adr, d, at)
  {
    var node := NodeId(repository, "adr:" + adr.adrId);
    var after := RecordResult(World(w.log, Upserted(w.graph, repository, adr, d.decisionId), w.consumed + {d.decisionId}),
                              d, repository, UpsertFingerprint(repository, adr), node, at).0;
    var n := |w.log.audit|;
    assert "node:" + ("adr:" + adr.adrId) == "node:adr:" + adr.adrId;
    assert after.log.audit == w.log.audit + [after.log.audit[n], after.log.audit[n + 1]];
    assert after.log.audit[n..] == [after.log.audit[n], after.log.audit[n + 1]];
  }

  /** A call whose checks all pass writes, and says so. */
  lemma PassingWrites(w: World, repository: Repository, adr: ADRRecord, d: Decision, checkedAt: int, recordedAt: int, ttl: int)
    requires d.approved && d.decisionId !in w.log.consumptions
    requires AllPass(Checks(w, repository, adr, d, checkedAt, ttl))
    ensures var (after, r) := Authorize(w, repository, adr, Some(d), checkedAt, recordedAt, ttl);
      && r == Ok(Authorized(d.decisionId, NodeId(repository, "adr:" + adr.adrId), false))
      && Writes(w, after, repository, adr, d, recordedAt)
  {
    var checks := Checks(w, repository, adr, d, checkedAt, ttl);
    DurableChecksPass(w, repository, adr, d, checkedAt, recordedAt, ttl);
    assert checks[0].passes && checks[3].passes && checks[4].passes && checks[5].passes && checks[6].passes;
    assert Gate(w.log, repository, Some(d), UpsertFingerprint(repository, adr)).None?;
    assert InnerUpsert(w.graph, w.consumed, repository, adr, Some(d))
        == (Upserted(w.graph, repository, adr, d.decisionId), w.consumed + {d.decisionId}, Ok(NodeId(repository, "adr:" + adr.adrId)));
    RecordsTheWrite(w, repository, adr, d, recordedAt);
  }

  /** Whether a call mutates is told by its inputs: an approving decision that nobody consumed
      and that passes every check. */
  lemma MutatesExactly(w: World, repository: Repository, adr: ADRRecord, decision: Option<Decision>,
                       checkedAt: int, recordedAt: int, ttl: int)
    ensures var (after, r) := Authorize(w, repository, adr, decision, checkedAt, recordedAt, ttl);
      (r.Ok? && !r.value.replay)
      <==> decision.Some? && decision.value.approved && decision.value.decisionId !in w.log.consumptions
           && AllPass(Checks(w, repository, adr, decision.value, checkedAt, ttl))
  {
    if decision.None? || !decision.value.approved {
      UnapprovedIsRefused(w, repository, adr, decision, checkedAt, recordedAt, ttl, false);
    } else if decision.value.decisionId in w.log.consumptions {
      ConsumedIsAnswered(w, repository, adr, decision.value, checkedAt, recordedAt, ttl, false);
    } else if AllPass(Checks(w, repository, adr, decision.value, checkedAt, ttl)) {
      PassingWrites(w, repository, adr, decision.value, checkedAt, recordedAt, ttl);
    } else {
      var i := First(Checks(w, repository, adr, decision.value, checkedAt, ttl));
      FirstFailureAnswers(w, repository, adr, decision.value, checkedAt, recordedAt, ttl, false, i);
    }
  }

  lemma {:induction false} First(checks: seq<Check>) returns (i: nat)
    requires !AllPass(checks)
    ensures FirstFailure(checks, i)
  {
    if !checks[0].passes {
      i := 0;
    } else {
      var j := First(checks[1..]);
      i := j + 1;
      assert forall k :: 0 < k < i ==> checks[k] == checks[1..][k - 1];
    }
  }

  /** Whatever a successful call found or did, its decision is consumed for the very target it
      was presented for, and the answer names the node of that consumption. */
  lemma SuccessIsConsumed(w: World, repository: Repository, adr: ADRRecord, decision: Option<Decision>,
                          checkedAt: int, recordedAt: int, ttl: int)
    ensures var (after, r) := Authorize(w, repository, adr, decision, checkedAt, recordedAt, ttl);
      r.Ok? ==>
        && decision.Some? && decision.value.approved && decision.value.decisionId in after.log.consumptions
        && var row := after.log.consumptions[decision.value.decisionId];
        && row.fingerprint == UpsertFingerprint(repository, adr)
        && r.value.decisionId == decision.value.decisionId && r.value.node == NodeId(repository, row.body.nodeId)
  {
    if decision.None? || !decision.value.approved {
      UnapprovedIsRefused(w, repository, adr, decision, checkedAt, recordedAt, ttl, false);
    } else if decision.value.decisionId in w.log.consumptions {
      ConsumedIsAnswered(w, repository, adr, decision.value, checkedAt, recordedAt, ttl, false);
    } else if AllPass(Checks(w, repository, adr, decision.value, checkedAt, ttl)) {
      PassingWrites(w, repository, adr, decision.value, checkedAt, recordedAt, ttl);
    } else {
      var i := First(Checks(w, repository, adr, decision.value, checkedAt, ttl));
      FirstFailureAnswers(w, repository, adr, decision.value, checkedAt, recordedAt, ttl, false, i);
    }
  }

  // ------------------------------------------------------------------ the inner service by itself

  /** What the inner service checks an approving decision for when it is called directly. */
  function InnerChecks(consumed: set<string>, repository: Repository, adr: ADRRecord, d: Decision): (checks: seq<Check>)
    ensures |checks| == 5
  {
    [Check(repository == d.repository, InnerRepositoryMismatch),
     Check(adr.contentHash == d.contentHash, InnerContentMismatch),
     Check(UpsertFingerprint(repository, adr) == d.targetFingerprint, InnerTargetMismatch),
     Check(d.decisionId !in consumed, InnerAlreadyConsumed),
     Check(adr.repository == repository, WriteScopeMismatch)]
  }

  /** Called directly, the inner service answers with its first failing check and changes
      nothing. */
  lemma InnerFirstFailure(g: Graph, consumed: set<string>, repository: Repository, adr: ADRRecord, d: Decision, raises: bool, i: nat)
    requires d.approved && FirstFailure(InnerChecks(consumed, repository, adr, d), i)
    ensures InnerUpsertWith(g, consumed, repository, adr, Some(d), raises)
         == (g, consumed, Err(InnerChecks(consumed, repository, adr, d)[i].error))
  {
    var checks := InnerChecks(consumed, repository, adr, d);
    if i > 0 { assert checks[0].passes; }
    if i > 1 { assert checks[1].passes; }
    if i > 2 { assert checks[2].passes; }
    if i > 3 { assert checks[3].passes; }
  }

  /** One capability, one write: a call that passes writes its node, the same capability is then
      refused for whatever is presented with it, and only a raising store leaves it usable. */
  lemma InnerOneShot(g: Graph, consumed: set<string>, repository: Repository, adr: ADRRecord, d: Decision, raises: bool,
                     other: Repository, again: ADRRecord)
    requires d.approved && AllPass(InnerChecks(consumed, repository, adr, d))
    ensures var (after, marked, r) := InnerUpsertWith(g, consumed, repository, adr, Some(d), raises);
      var node := NodeId(repository, "adr:" + adr.adrId);
      && after == Graph(g.nodes[node := adr], g.writes + [Write(d.decisionId, node, adr.contentHash)])
      && (raises ==> r == Err(StoreFailure) && marked == consumed)
      && (!raises ==> r == Ok(node))
      && (InnerUpsert(after, marked, other, again, Some(d)).2.Ok? ==> raises)
      && (raises ==> InnerUpsert(after, marked, repository, adr, Some(d)).2 == Ok(node))
  {
    var checks := InnerChecks(consumed, repository, adr, d);
    assert checks[0].passes && checks[1].passes && checks[2].passes && checks[3].passes && checks[4].passes;
  }

  /** Without an approving decision it writes nothing. */
  lemma InnerNeedsApproval(g: Graph, consumed: set<string>, repository: Repository, adr: ADRRecord, decision: Option<Decision>, raises: bool)
    ensures (decision.None? || !decision.value.approved)
        <==> InnerUpsertWith(g, consumed, repository, adr, decision, raises) == (g, consumed, Err(InnerNotApproved))
  {
  }
}
