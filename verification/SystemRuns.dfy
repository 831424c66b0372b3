/** The whole approval boundary as one sequential system: minting and review outcomes,
    mutation calls, publication calls and restarts in any order, each run to its end. What a
    decision's audit rows look like, and what they say about the graph. */
module SystemRuns {
  import opened Prelude
  import opened Domain
  import opened InsertOnce
  import opened Fingerprints
  import opened Approval
  import opened Mutation
  import Pub = Publication
  import Calls = PublicationRuns

  datatype Settings = Settings(ttl: int, maxAttempts: nat)

  /** `issued` remembers the capabilities that minting handed out. */
  datatype System = System(world: World, shelf: Pub.Shelf, issued: set<Decision>) {
    function Log(): Approval.Log {
      world.log
    }

    predicate MayPresent(decision: Option<Decision>) {
      decision.None? || decision.value in issued
    }
  }

  datatype Op =
    | Review(command: ReviewCommand, context: ReviewContext, target: Option<string>, at: int, reviewEventId: string, decisionId: string)
    | Mutate(repository: Repository, adr: ADRRecord, decision: Option<Decision>, checkedAt: int, recordedAt: int)
    | Publish(call: Calls.PublishCall)
    | Restart

  const START := System(World(EMPTY_LOG, Graph(map[], []), {}), Pub.Shelf(EMPTY_LOG, map[], [], []), {})

  function ReviewStep(s: System, op: Op, ttl: int): System
    requires op.Review?
  {
    var (log, r) := Mint(s.Log(), op.command, op.context, op.target, ttl, op.at, op.reviewEventId, op.decisionId);
    System(s.world.(log := log), s.shelf,
           if r.Ok? && r.value.decision.Some? then s.issued + {r.value.decision.value} else s.issued)
  }

  function MutateStep(s: System, op: Op, ttl: int): System
    requires op.Mutate?
  {
    s.(world := Authorize(s.world, op.repository, op.adr, op.decision, op.checkedAt, op.recordedAt, ttl).0)
  }

  function PublishStep(s: System, op: Op, settings: Settings): System
    requires op.Publish?
  {
    var shelf := Calls.ApplyCall(s.shelf.(log := s.Log()), op.call, settings.ttl, settings.maxAttempts).0;
    System(s.world.(log := shelf.log), shelf, s.issued)
  }

  /** Callers present no capability or one that minting issued. */
  function Apply(s: System, op: Op, settings: Settings): System {
    match op
    case Review(_, _, _, _, _, _) => ReviewStep(s, op, settings.ttl)
    case Mutate(_, _, decision, _, _) => if s.MayPresent(decision) then MutateStep(s, op, settings.ttl) else s
    case Publish(call) => if s.MayPresent(call.request.decision) then PublishStep(s, op, settings) else s
    case Restart => s.(world := s.world.(consumed := {}))
  }

  function Run(ops: seq<Op>, settings: Settings): System {
    if ops == [] then START else Apply(Run(ops[..|ops| - 1], settings), ops[|ops| - 1], settings)
  }

  // ------------------------------------------------------------------ what one operation does

  /** The five things an operation can do to the log and the graph. */
  datatype Effect =
    | Quiet
    | Issued(decision: Decision)
    | Appended(row: AuditEvent)
    | Wrote(decision: Decision, repository: Repository, adr: ADRRecord, at: int)

  ghost predicate Unchanged(s: System, t: System) {
    && t.Log().decisions == s.Log().decisions && t.Log().consumptions == s.Log().consumptions
    && t.world.graph == s.world.graph && s.issued <= t.issued
  }

  /** What an appended row may say: a failed validation of something issued, or a publication
      link of something consumed. */
  ghost predicate MayAppend(s: System, row: AuditEvent) {
    match row.eventType
    case ValidationFailed => row.decisionId.Some? ==> row.decisionId.value in s.Log().decisions
    case PublicationLinked => row.decisionId.Some? && row.decisionId.value in s.Log().consumptions
    case _ => false
  }

  ghost predicate WriteHappened(s: System, t: System, d: Decision, repository: Repository, adr: ADRRecord, at: int) {
    var node := NodeId(repository, AdrNodeValue(adr));
    var fingerprint := UpsertFingerprint(repository, adr);
    && d in s.issued && s.issued <= t.issued
    && d.repository == repository && d.targetFingerprint == fingerprint && d.contentHash == adr.contentHash
    && d.decisionId in s.Log().decisions && d.decisionId !in s.Log().consumptions
    && t.world.graph == Upserted(s.world.graph, repository, adr, d.decisionId)
    && t.Log().decisions == s.Log().decisions
    && t.Log().consumptions == s.Log().consumptions[d.decisionId := ConsumptionRow(d, repository, fingerprint, node, at)]
    && t.Log().audit == s.Log().audit + [MutationRow(d, repository, fingerprint, node, at), ConsumedRow(d, repository, fingerprint, at)]
  }

  ghost predicate Has(s: System, t: System, e: Effect) {
    match e
    case Quiet => Unchanged(s, t) && t.Log().audit == s.Log().audit
    case Appended(row) => Unchanged(s, t) && t.Log().audit == s.Log().audit + [row] && MayAppend(s, row)
    case Issued(d) =>
      && d.approved
      && d.decisionId !in s.Log().decisions
      && t.Log().decisions.Keys == s.Log().decisions.Keys + {d.decisionId}
      && t.Log().consumptions == s.Log().consumptions && t.world.graph == s.world.graph && s.issued <= t.issued
      && exists action :: t.Log().audit == s.Log().audit + [MintedRow(d, action)]
    case Wrote(d, repository, adr, at) => WriteHappened(s, t, d, repository, adr, at)
  }

  /** Everything issued is approved and durable, one decision to an id; the process remembers
      no more than the log. */
  ghost predicate Sane(s: System) {
    && (forall d :: d in s.issued ==> d.approved && d.decisionId in s.Log().decisions)
    && (forall d, e :: d in s.issued && e in s.issued && d.decisionId == e.decisionId ==> d == e)
    && s.world.consumed <= s.Log().consumptions.Keys
    && s.Log().consumptions.Keys <= s.Log().decisions.Keys
  }

  lemma ReviewEffect(s: System, op: Op, settings: Settings) returns (e: Effect)
    requires Sane(s) && op.Review?
    ensures Has(s, Apply(s, op, settings), e) && Sane(Apply(s, op, settings))
  {
    var t := Apply(s, op, settings);
    var (log, r) := Mint(s.Log(), op.command, op.context, op.target, settings.ttl, op.at, op.reviewEventId, op.decisionId);
    if r.Ok? && r.value.decision.Some? {
      e := Issued(r.value.decision.value);
      assert t.Log().audit == s.Log().audit + [MintedRow(r.value.decision.value, op.command.action)];
    } else {
      e := Quiet;
    }
  }

  /** A mutation call writes and records together, or appends one row of a failed validation,
      or changes nothing. */
  lemma MutateEffect(s: System, op: Op, settings: Settings) returns (e: Effect)
    requires Sane(s) && op.Mutate? && s.MayPresent(op.decision)
    ensures Has(s, Apply(s, op, settings), e) && Sane(Apply(s, op, settings))
  {
    var t := Apply(s, op, settings);
    var expected := UpsertFingerprint(op.repository, op.adr);
    if Gate(s.Log(), op.repository, op.decision, expected).Some? {
      return Quiet;
    }
    var (log, valid) := ValidateForMutation(s.Log(), op.decision, op.repository, expected, CurrentContent(op.adr), op.checkedAt, op.recordedAt, settings.ttl);
    if valid.Err? {
      return Appended(FailureRow(op.decision, op.repository, expected, op.recordedAt, valid.error));
    }
    var d := valid.value;
    var (graph, consumed, written) := InnerUpsert(s.world.graph, s.world.consumed, op.repository, op.adr, Some(d));
    if written.Err? {
      return Quiet;
    }
    e := Wrote(d, op.repository, op.adr, op.recordedAt);
  }

  /** A publication call's log is the old one, or gains one row it may append. */
  ghost predicate AtMostOneRow(before: Log, after: Log, id: Option<string>) {
    || after == before
    || exists row :: after == before.Append(row) && row.decisionId == id
         && (row.eventType == ValidationFailed ||
             (row.eventType == PublicationLinked && id.Some? && id.value in before.consumptions))
  }

  function Presented(decision: Option<Decision>): Option<string> {
    if decision.Some? then Some(decision.value.decisionId) else None
  }

  lemma AuthorizedLog(log: Log, r: Pub.PublishRequest, now: int, failedAt: int, ttl: int)
    ensures var (after, valid) := Pub.AuthorizePublication(log, r, now, failedAt, ttl);
      && AtMostOneRow(log, after, Presented(r.decision))
      && (valid.Ok? ==> after == log && r.decision == Some(valid.value) && valid.value.decisionId in log.consumptions)
  {
  }

  lemma SettledLog(s: Pub.Shelf, r: Pub.PublishRequest, d: Decision, done: Pub.CommitResult, linkedAt: int)
    requires d.decisionId in s.log.consumptions
    ensures AtMostOneRow(s.log, Pub.SettleFile(s, r, d, done, linkedAt).0.log, Some(d.decisionId))
  {
    var intent := Pub.NewRecord(r, Pub.Pending, "");
    match done
    case Failed =>
    case Exhausted => FinishedLog(s, r, d, Pub.WithStatus(intent, Pub.DeadLettered, Pub.DEAD), linkedAt);
    case Done(path, sha, created) => FinishedLog(s, r, d, Pub.CommittedRecord(intent, path, sha, created), linkedAt);
  }

  lemma FinishedLog(s: Pub.Shelf, r: Pub.PublishRequest, d: Decision, record: Pub.Record, linkedAt: int)
    requires d.decisionId in s.log.consumptions
    ensures var t := Pub.FinishRecord(s, r, d, record, linkedAt);
      t.Some? ==> AtMostOneRow(s.log, t.value.log, Some(d.decisionId))
  {
    var row := Pub.LinkRow(r.repository, d, record, linkedAt);
    assert s.log.Append(row) == s.log.Append(row) && row.decisionId == Some(d.decisionId);
  }

  lemma FiledLog(s: Pub.Shelf, r: Pub.PublishRequest, d: Decision, linkedAt: int, maxAttempts: nat)
    requires |s.turns| >= maxAttempts && d.decisionId in s.log.consumptions
    ensures AtMostOneRow(s.log, Pub.PublishFile(s, r, d, linkedAt, maxAttempts).0.log, Some(d.decisionId))
  {
    var (reserved, outcome) := Put(s.records, Pub.NewRecord(r, Pub.Pending, ""));
    if !outcome.Conflict? {
      var (files, turns, done) := Pub.Commit(s.files, s.turns, Pub.PlanOf(Pub.JobOf(r, d.decisionId)), maxAttempts);
      SettledLog(s.(records := reserved, files := files, turns := turns), r, d, done, linkedAt);
    }
  }

  lemma PublishedLog(s: Pub.Shelf, call: Calls.PublishCall, ttl: int, maxAttempts: nat)
    ensures AtMostOneRow(s.log, Calls.ApplyCall(s, call, ttl, maxAttempts).0.log, Presented(call.request.decision))
  {
    var r := call.request;
    if |call.turns| >= maxAttempts && Pub.Prior(s.records, r).None? {
      AuthorizedLog(s.log, r, call.now, call.linkedAt, ttl);
      var (log, valid) := Pub.AuthorizePublication(s.log, r, call.now, call.linkedAt, ttl);
      if valid.Ok? {
        var d := valid.value;
        if r.policy.PublishesToGithub() {
          FiledLog(s.(turns := call.turns, log := log), r, d, call.linkedAt, maxAttempts);
        } else {
          var record := Pub.NewRecord(r, Pub.SkippedByPolicy, Pub.SKIPPED);
          var row := Pub.LinkRow(r.repository, d, record, call.linkedAt);
          assert row.decisionId == Some(d.decisionId) && row.eventType == PublicationLinked;
        }
      }
    }
  }

  lemma PublishEffect(s: System, op: Op, settings: Settings) returns (e: Effect)
    requires Sane(s) && op.Publish? && s.MayPresent(op.call.request.decision)
    ensures Has(s, Apply(s, op, settings), e) && Sane(Apply(s, op, settings))
  {
    var t := Apply(s, op, settings);
    var id := Presented(op.call.request.decision);
    PublishedLog(s.shelf.(log := s.Log()), op.call, settings.ttl, settings.maxAttempts);
    assert AtMostOneRow(s.Log(), t.Log(), id);
    if t.Log() == s.Log() {
      return Quiet;
    }
    var row :| t.Log() == s.Log().Append(row) && row.decisionId == id
      && (row.eventType == ValidationFailed || (row.eventType == PublicationLinked && id.Some? && id.value in s.Log().consumptions));
    e := Appended(row);
  }

  lemma OpEffect(s: System, op: Op, settings: Settings) returns (e: Effect)
    requires Sane(s)
    ensures Has(s, Apply(s, op, settings), e) && Sane(Apply(s, op, settings))
  {
    match op
    case Review(_, _, _, _, _, _) => e := ReviewEffect(s, op, settings);
    case Mutate(_, _, decision, _, _) =>
      if s.MayPresent(decision) { e := MutateEffect(s, op, settings); } else { e := Quiet; }
    case Publish(call) =>
      if s.MayPresent(call.request.decision) { e := PublishEffect(s, op, settings); } else { e := Quiet; }
    case Restart => e := Quiet;
  }

  // ------------------------------------------------------------------ the shape of a trail

  datatype Phase = Unborn | Open | Written | Closed | Broken

  function Next(p: Phase, e: EventType): Phase {
    match (p, e)
    case (Unborn, CapabilityMinted) => Open
    case (Open, ValidationFailed) => Open
    case (Open, MutationPerformed) => Written
    case (Written, ConsumptionRecorded) => Closed
    case (Closed, ValidationFailed) => Closed
    case (Closed, PublicationLinked) => Closed
    case _ => Broken
  }

  function PhaseOf(rows: seq<AuditEvent>): Phase {
    if rows == [] then Unborn else Next(PhaseOf(rows[..|rows| - 1]), rows[|rows| - 1].eventType)
  }

  function ExpectedPhase(log: Log, id: string): Phase {
    if id in log.consumptions then Closed else if id in log.decisions then Open else Unborn
  }

  lemma PhaseAppend(rows: seq<AuditEvent>, row: AuditEvent)
    ensures PhaseOf(rows + [row]) == Next(PhaseOf(rows), row.eventType)
  {
    assert (rows + [row])[..|rows|] == rows;
  }

  lemma TrailAppend(audit: seq<AuditEvent>, row: AuditEvent, id: string)
    ensures var mine := (e: AuditEvent) => e.decisionId == Some(id);
      Filter(audit + [row], mine) == Filter(audit, mine) + (if row.decisionId == Some(id) then [row] else [])
  {
    FilterAppend(audit, [row], (e: AuditEvent) => e.decisionId == Some(id));
  }

  lemma TrailGrows(s: Log, t: Log, row: AuditEvent, id: string)
    requires t.audit == s.audit + [row]
    ensures t.Trail(id) == s.Trail(id) + (if row.decisionId == Some(id) then [row] else [])
    ensures PhaseOf(t.Trail(id)) == if row.decisionId == Some(id) then Next(PhaseOf(s.Trail(id)), row.eventType) else PhaseOf(s.Trail(id))
  {
    TrailAppend(s.audit, row, id);
    PhaseAppend(s.Trail(id), row);
    assert s.Trail(id) + [] == s.Trail(id);
  }

  lemma EffectKeepsPhase(s: System, t: System, e: Effect, id: string)
    requires Sane(s) && Has(s, t, e)
    requires PhaseOf(s.Log().Trail(id)) == ExpectedPhase(s.Log(), id)
    ensures PhaseOf(t.Log().Trail(id)) == ExpectedPhase(t.Log(), id)
  {
    match e
    case Quiet =>
    case Appended(row) => TrailGrows(s.Log(), t.Log(), row, id);
    case Issued(d) =>
      var action :| t.Log().audit == s.Log().audit + [MintedRow(d, action)];
      TrailGrows(s.Log(), t.Log(), MintedRow(d, action), id);
    case Wrote(d, repository, adr, at) =>
      var node := NodeId(repository, AdrNodeValue(adr));
      var fingerprint := UpsertFingerprint(repository, adr);
      var first := MutationRow(d, repository, fingerprint, node, at);
      var second := ConsumedRow(d, repository, fingerprint, at);
      var between := s.Log().Append(first);
      assert t.Log().audit == between.audit + [second];
      TrailGrows(s.Log(), between, first, id);
      TrailGrows(between, t.Log(), second, id);
  }

  // ------------------------------------------------------------------ conservation

  function CountRows(rows: seq<AuditEvent>, kind: EventType): nat {
    if rows == [] then 0 else CountRows(rows[..|rows| - 1], kind) + if rows[|rows| - 1].eventType == kind then 1 else 0
  }

  lemma CountAppend(rows: seq<AuditEvent>, row: AuditEvent, kind: EventType)
    ensures CountRows(rows + [row], kind) == CountRows(rows, kind) + if row.eventType == kind then 1 else 0
  {
    assert (rows + [row])[..|rows|] == rows;
  }

  /** Graph writes, consumptions and the two kinds of audit rows go together. */
  ghost predicate Balanced(s: System) {
    && |s.world.graph.writes| == |s.Log().consumptions|
    && CountRows(s.Log().audit, MutationPerformed) == |s.world.graph.writes|
    && CountRows(s.Log().audit, ConsumptionRecorded) == |s.world.graph.writes|
    && CountRows(s.Log().audit, CapabilityMinted) == |s.Log().decisions|
  }

  lemma AppendKeepsCounts(audit: seq<AuditEvent>, row: AuditEvent)
    ensures forall kind :: CountRows(audit + [row], kind) == CountRows(audit, kind) + if row.eventType == kind then 1 else 0
  {
    forall kind ensures CountRows(audit + [row], kind) == CountRows(audit, kind) + if row.eventType == kind then 1 else 0 {
      CountAppend(audit, row, kind);
    }
  }

  lemma EffectKeepsBalance(s: System, t: System, e: Effect)
    requires Sane(s) && Has(s, t, e) && Balanced(s)
    ensures Balanced(t)
  {
    match e
    case Quiet =>
    case Appended(row) => AppendKeepsCounts(s.Log().audit, row);
    case Issued(d) =>
      var action :| t.Log().audit == s.Log().audit + [MintedRow(d, action)];
      AppendKeepsCounts(s.Log().audit, MintedRow(d, action));
      assert |t.Log().decisions| == |t.Log().decisions.Keys| && |s.Log().decisions| == |s.Log().decisions.Keys|;
    case Wrote(d, repository, adr, at) => WriteKeepsBalance(s, t, d, repository, adr, at);
  }

  lemma WriteKeepsBalance(s: System, t: System, d: Decision, repository: Repository, adr: ADRRecord, at: int)
    requires Balanced(s) && WriteHappened(s, t, d, repository, adr, at)
    ensures Balanced(t)
  {
    var node := NodeId(repository, AdrNodeValue(adr));
    var fingerprint := UpsertFingerprint(repository, adr);
    var first := MutationRow(d, repository, fingerprint, node, at);
    var second := ConsumedRow(d, repository, fingerprint, at);
    assert t.Log().audit == s.Log().audit + [first] + [second];
    AppendKeepsCounts(s.Log().audit, first);
    AppendKeepsCounts(s.Log().audit + [first], second);
    assert |t.Log().consumptions.Keys| == |s.Log().consumptions.Keys| + 1;
  }

  // ------------------------------------------------------------------ writes and consumptions

  function WritesOf(g: Graph, id: string): seq<Write> {
    Filter(g.writes, (w: Write) => w.decisionId == id)
  }

  /** A consumed decision has exactly one write, and its consumption and its mutation row
      both name the node of that write; an unconsumed one has none. */
  ghost predicate Accounted(s: System, id: string) {
    if id in s.Log().consumptions then
      && |WritesOf(s.world.graph, id)| == 1
      && WritesOf(s.world.graph, id)[0].node in s.world.graph.nodes
      && s.Log().consumptions[id].body.nodeId == WritesOf(s.world.graph, id)[0].node.value
      && (forall row :: row in s.Log().Trail(id) && row.eventType == MutationPerformed ==>
            row.detail == "node:" + s.Log().consumptions[id].body.nodeId)
    else
      WritesOf(s.world.graph, id) == [] && forall row :: row in s.Log().Trail(id) ==> row.eventType != MutationPerformed
  }

  lemma WritesGrow(g: Graph, repository: Repository, adr: ADRRecord, writer: string, id: string)
    ensures var w := Write(writer, NodeId(repository, AdrNodeValue(adr)), adr.contentHash);
      WritesOf(Upserted(g, repository, adr, writer), id) == WritesOf(g, id) + (if writer == id then [w] else [])
  {
    var w := Write(writer, NodeId(repository, AdrNodeValue(adr)), adr.contentHash);
    FilterAppend(g.writes, [w], (x: Write) => x.decisionId == id);
  }

  lemma EffectKeepsAccounts(s: System, t: System, e: Effect, id: string)
    requires Sane(s) && Has(s, t, e) && Accounted(s, id)
    ensures Accounted(t, id)
  {
    match e
    case Quiet =>
    case Appended(row) => TrailGrows(s.Log(), t.Log(), row, id);
    case Issued(d) =>
      var action :| t.Log().audit == s.Log().audit + [MintedRow(d, action)];
      TrailGrows(s.Log(), t.Log(), MintedRow(d, action), id);
    case Wrote(d, repository, adr, at) =>
      var node := NodeId(repository, AdrNodeValue(adr));
      var fingerprint := UpsertFingerprint(repository, adr);
      var first := MutationRow(d, repository, fingerprint, node, at);
      var second := ConsumedRow(d, repository, fingerprint, at);
      var between := s.Log().Append(first);
      assert t.Log().audit == between.audit + [second];
      TrailGrows(s.Log(), between, first, id);
      TrailGrows(between, t.Log(), second, id);
      WritesGrow(s.world.graph, repository, adr, d.decisionId, id);
  }

  /** The write of a consumed decision is what the decision was issued for. */
  ghost predicate WroteAsIssued(w: Write, d: Decision, adrId: string) {
    && w.node == NodeId(d.repository, "adr:" + adrId)
    && w.contentHash == d.contentHash
    && d.targetFingerprint == Upsert(d.repository.Key(), adrId, d.contentHash).Fingerprint()
  }

  ghost predicate Faithful(s: System, id: string) {
    id in s.Log().consumptions ==>
      |WritesOf(s.world.graph, id)| == 1 &&
      exists d, adrId :: d in s.issued && d.decisionId == id && WroteAsIssued(WritesOf(s.world.graph, id)[0], d, adrId)
  }

  lemma EffectKeepsFaithful(s: System, t: System, e: Effect, id: string)
    requires Sane(s) && Has(s, t, e) && Faithful(s, id) && Accounted(s, id)
    ensures Faithful(t, id)
  {
    if e.Wrote? {
      WritesGrow(s.world.graph, e.repository, e.adr, e.decision.decisionId, id);
      if id == e.decision.decisionId {
        assert e.decision in t.issued && WroteAsIssued(WritesOf(t.world.graph, id)[0], e.decision, e.adr.adrId);
      } else if id in s.Log().consumptions {
        assert WritesOf(t.world.graph, id) == WritesOf(s.world.graph, id);
        var d, adrId :| d in s.issued && d.decisionId == id && WroteAsIssued(WritesOf(s.world.graph, id)[0], d, adrId);
        assert d in t.issued;
      }
    }
  }

  // ------------------------------------------------------------------ what holds of every run

  ghost predicate Inv(s: System, id: string) {
    && Sane(s) && Balanced(s) && Accounted(s, id) && Faithful(s, id)
    && PhaseOf(s.Log().Trail(id)) == ExpectedPhase(s.Log(), id)
  }

  lemma {:induction false} EveryRun(ops: seq<Op>, settings: Settings, id: string)
    ensures Inv(Run(ops, settings), id)
  {
    if ops != [] {
      var n := |ops| - 1;
      EveryRun(ops[..n], settings, id);
      var s := Run(ops[..n], settings);
      var e := OpEffect(s, ops[n], settings);
      var t := Apply(s, ops[n], settings);
      EffectKeepsPhase(s, t, e, id);
      EffectKeepsBalance(s, t, e);
      EffectKeepsAccounts(s, t, e, id);
      EffectKeepsFaithful(s, t, e, id);
    }
  }

  ghost predicate All(rows: seq<AuditEvent>, kinds: set<EventType>) {
    forall row :: row in rows ==> row.eventType in kinds
  }

  /** MINTED, then failed validations only. */
  ghost predicate OpenShape(rows: seq<AuditEvent>) {
    |rows| > 0 && rows[0].eventType == CapabilityMinted && All(rows[1..], {ValidationFailed})
  }

  /** The open shape, then MUTATION_PERFORMED and CONSUMPTION_RECORDED side by side at `i`,
      then failed validations and publication links. */
  ghost predicate ClosedShape(rows: seq<AuditEvent>, i: nat) {
    && i + 1 < |rows|
    && OpenShape(rows[..i])
    && rows[i].eventType == MutationPerformed && rows[i + 1].eventType == ConsumptionRecorded
    && All(rows[i + 2..], {ValidationFailed, PublicationLinked})
  }

  lemma {:induction false} OpenRows(rows: seq<AuditEvent>)
    requires PhaseOf(rows) == Open
    ensures OpenShape(rows)
  {
    var n := |rows| - 1;
    if PhaseOf(rows[..n]) == Open {
      OpenRows(rows[..n]);
      assert rows[1..] == rows[..n][1..] + [rows[n]];
    }
  }

  lemma {:induction false} ClosedRows(rows: seq<AuditEvent>) returns (i: nat)
    requires PhaseOf(rows) == Closed
    ensures ClosedShape(rows, i)
  {
    var n := |rows| - 1;
    var init := rows[..n];
    if PhaseOf(init) == Closed {
      i := ClosedRows(init);
      assert init[..i] == rows[..i];
      assert rows[i + 2..] == init[i + 2..] + [rows[n]];
    } else {
      i := n - 1;
      assert PhaseOf(init) == Written && PhaseOf(init[..i]) == Open;
      OpenRows(init[..i]);
      assert init[..i] == rows[..i];
    }
  }

  /** In every crash-free run each decision's audit rows are empty, of the open shape, or of
      the closed shape, and which of the three is told by the minted and consumption tables. */
  lemma TrailShape(ops: seq<Op>, settings: Settings, id: string) returns (i: nat)
    ensures var log := Run(ops, settings).Log();
      if id in log.consumptions then ClosedShape(log.Trail(id), i)
      else if id in log.decisions then OpenShape(log.Trail(id))
      else log.Trail(id) == []
  {
    EveryRun(ops, settings, id);
    var log := Run(ops, settings).Log();
    i := 0;
    if id in log.consumptions {
      i := ClosedRows(log.Trail(id));
    } else if id in log.decisions {
      OpenRows(log.Trail(id));
    } else if log.Trail(id) != [] {
      NeverBackToUnborn(log.Trail(id));
    }
  }

  lemma NeverBackToUnborn(rows: seq<AuditEvent>)
    requires rows != []
    ensures PhaseOf(rows) != Unborn
  {
  }

  /** Graph writes, consumption rows and the two kinds of audit rows are equally many. */
  lemma {:induction false} CountsAgree(ops: seq<Op>, settings: Settings)
    ensures Balanced(Run(ops, settings))
  {
    EveryRun(ops, settings, "");
  }

  /** The audit trail recovers the graph: a decision's trail says it was mutated exactly when
      the graph holds a write for it, and then names the node of its only write. */
  lemma {:induction false} TrailRecoversTheWrite(ops: seq<Op>, settings: Settings, id: string)
    ensures var s := Run(ops, settings);
      var trail := TrailOf(s.Log(), id);
      var writes := WritesOf(s.world.graph, id);
      && (trail.WasMutated() <==> writes != [])
      && (trail.MutationNode().Some? <==> writes != [])
      && |writes| <= 1
      && (writes != [] ==> trail.MutationNode() == Some(writes[0].node.value) && writes[0].node in s.world.graph.nodes)
  {
    EveryRun(ops, settings, id);
    var i := TrailShape(ops, settings, id);
    var log := Run(ops, settings).Log();
    if id in log.consumptions {
      assert log.Trail(id)[i] in log.Trail(id);
    }
  }

  // ------------------------------------------------------------------ authority of published files

  /** Files move only in calls that authorisation let through. */
  lemma FilesNeedAuthorization(s: Pub.Shelf, call: Calls.PublishCall, ttl: int, maxAttempts: nat)
    requires Calls.ApplyCall(s, call, ttl, maxAttempts).0.files != s.files
    ensures Pub.AuthorizePublication(s.log, call.request, call.now, call.linkedAt, ttl).1.Ok?
  {
  }

  /** What authorisation for an issued decision says about the request. */
  lemma AuthorizedFor(log: Log, r: Pub.PublishRequest, now: int, failedAt: int, ttl: int)
    requires Pub.AuthorizePublication(log, r, now, failedAt, ttl).1.Ok?
    ensures r.decision.Some? && r.decision.value.approved
    ensures var d := r.decision.value;
      && d.repository == r.repository && d.targetFingerprint == UpsertFingerprint(r.repository, r.adr)
      && d.decisionId in log.consumptions
      && (d.decisionId in log.decisions ==> now <= log.decisions[d.decisionId].ExpiresAt())
  {
  }

  /** In every run, a publication that changes the files presents a decision that was issued
      for its repository and target, is in time, is consumed in the log, and has exactly one
      graph write. */
  lemma {:induction false} FilesNeedAuthority(ops: seq<Op>, settings: Settings, op: Op)
    requires op.Publish?
    ensures var s := Run(ops, settings); var r := op.call.request;
      Apply(s, op, settings).shelf.files != s.shelf.files ==>
        && r.decision.Some? && r.decision.value in s.issued
        && var d := r.decision.value;
        && d.repository == r.repository && d.targetFingerprint == UpsertFingerprint(r.repository, r.adr)
        && d.decisionId in s.Log().decisions && op.call.now <= s.Log().decisions[d.decisionId].ExpiresAt()
        && d.decisionId in s.Log().consumptions
        && |WritesOf(s.world.graph, d.decisionId)| == 1
  {
    var s := Run(ops, settings);
    var call := op.call;
    if Apply(s, op, settings).shelf.files != s.shelf.files {
      FilesNeedAuthorization(s.shelf.(log := s.Log()), call, settings.ttl, settings.maxAttempts);
      AuthorizedFor(s.Log(), call.request, call.now, call.linkedAt, settings.ttl);
      EveryRun(ops, settings, call.request.decision.value.decisionId);
    }
  }

  /** ... and the ADR that is published is the one that was written, node and content hash,
      exactly when its content hash is the decision's; which it is whenever no component of
      the request's target has a bar. */
  lemma {:induction false} PublishedAdrIsTheWrittenOne(ops: seq<Op>, settings: Settings, op: Op)
    requires op.Publish?
    ensures var s := Run(ops, settings); var r := op.call.request;
      Apply(s, op, settings).shelf.files != s.shelf.files ==>
        && r.decision.Some? && |WritesOf(s.world.graph, r.decision.value.decisionId)| == 1
        && var d, w := r.decision.value, WritesOf(s.world.graph, r.decision.value.decisionId)[0];
        && (w.node == NodeId(r.repository, AdrNodeValue(r.adr)) && w.contentHash == r.adr.contentHash
            <==> r.adr.contentHash == d.contentHash)
        && (Upsert(r.repository.Key(), r.adr.adrId, r.adr.contentHash).PipeFree() ==> r.adr.contentHash == d.contentHash)
  {
    var s := Run(ops, settings);
    var r := op.call.request;
    if Apply(s, op, settings).shelf.files != s.shelf.files {
      FilesNeedAuthority(ops, settings, op);
      var d := r.decision.value;
      EveryRun(ops, settings, d.decisionId);
      var e, adrId :| e in s.issued && e.decisionId == d.decisionId && WroteAsIssued(WritesOf(s.world.graph, d.decisionId)[0], e, adrId);
      assert e == d;
      SameTarget(r.repository.Key(), adrId, d.contentHash, r.adr.adrId, r.adr.contentHash);
    }
  }

  lemma SameTarget(key: string, adrId: string, hash: string, otherId: string, otherHash: string)
    requires Upsert(key, adrId, hash).Fingerprint() == Upsert(key, otherId, otherHash).Fingerprint()
    ensures hash == otherHash ==> adrId == otherId
    ensures Upsert(key, otherId, otherHash).PipeFree() ==> hash == otherHash
  {
    if hash == otherHash {
      UpsertDeterminesAdr(key, hash, adrId, otherId);
    }
    UnambiguousIffPipeFree(Upsert(key, otherId, otherHash));
  }
}
