/** The approval-bound write path: the inner service with its in-process one-shot set
    (core/graph/approval_bound_mutation.py) under the durable service
    (approval/mutation_service.py). */
module Mutation {
  import opened Prelude
  import opened Domain
  import opened InsertOnce
  import opened Fingerprints
  import opened Approval

  // ------------------------------------------------------------------ the graph store

  datatype Write = Write(decisionId: string, node: NodeId, contentHash: string)

  /** The store as an upsert map, with the history of its writes. */
  datatype Graph = Graph(nodes: map<NodeId, ADRRecord>, writes: seq<Write>)

  function Upserted(g: Graph, repository: Repository, adr: ADRRecord, decisionId: string): Graph {
    var node := NodeId(repository, AdrNodeValue(adr));
    Graph(g.nodes[node := adr], g.writes + [Write(decisionId, node, adr.contentHash)])
  }

  class GraphStore {
    var nodes: map<NodeId, ADRRecord>
    ghost var writes: seq<Write>

    ghost function State(): Graph
      reads this
    {
      Graph(nodes, writes)
    }

    constructor ()
      ensures State() == Graph(map[], [])
    {
      nodes, writes := map[], [];
    }

    /** `raises` tells whether committing raises after the node has landed. */
    method UpsertAdrNode(repository: Repository, adr: ADRRecord, decision: Decision, raises: bool) returns (r: Result<NodeId, Error>)
      modifies this
      ensures adr.repository != repository ==> r == Err(WriteScopeMismatch) && State() == old(State())
      ensures adr.repository == repository ==>
                r == (if raises then Err(StoreFailure) else Ok(NodeId(repository, AdrNodeValue(adr)))) &&
                State() == Upserted(old(State()), repository, adr, decision.decisionId)
    {
      if adr.repository != repository {
        return Err(WriteScopeMismatch);
      }
      var node := NodeId(repository, AdrNodeValue(adr));
      nodes := nodes[node := adr];
      writes := writes + [Write(decision.decisionId, node, adr.contentHash)];
      if raises {
        return Err(StoreFailure);
      }
      return Ok(node);
    }
  }

  // ------------------------------------------------------------------ the inner service

  function InnerValidate(consumed: set<string>, repository: Repository, decision: Option<Decision>,
                         expected: string, contentHash: Option<string>): Result<Decision, Error>
  {
    if decision.None? || !decision.value.approved then Err(InnerNotApproved)
    else
      var d := decision.value;
      if d.repository != repository then Err(InnerRepositoryMismatch)
      else if contentHash.Some? && d.contentHash != contentHash.value then Err(InnerContentMismatch)
      else if d.targetFingerprint != expected then Err(InnerTargetMismatch)
      else if d.decisionId in consumed then Err(InnerAlreadyConsumed)
      else Ok(d)
  }

  /** Checks, write, mark. A store that raises after the node has landed skips the mark. */
  function InnerUpsertWith(g: Graph, consumed: set<string>, repository: Repository, adr: ADRRecord,
                           decision: Option<Decision>, raises: bool): (Graph, set<string>, Result<NodeId, Error>)
  {
    match InnerValidate(consumed, repository, decision, UpsertFingerprint(repository, adr), Some(adr.contentHash))
    case Err(e) => (g, consumed, Err(e))
    case Ok(d) =>
      if adr.repository != repository then (g, consumed, Err(WriteScopeMismatch))
      else if raises then (Upserted(g, repository, adr, d.decisionId), consumed, Err(StoreFailure))
      else (Upserted(g, repository, adr, d.decisionId), consumed + {d.decisionId},
            Ok(NodeId(repository, AdrNodeValue(adr))))
  }

  function InnerUpsert(g: Graph, consumed: set<string>, repository: Repository, adr: ADRRecord,
                       decision: Option<Decision>): (Graph, set<string>, Result<NodeId, Error>)
  {
    InnerUpsertWith(g, consumed, repository, adr, decision, false)
  }

  class ApprovalBoundMutationService {
    const store: GraphStore
    var consumed: set<string>

    constructor (store: GraphStore)
      ensures this.store == store && consumed == {}
    {
      this.store := store;
      consumed := {};
    }

    method UpsertAdrNode(repository: Repository, adr: ADRRecord, decision: Option<Decision>, raises: bool) returns (r: Result<NodeId, Error>)
      modifies this, store
      ensures (store.State(), consumed, r) == InnerUpsertWith(old(store.State()), old(consumed), repository, adr, decision, raises)
    {
      var valid := InnerValidate(consumed, repository, decision, UpsertFingerprint(repository, adr), Some(adr.contentHash));
      if valid.Err? {
        return Err(valid.error);
      }
      r := store.UpsertAdrNode(repository, adr, valid.value, raises);
      if r.Ok? {
        consumed := consumed + {valid.value.decisionId};
      }
    }
  }

  // ------------------------------------------------------------------ the durable service

  /** One service process and the durable state behind it. */
  datatype World = World(log: Log, graph: Graph, consumed: set<string>)

  datatype Authorized = Authorized(decisionId: string, node: NodeId, replay: bool)

  function CurrentContent(adr: ADRRecord): Option<string> {
    if adr.markdown == "" then None else Some(adr.markdown)
  }

  function ConsumptionRow(d: Decision, repository: Repository, expected: string, node: NodeId, at: int): Consumption {
    Row(d.decisionId, expected, ConsumptionBody(repository.Key(), node.value, at))
  }

  function MutationRow(d: Decision, repository: Repository, expected: string, node: NodeId, at: int): AuditEvent {
    AuditEvent(MutationPerformed, repository.Key(), at, Some(d.decisionId), Some(d.reviewerId), expected, "node:" + node.value)
  }

  function ConsumedRow(d: Decision, repository: Repository, expected: string, at: int): AuditEvent {
    AuditEvent(ConsumptionRecorded, repository.Key(), at, Some(d.decisionId), Some(d.reviewerId), expected, "upsert_adr_node")
  }

  /** The gate before validation: what an earlier consumption of this decision means. */
  function Gate(log: Log, repository: Repository, decision: Option<Decision>, expected: string): Option<Result<Authorized, Error>> {
    if decision.None? || !decision.value.approved || decision.value.decisionId !in log.consumptions then None
    else
      var prior := log.consumptions[decision.value.decisionId];
      if prior.fingerprint == expected
      then Some(Ok(Authorized(decision.value.decisionId, NodeId(repository, prior.body.nodeId), true)))
      else Some(Err(AlreadyConsumed))
  }

  /** The last part: record the consumption, then the two audit rows. */
  function RecordResult(w: World, d: Decision, repository: Repository, expected: string, node: NodeId, at: int)
    : (World, Result<Authorized, Error>)
  {
    var (table, outcome) := Put(w.log.consumptions, ConsumptionRow(d, repository, expected, node, at));
    var recorded := w.log.(consumptions := table);
    match outcome
    case Inserted(_) =>
      (w.(log := recorded.Append(MutationRow(d, repository, expected, node, at)).Append(ConsumedRow(d, repository, expected, at))),
       Ok(Authorized(d.decisionId, node, false)))
    case Existing(row) => (w.(log := recorded), Ok(Authorized(d.decisionId, NodeId(repository, row.body.nodeId), true)))
    case Conflict => (w.(log := recorded), Err(AlreadyConsumed))
    case Vanished => (w.(log := recorded), Err(AuditDurability))
  }

  /** The part behind the gate: validate, write, record. */
  function AuthorizeUngated(w: World, repository: Repository, adr: ADRRecord, decision: Option<Decision>,
                            checkedAt: int, recordedAt: int, ttl: int, raises: bool): (World, Result<Authorized, Error>)
  {
    var expected := UpsertFingerprint(repository, adr);
    var (log, valid) := ValidateForMutation(w.log, decision, repository, expected, CurrentContent(adr), checkedAt, recordedAt, ttl);
    match valid
    case Err(e) => (w.(log := log), Err(e))
    case Ok(d) =>
      var (graph, consumed, written) := InnerUpsertWith(w.graph, w.consumed, repository, adr, Some(d), raises);
      match written
      case Err(e) => (World(log, graph, consumed), Err(e))
      case Ok(node) => RecordResult(World(log, graph, consumed), d, repository, expected, node, recordedAt)
  }

  /** `authorize_and_upsert`, run to its end without interference. `checkedAt` is the clock
      reading of the expiry check, `recordedAt` the later one that stamps the rows. */
  function AuthorizeWith(w: World, repository: Repository, adr: ADRRecord, decision: Option<Decision>,
                         checkedAt: int, recordedAt: int, ttl: int, raises: bool): (World, Result<Authorized, Error>)
  {
    match Gate(w.log, repository, decision, UpsertFingerprint(repository, adr))
    case Some(answer) => (w, answer)
    case None => AuthorizeUngated(w, repository, adr, decision, checkedAt, recordedAt, ttl, raises)
  }

  /** ... and with a store that does not raise. */
  function Authorize(w: World, repository: Repository, adr: ADRRecord, decision: Option<Decision>,
                     checkedAt: int, recordedAt: int, ttl: int): (World, Result<Authorized, Error>)
  {
    AuthorizeWith(w, repository, adr, decision, checkedAt, recordedAt, ttl, false)
  }

  class DurableMutationService {
    const core: ApprovalBoundMutationService
    const audit: AuditRepository
    const ttl: int

    ghost function State(): World
      reads this, core, core.store, audit
    {
      World(audit.State(), core.store.State(), core.consumed)
    }

    constructor (store: GraphStore, audit: AuditRepository, ttl: int)
      ensures this.audit == audit && this.ttl == ttl && fresh(core) && core.store == store && core.consumed == {}
    {
      core := new ApprovalBoundMutationService(store);
      this.audit := audit;
      this.ttl := ttl;
    }

    method AuthorizeAndUpsert(repository: Repository, adr: ADRRecord, decision: Option<Decision>, checkedAt: int, recordedAt: int, raises: bool)
      returns (r: Result<Authorized, Error>)
      modifies core, core.store, audit
      ensures (State(), r) == AuthorizeWith(old(State()), repository, adr, decision, checkedAt, recordedAt, ttl, raises)
    {
      var expected := UpsertFingerprint(repository, adr);
      if decision.Some? && decision.value.approved {
        var prior := audit.State().GetConsumption(decision.value.decisionId);
        if prior.Some? {
          if prior.value.fingerprint == expected {
            return Ok(Authorized(decision.value.decisionId, NodeId(repository, prior.value.body.nodeId), true));
          }
          return Err(AlreadyConsumed);
        }
      }
      var valid := RunValidation(audit, decision, repository, expected, CurrentContent(adr), checkedAt, recordedAt, ttl);
      if valid.Err? {
        return Err(valid.error);
      }
      var d := valid.value;
      var written := core.UpsertAdrNode(repository, adr, Some(d), raises);
      if written.Err? {
        return Err(written.error);
      }
      var node := written.value;
      var stored := audit.RecordConsumption(ConsumptionRow(d, repository, expected, node, recordedAt));
      match stored
      case Conflict => return Err(AlreadyConsumed);
      case Vanished => return Err(AuditDurability);
      case Existing(row) => return Ok(Authorized(d.decisionId, NodeId(repository, row.body.nodeId), true));
      case Inserted(_) =>
        audit.RecordAuditEvent(MutationRow(d, repository, expected, node, recordedAt));
        audit.RecordAuditEvent(ConsumedRow(d, repository, expected, recordedAt));
        return Ok(Authorized(d.decisionId, node, false));
    }
  }
}
