/** The mutation path as small steps: any number of service instances, each running one call
    at a time, over one durable log and one graph. Calls interleave between any two statements
    that touch shared state; an instance may crash (losing its call and its in-process one-shot
    set) or meet a store failure at any statement, also one the graph store raises after the
    node has landed. */
module MutationProtocol {
  import opened Prelude
  import opened Hashing
  import opened Domain
  import opened InsertOnce
  import opened Fingerprints
  import opened Approval
  import opened Mutation

  datatype Request = Request(repository: Repository, adr: ADRRecord, decision: Option<Decision>) {
    function Expected(): string {
      UpsertFingerprint(repository, adr)
    }

    function Node(): NodeId {
      NodeId(repository, AdrNodeValue(adr))
    }
  }

  /** What an instance does next in `authorize_and_upsert`. */
  datatype Pc =
    | Gating
    | Loading
    | Validating(minted: Option<Minted>)
    | Rejecting(error: Error)
    | InnerChecking(checkedAt: int)
    | Writing(checkedAt: int)
    | Marking(write: nat)
    | Selecting(row: Consumption)
    | Inserting(row: Consumption)
    | Reselecting(row: Consumption)
    | AuditingMutation(row: Consumption)
    | AuditingConsumption(row: Consumption)

  datatype Call = Call(request: Request, pc: Pc)

  /** One service process; `epoch` counts its restarts. */
  datatype Instance = Instance(epoch: nat, consumed: set<string>, call: Option<Call>)

  /** History: a graph write, who made it and the clock reading that validated it. */
  datatype WriteEvent = WriteEvent(instance: nat, epoch: nat, request: Request, checkedAt: int) {
    ghost predicate ByDecision(id: string) {
      request.decision.Some? && request.decision.value.decisionId == id
    }
  }

  /** History: how a call ended. */
  datatype Reply = Reply(request: Request, result: Result<Authorized, Error>) {
    ghost predicate Fresh(id: string) {
      result.Ok? && !result.value.replay && result.value.decisionId == id
    }

    ghost function Id(): string {
      if result.Ok? then result.value.decisionId else ""
    }
  }

  /** `minted` holds the decisions whose record is durable, `issued` those handed out. `lost`
      holds the positions in `writes` of the writes whose store call raised after landing. */
  datatype System = System(
    ttl: int,
    clock: int,
    log: Log,
    nodes: map<NodeId, ADRRecord>,
    minted: map<string, Decision>,
    issued: map<string, Decision>,
    instances: map<nat, Instance>,
    writes: seq<WriteEvent>,
    lost: set<nat>,
    replies: seq<Reply>)
  {
    function At(i: nat): Instance {
      if i in instances then instances[i] else Instance(0, {}, None)
    }

    function With(i: nat, inst: Instance): System {
      this.(instances := instances[i := inst])
    }

    function Goto(i: nat, r: Request, pc: Pc): System {
      With(i, At(i).(call := Some(Call(r, pc))))
    }

    function Return(i: nat, r: Request, result: Result<Authorized, Error>): System {
      With(i, At(i).(call := None)).(replies := replies + [Reply(r, result)])
    }
  }

  datatype Step =
    | Tick(elapsed: nat)
    | RecordMint(command: ReviewCommand, context: ReviewContext, target: Option<string>, ttl: int, reviewEventId: string, decisionId: string)
    | IssueMint(decisionId: string, action: ReviewAction)
    | Start(instance: nat, request: Request)
    | Go(instance: nat)
    | Fail(instance: nat)
    | Crash(instance: nat)

  /** `ttl` is the lifetime the services are configured with. */
  function Init(ttl: int): System {
    System(ttl, 0, EMPTY_LOG, map[], map[], map[], map[], [], {}, [])
  }

  /** Callers hold capabilities they were issued; they may also present none, or an
      unapproved one of any shape. */
  ghost predicate Presentable(s: System, r: Request) {
    r.decision.Some? && r.decision.value.approved ==>
      r.decision.value.decisionId in s.issued && s.issued[r.decision.value.decisionId] == r.decision.value
  }

  function Advance(s: System, i: nat, r: Request, pc: Pc): System {
    var inst := s.At(i);
    match pc
    case Gating =>
      (match Gate(s.log, r.repository, r.decision, r.Expected())
       case Some(answer) => s.Return(i, r, answer)
       case None => s.Goto(i, r, Loading))
    case Loading =>
      s.Goto(i, r, Validating(if r.decision.Some? then s.log.GetMinted(r.decision.value.decisionId) else None))
    case Validating(minted) =>
      (match Validate(r.decision, r.repository, r.Expected(), CurrentContent(r.adr), s.clock, s.ttl, minted)
       case Ok(_) => s.Goto(i, r, InnerChecking(s.clock))
       case Err(e) => s.Goto(i, r, Rejecting(e)))
    case Rejecting(e) =>
      s.(log := s.log.Append(FailureRow(r.decision, r.repository, r.Expected(), s.clock, e))).Return(i, r, Err(e))
    case InnerChecking(t) =>
      (match InnerValidate(inst.consumed, r.repository, r.decision, r.Expected(), Some(r.adr.contentHash))
       case Ok(_) => s.Goto(i, r, Writing(t))
       case Err(e) => s.Return(i, r, Err(e)))
    case Writing(t) =>
      if r.adr.repository != r.repository then s.Return(i, r, Err(WriteScopeMismatch))
      else s.(nodes := s.nodes[r.Node() := r.adr], writes := s.writes + [WriteEvent(i, inst.epoch, r, t)]).Goto(i, r, Marking(|s.writes|))
    case Marking(_) =>
      if r.decision.None? then s
      else
        var d := r.decision.value;
        s.With(i, inst.(consumed := inst.consumed + {d.decisionId},
                        call := Some(Call(r, Pc.Selecting(ConsumptionRow(d, r.repository, r.Expected(), r.Node(), s.clock))))))
    case Selecting(row) =>
      if row.key in s.log.consumptions then Settle(s, i, r, row) else s.Goto(i, r, Pc.Inserting(row))
    case Inserting(row) =>
      if row.key in s.log.consumptions then s.Goto(i, r, Pc.Reselecting(row))
      else s.(log := s.log.(consumptions := s.log.consumptions[row.key := row])).Goto(i, r, AuditingMutation(row))
    case Reselecting(row) =>
      if row.key in s.log.consumptions then Settle(s, i, r, row) else s.Return(i, r, Err(AuditDurability))
    case AuditingMutation(row) =>
      if r.decision.None? then s
      else s.(log := s.log.Append(MutationRow(r.decision.value, r.repository, r.Expected(), r.Node(), row.body.consumedAt)))
           .Goto(i, r, AuditingConsumption(row))
    case AuditingConsumption(row) =>
      if r.decision.None? then s
      else s.(log := s.log.Append(ConsumedRow(r.decision.value, r.repository, r.Expected(), row.body.consumedAt)))
           .Return(i, r, Ok(Authorized(r.decision.value.decisionId, r.Node(), false)))
  }

  /** An earlier consumption was found: reconcile against it. */
  function Settle(s: System, i: nat, r: Request, row: Consumption): System
    requires row.key in s.log.consumptions
  {
    match Reconcile(s.log.consumptions[row.key], row)
    case Existing(prior) => s.Return(i, r, Ok(Authorized(row.key, NodeId(r.repository, prior.body.nodeId), true)))
    case _ => s.Return(i, r, Err(AlreadyConsumed))
  }

  /** A store failure ends the call. One raised by the graph write after the node has landed
      skips the in-process mark. */
  function Raise(s: System, i: nat, r: Request, pc: Pc): System {
    match pc
    case Marking(k) => s.(lost := s.lost + {k}).Return(i, r, Err(StoreFailure))
    case Writing(_) => s.Return(i, r, Err(StoreFailure))
    case _ => s.Return(i, r, Err(AuditDurability))
  }

  /** A step that is not enabled changes nothing. */
  ghost function Apply(s: System, step: Step): System {
    match step
    case Tick(elapsed) => s.(clock := s.clock + elapsed)
    case RecordMint(command, context, target, ttl, eventId, id) =>
      if !command.action.AuthorizesMutation() || id in s.log.decisions then s
      else
        var d := NewDecision(command, context, target, s.clock, id);
        s.(log := s.log.(decisions := s.log.decisions[id := MintedFor(d, context, eventId, ttl)]), minted := s.minted[id := d])
    case IssueMint(id, action) =>
      if id !in s.minted || id in s.issued then s
      else s.(log := s.log.Append(MintedRow(s.minted[id], action)), issued := s.issued[id := s.minted[id]])
    case Start(i, r) => if s.At(i).call.Some? || !Presentable(s, r) then s else s.Goto(i, r, Gating)
    case Go(i) =>
      (match s.At(i).call
       case None => s
       case Some(c) => Advance(s, i, c.request, c.pc))
    case Fail(i) =>
      (match s.At(i).call
       case None => s
       case Some(c) => Raise(s, i, c.request, c.pc))
    case Crash(i) => s.With(i, Instance(s.At(i).epoch + 1, {}, None))
  }

  ghost function Run(ttl: int, steps: seq<Step>): System {
    if steps == [] then Init(ttl) else Apply(Run(ttl, steps[..|steps| - 1]), steps[|steps| - 1])
  }

  // ------------------------------------------------------------------ the invariant

  /** The request carries the issued decision, for its repository, target and content. */
  ghost predicate Entitled(s: System, r: Request) {
    && r.decision.Some?
    && var d := r.decision.value;
    && d.approved
    && d.decisionId in s.issued && s.issued[d.decisionId] == d
    && d.repository == r.repository
    && d.targetFingerprint == r.Expected()
    && (r.adr.markdown == "" || CanonicalHash(r.adr.markdown) == d.contentHash)
  }

  /** ... and the clock reading `t` was not past the expiry of the minted record. */
  ghost predicate InTime(s: System, r: Request, t: int) {
    && r.decision.Some?
    && r.decision.value.decisionId in s.log.decisions
    && t <= s.log.decisions[r.decision.value.decisionId].ExpiresAt()
    && t <= s.clock
  }

  ghost predicate SameContent(r: Request) {
    r.decision.Some? && r.decision.value.contentHash == r.adr.contentHash && r.adr.repository == r.repository
  }

  ghost predicate Landed(s: System, r: Request) {
    Entitled(s, r) && SameContent(r) && r.Node() in s.nodes
  }

  ghost predicate RowFor(r: Request, row: Consumption) {
    && r.decision.Some?
    && row.key == r.decision.value.decisionId
    && row.fingerprint == r.Expected()
    && row.body.nodeId == r.Node().value
  }

  ghost predicate Stored(s: System, row: Consumption) {
    row.key in s.log.consumptions && s.log.consumptions[row.key] == row
  }

  ghost predicate CallOk(s: System, inst: Instance) {
    inst.call.Some? ==>
      var r := inst.call.value.request;
      && Presentable(s, r)
      && match inst.call.value.pc
         case Gating => true
         case Loading => true
         case Rejecting(e) => e != AlreadyConsumed
         case Validating(m) =>
           r.decision.Some? && r.decision.value.approved ==> m == s.log.GetMinted(r.decision.value.decisionId)
         case InnerChecking(t) => Entitled(s, r) && InTime(s, r, t)
         case Writing(t) =>
           && Entitled(s, r) && InTime(s, r, t)
           && r.decision.value.contentHash == r.adr.contentHash
           && r.decision.value.decisionId !in inst.consumed
         case Marking(_) => Landed(s, r)
         case Selecting(row) => Landed(s, r) && RowFor(r, row)
         case Inserting(row) => Landed(s, r) && RowFor(r, row)
         case Reselecting(row) => Landed(s, r) && RowFor(r, row) && row.key in s.log.consumptions
         case AuditingMutation(row) => Landed(s, r) && RowFor(r, row) && Stored(s, row)
         case AuditingConsumption(row) => Landed(s, r) && RowFor(r, row) && Stored(s, row)
  }

  ghost predicate CallsOk(s: System) {
    forall i: nat :: CallOk(s, s.At(i))
  }

  ghost predicate MintsOk(s: System) {
    && (forall id :: id in s.minted ==>
          && id in s.log.decisions
          && s.minted[id].decisionId == id
          && s.minted[id].approved
          && s.log.decisions[id].contentHash == s.minted[id].contentHash
          && s.log.decisions[id].targetFingerprint == s.minted[id].targetFingerprint
          && s.log.decisions[id].mintedAt == s.minted[id].mintedAt)
    && (forall id :: id in s.issued ==> id in s.minted && s.minted[id] == s.issued[id])
  }

  ghost predicate ConsumptionOk(s: System, id: string)
    requires id in s.log.consumptions
  {
    var row := s.log.consumptions[id];
    && row.key == id
    && id in s.issued
    && row.fingerprint == s.issued[id].targetFingerprint
    && NodeId(s.issued[id].repository, row.body.nodeId) in s.nodes
  }

  ghost predicate ConsumptionsOk(s: System) {
    forall id :: id in s.log.consumptions ==> ConsumptionOk(s, id)
  }

  ghost predicate WriteOk(s: System, w: WriteEvent) {
    Landed(s, w.request) && InTime(s, w.request, w.checkedAt) && w.epoch <= s.At(w.instance).epoch
  }

  ghost predicate WritesOk(s: System) {
    forall w :: w in s.writes ==> WriteOk(s, w)
  }

  ghost predicate SameWriter(v: WriteEvent, w: WriteEvent) {
    && v.instance == w.instance && v.epoch == w.epoch
    && v.request.decision.Some? && w.request.decision.Some?
    && v.request.decision.value.decisionId == w.request.decision.value.decisionId
  }

  /** The write an instance has made and not yet marked. */
  ghost function Unmarked(inst: Instance): Option<nat> {
    if inst.call.Some? && inst.call.value.pc.Marking? then Some(inst.call.value.pc.write) else None
  }

  /** `w` was made in this life of instance `i` under the decision. */
  ghost predicate MadeBy(w: WriteEvent, i: nat, epoch: nat, id: string) {
    w.instance == i && w.epoch == epoch && w.ByDecision(id)
  }

  ghost predicate UnmarkedOk(s: System, i: nat) {
    Unmarked(s.At(i)).Some? ==>
      var k := Unmarked(s.At(i)).value;
      && k < |s.writes| && k !in s.lost
      && s.writes[k].instance == i && s.writes[k].epoch == s.At(i).epoch
      && s.writes[k].request == s.At(i).call.value.request
      && s.writes[k].request.decision.Some?
      && s.writes[k].request.decision.value.decisionId !in s.At(i).consumed
  }

  /** A write of the current life that was not lost is marked, or about to be. */
  ghost predicate Remembered(s: System, k: nat)
    requires k < |s.writes|
  {
    var w := s.writes[k];
    w.request.decision.Some? &&
    (k !in s.lost && w.epoch == s.At(w.instance).epoch ==>
       w.request.decision.value.decisionId in s.At(w.instance).consumed || Unmarked(s.At(w.instance)) == Some(k))
  }

  /** ... and nothing else is marked. */
  ghost predicate MarkedFor(s: System, i: nat, id: string) {
    exists k :: 0 <= k < |s.writes| && k !in s.lost && MadeBy(s.writes[k], i, s.At(i).epoch, id)
  }

  /** Within one life of an instance all writes under a decision but the last were lost. */
  ghost predicate WritesOnce(s: System) {
    && (forall k :: k in s.lost ==> k < |s.writes|)
    && (forall i: nat :: UnmarkedOk(s, i))
    && (forall k: nat :: k < |s.writes| ==> Remembered(s, k))
    && (forall i: nat, id :: id in s.At(i).consumed ==> MarkedFor(s, i, id))
    && (forall k, l :: 0 <= k < l < |s.writes| && SameWriter(s.writes[k], s.writes[l]) ==> k in s.lost)
  }

  /** The instance inserted the consumption of `id` and has not answered yet. */
  ghost predicate Holds(inst: Instance, id: string) {
    inst.call.Some? && (inst.call.value.pc.AuditingMutation? || inst.call.value.pc.AuditingConsumption?)
    && inst.call.value.pc.row.key == id
  }

  /** At most one call inserts a consumption, and only that call answers as fresh. */
  ghost predicate OneWinner(s: System) {
    && (forall i: nat, j: nat, id :: Holds(s.At(i), id) && Holds(s.At(j), id) ==> i == j)
    && (forall i: nat, k, id :: 0 <= k < |s.replies| && s.replies[k].Fresh(id) ==> !Holds(s.At(i), id))
    && (forall k, l, id :: 0 <= k < l < |s.replies| && s.replies[k].Fresh(id) ==> !s.replies[l].Fresh(id))
    && (forall k, id :: 0 <= k < |s.replies| && s.replies[k].Fresh(id) ==> id in s.log.consumptions)
  }

  ghost predicate ReplyOk(s: System, p: Reply) {
    p.result.Ok? ==>
      var a := p.result.value;
      && a.decisionId in s.log.consumptions
      && a.decisionId in s.issued
      && p.request.decision == Some(s.issued[a.decisionId])
      && a.node == NodeId(p.request.repository, s.log.consumptions[a.decisionId].body.nodeId)
      && p.request.Expected() == s.log.consumptions[a.decisionId].fingerprint
      && (!a.replay ==> p.request.repository == s.issued[a.decisionId].repository)
  }

  /** A call refused as consumed met a consumption for another target. */
  ghost predicate RefusalOk(s: System, p: Reply) {
    p.result == Err(AlreadyConsumed) ==>
      && p.request.decision.Some? && p.request.decision.value.decisionId in s.log.consumptions
      && p.request.Expected() != s.log.consumptions[p.request.decision.value.decisionId].fingerprint
  }

  ghost predicate RepliesOk(s: System) {
    forall p :: p in s.replies ==> ReplyOk(s, p)
  }

  ghost predicate RowOf(e: AuditEvent, kind: EventType, id: string) {
    e.eventType == kind && e.decisionId == Some(id)
  }

  /** Every consumption leaves at most one row of each kind. */
  ghost predicate AuditOnce(s: System) {
    && (forall p, id :: 0 <= p < |s.log.audit| && RowOf(s.log.audit[p], MutationPerformed, id) ==> id in s.log.consumptions)
    && (forall p, id :: 0 <= p < |s.log.audit| && RowOf(s.log.audit[p], ConsumptionRecorded, id) ==> id in s.log.consumptions)
    && (forall p, id, i: nat :: 0 <= p < |s.log.audit| && RowOf(s.log.audit[p], MutationPerformed, id) && Holds(s.At(i), id) ==>
          s.At(i).call.value.pc.AuditingConsumption?)
    && (forall p, id, i: nat :: 0 <= p < |s.log.audit| && RowOf(s.log.audit[p], ConsumptionRecorded, id) ==> !Holds(s.At(i), id))
    && (forall p, q, id :: 0 <= p < q < |s.log.audit| && RowOf(s.log.audit[p], MutationPerformed, id) ==>
          !RowOf(s.log.audit[q], MutationPerformed, id))
    && (forall p, q, id :: 0 <= p < q < |s.log.audit| && RowOf(s.log.audit[p], ConsumptionRecorded, id) ==>
          !RowOf(s.log.audit[q], ConsumptionRecorded, id))
  }

  ghost predicate Inv(s: System) {
    && MintsOk(s) && CallsOk(s) && ConsumptionsOk(s) && WritesOk(s)
    && WritesOnce(s) && OneWinner(s) && RepliesOk(s) && AuditOnce(s)
  }

  // ------------------------------------------------------------------ what only grows

  ghost predicate Grows(s: System, t: System) {
    && s.clock <= t.clock
    && (forall id :: id in s.issued ==> id in t.issued && t.issued[id] == s.issued[id])
    && (forall id :: id in s.log.decisions ==> id in t.log.decisions && t.log.decisions[id] == s.log.decisions[id])
    && (forall id :: id in s.log.consumptions ==> id in t.log.consumptions && t.log.consumptions[id] == s.log.consumptions[id])
    && s.nodes.Keys <= t.nodes.Keys
  }

  lemma CallOkGrows(s: System, t: System, inst: Instance)
    requires Grows(s, t) && MintsOk(s) && CallOk(s, inst)
    ensures CallOk(t, inst)
  {
  }

  lemma RecordsGrow(s: System, t: System)
    requires Grows(s, t)
    ensures ConsumptionsOk(s) ==> forall id :: id in s.log.consumptions ==> ConsumptionOk(t, id)
    ensures RepliesOk(s) ==> forall p :: p in s.replies ==> ReplyOk(t, p)
    ensures forall r :: Landed(s, r) ==> Landed(t, r)
    ensures forall r, c :: InTime(s, r, c) ==> InTime(t, r, c)
  {
  }

  // ------------------------------------------------------------------ every step keeps it

  /** A step of instance `i` leaves the other instances alone. */
  lemma OthersKeep(s: System, t: System, i: nat)
    requires Grows(s, t) && MintsOk(s) && CallsOk(s)
    requires CallOk(t, t.At(i))
    requires forall j: nat :: j != i ==> t.At(j) == s.At(j)
    ensures CallsOk(t)
  {
    forall j: nat ensures CallOk(t, t.At(j)) {
      if j != i {
        CallOkGrows(s, t, s.At(j));
      }
    }
  }

  lemma GotoAt(s: System, i: nat, r: Request, pc: Pc)
    ensures s.Goto(i, r, pc).At(i) == s.At(i).(call := Some(Call(r, pc)))
    ensures forall j: nat :: j != i ==> s.Goto(i, r, pc).At(j) == s.At(j)
  {
  }

  lemma ReturnAt(s: System, i: nat, r: Request, result: Result<Authorized, Error>)
    ensures var t := s.Return(i, r, result);
      && t.At(i) == s.At(i).(call := None)
      && (forall j: nat :: j != i ==> t.At(j) == s.At(j))
      && t.replies == s.replies + [Reply(r, result)]
      && t.log == s.log && t.writes == s.writes && t.lost == s.lost && t.nodes == s.nodes && t.issued == s.issued && t.clock == s.clock && t.minted == s.minted
  {
  }

  // Frames: when the part of the state that a conjunct reads is left alone.

  lemma WritesFrame(s: System, t: System)
    requires Grows(s, t) && WritesOk(s) && t.writes == s.writes
    requires forall j: nat :: s.At(j).epoch <= t.At(j).epoch
    ensures WritesOk(t)
  {
    RecordsGrow(s, t);
  }

  /** An instance goes on in the same life with the same marks, or begins a new one. */
  ghost predicate Remembers(was: Instance, now: Instance) {
    || (now.epoch == was.epoch && now.consumed == was.consumed && Unmarked(now) == Unmarked(was)
        && (Unmarked(now).Some? ==> now.call == was.call))
    || (now.epoch > was.epoch && now.consumed == {} && Unmarked(now).None?)
  }

  lemma WritesOnceFrame(s: System, t: System)
    requires WritesOnce(s) && WritesOk(s) && t.writes == s.writes && t.lost == s.lost
    requires forall j: nat :: Remembers(s.At(j), t.At(j))
    ensures WritesOnce(t)
  {
    forall i: nat ensures UnmarkedOk(t, i) {
      assert UnmarkedOk(s, i) && Remembers(s.At(i), t.At(i));
    }
    forall k: nat | k < |t.writes| ensures Remembered(t, k) {
      var w := s.writes[k];
      assert Remembered(s, k) && WriteOk(s, w) && Remembers(s.At(w.instance), t.At(w.instance));
    }
    forall i: nat, id | id in t.At(i).consumed ensures MarkedFor(t, i, id) {
      assert Remembers(s.At(i), t.At(i));
      assert MarkedFor(s, i, id);
    }
  }

  ghost predicate NoNewHolder(s: System, t: System) {
    forall j: nat, id :: Holds(t.At(j), id) ==> Holds(s.At(j), id)
  }

  ghost predicate NoFreshReply(s: System, t: System) {
    || t.replies == s.replies
    || (|t.replies| == |s.replies| + 1 && t.replies[..|s.replies|] == s.replies
        && forall id :: !t.replies[|s.replies|].Fresh(id))
  }

  lemma OneWinnerFrame(s: System, t: System)
    requires OneWinner(s) && Grows(s, t) && NoNewHolder(s, t) && NoFreshReply(s, t)
    ensures OneWinner(t)
  {
    assert forall k :: 0 <= k < |s.replies| ==> t.replies[k] == s.replies[k];
  }

  lemma RepliesFrame(s: System, t: System)
    requires RepliesOk(s) && Grows(s, t)
    requires t.replies == s.replies || (exists p :: t.replies == s.replies + [p] && ReplyOk(s, p))
    ensures RepliesOk(t)
  {
    RecordsGrow(s, t);
    forall p | p in t.replies ensures ReplyOk(t, p) {
      if p in s.replies {
      } else {
        assert ReplyOk(s, p);
        assert Grows(s, t);
      }
    }
  }

  ghost predicate NoNewRow(s: System, t: System) {
    || t.log.audit == s.log.audit
    || (|t.log.audit| == |s.log.audit| + 1 && t.log.audit[..|s.log.audit|] == s.log.audit
        && forall id :: !RowOf(t.log.audit[|s.log.audit|], MutationPerformed, id) && !RowOf(t.log.audit[|s.log.audit|], ConsumptionRecorded, id))
  }

  lemma AuditFrame(s: System, t: System)
    requires AuditOnce(s) && Grows(s, t) && NoNewHolder(s, t) && NoNewRow(s, t)
    requires forall j: nat, id :: Holds(t.At(j), id) ==> t.At(j) == s.At(j)
    ensures AuditOnce(t)
  {
    assert forall k :: 0 <= k < |s.log.audit| ==> t.log.audit[k] == s.log.audit[k];
  }

  /** Only instance `i` moves; it writes, consumes and wins nothing. */
  ghost predicate Quiet(s: System, t: System, i: nat) {
    && Grows(s, t) && MintsOk(t)
    && t.log.consumptions == s.log.consumptions && t.writes == s.writes && t.lost == s.lost
    && (forall j: nat :: j != i ==> t.At(j) == s.At(j))
    && Remembers(s.At(i), t.At(i))
    && (forall id :: Holds(t.At(i), id) ==> t.At(i) == s.At(i))
    && (t.replies == s.replies || exists p :: t.replies == s.replies + [p] && ReplyOk(s, p) && !p.Fresh(p.Id()))
    && NoNewRow(s, t)
    && CallOk(t, t.At(i))
  }

  lemma QuietFrames(s: System, t: System, i: nat)
    requires Quiet(s, t, i)
    ensures forall j: nat :: Remembers(s.At(j), t.At(j))
    ensures forall j: nat, id :: Holds(t.At(j), id) ==> t.At(j) == s.At(j)
    ensures NoNewHolder(s, t) && NoFreshReply(s, t)
    ensures t.replies == s.replies || (exists p :: t.replies == s.replies + [p] && ReplyOk(s, p))
  {
    forall j: nat ensures Remembers(s.At(j), t.At(j)) {
      if j != i {
        assert t.At(j) == s.At(j);
      }
    }
    forall j: nat, id | Holds(t.At(j), id) ensures t.At(j) == s.At(j) {
    }
  }

  lemma QuietKeeps(s: System, t: System, i: nat)
    requires Inv(s) && Quiet(s, t, i)
    ensures Inv(t)
  {
    QuietFrames(s, t, i);
    OthersKeep(s, t, i);
    ConsumptionsFrame(s, t);
    WritesFrame(s, t);
    WritesOnceFrame(s, t);
    RepliesFrame(s, t);
    OneWinnerFrame(s, t);
    AuditFrame(s, t);
  }

  lemma ConsumptionsFrame(s: System, t: System)
    requires Grows(s, t) && ConsumptionsOk(s) && t.log.consumptions == s.log.consumptions
    ensures ConsumptionsOk(t)
  {
    RecordsGrow(s, t);
  }

  lemma GotoCallOk(s: System, i: nat, r: Request, pc: Pc)
    requires MintsOk(s) && CallOk(s, s.At(i).(call := Some(Call(r, pc))))
    ensures CallOk(s.Goto(i, r, pc), s.Goto(i, r, pc).At(i))
  {
    GotoAt(s, i, r, pc);
    CallOkGrows(s, s.Goto(i, r, pc), s.At(i).(call := Some(Call(r, pc))));
  }

  lemma GotoRemembers(s: System, i: nat, r: Request, pc: Pc)
    requires !pc.AuditingMutation? && !pc.AuditingConsumption? && !pc.Marking?
    requires s.At(i).call.Some? ==> !s.At(i).call.value.pc.Marking?
    ensures Remembers(s.At(i), s.Goto(i, r, pc).At(i))
    ensures forall id :: !Holds(s.Goto(i, r, pc).At(i), id)
  {
    GotoAt(s, i, r, pc);
  }

  lemma GotoSharesAll(s: System, i: nat, r: Request, pc: Pc)
    requires MintsOk(s)
    ensures var t := s.Goto(i, r, pc); Grows(s, t) && MintsOk(t) && NoNewRow(s, t) && t.lost == s.lost
  {
  }

  lemma GotoIsQuiet(s: System, i: nat, r: Request, pc: Pc)
    requires MintsOk(s) && CallOk(s, s.At(i).(call := Some(Call(r, pc))))
    requires !pc.AuditingMutation? && !pc.AuditingConsumption? && !pc.Marking?
    requires s.At(i).call.Some? ==> !s.At(i).call.value.pc.Marking?
    ensures Quiet(s, s.Goto(i, r, pc), i)
  {
    GotoAt(s, i, r, pc);
    GotoSharesAll(s, i, r, pc);
    GotoCallOk(s, i, r, pc);
    GotoRemembers(s, i, r, pc);
    assert s.Goto(i, r, pc).replies == s.replies;
  }

  lemma ReturnIsQuiet(s: System, i: nat, r: Request, result: Result<Authorized, Error>)
    requires MintsOk(s) && ReplyOk(s, Reply(r, result))
    requires result.Ok? ==> result.value.replay
    requires s.At(i).call.Some? ==> !s.At(i).call.value.pc.Marking?
    ensures Quiet(s, s.Return(i, r, result), i)
  {
    var t := s.Return(i, r, result);
    assert t.replies == s.replies + [Reply(r, result)];
  }

  lemma GotoKeeps(s: System, i: nat, r: Request, pc: Pc)
    requires Inv(s)
    requires CallOk(s, s.At(i).(call := Some(Call(r, pc))))
    requires !pc.AuditingMutation? && !pc.AuditingConsumption? && !pc.Marking?
    requires s.At(i).call.Some? ==> !s.At(i).call.value.pc.Marking?
    ensures Inv(s.Goto(i, r, pc))
  {
    GotoIsQuiet(s, i, r, pc);
    QuietKeeps(s, s.Goto(i, r, pc), i);
  }

  lemma ReturnKeeps(s: System, i: nat, r: Request, result: Result<Authorized, Error>)
    requires Inv(s)
    requires ReplyOk(s, Reply(r, result))
    requires result.Ok? ==> result.value.replay
    requires s.At(i).call.Some? ==> !s.At(i).call.value.pc.Marking?
    ensures Inv(s.Return(i, r, result))
  {
    ReturnIsQuiet(s, i, r, result);
    QuietKeeps(s, s.Return(i, r, result), i);
  }

  // The statements that change nothing shared, or only append a failure row.

  ghost predicate Running(s: System, i: nat, r: Request, pc: Pc) {
    s.At(i).call == Some(Call(r, pc))
  }

  lemma GatingKeeps(s: System, i: nat, r: Request)
    requires Inv(s) && Running(s, i, r, Gating)
    ensures Inv(Advance(s, i, r, Gating))
  {
    assert CallOk(s, s.At(i));
    match Gate(s.log, r.repository, r.decision, r.Expected())
    case None => GotoKeeps(s, i, r, Loading);
    case Some(answer) =>
      assert ConsumptionOk(s, r.decision.value.decisionId);
      ReturnKeeps(s, i, r, answer);
  }

  lemma ValidatedCallOk(s: System, i: nat, r: Request, minted: Option<Minted>)
    requires MintsOk(s) && CallOk(s, s.At(i)) && Running(s, i, r, Validating(minted))
    ensures match Validate(r.decision, r.repository, r.Expected(), CurrentContent(r.adr), s.clock, s.ttl, minted)
            case Ok(_) => CallOk(s, s.At(i).(call := Some(Call(r, InnerChecking(s.clock)))))
            case Err(e) => CallOk(s, s.At(i).(call := Some(Call(r, Rejecting(e)))))
  {
  }

  lemma ValidatingKeeps(s: System, i: nat, r: Request, minted: Option<Minted>)
    requires Inv(s) && Running(s, i, r, Validating(minted))
    ensures Inv(Advance(s, i, r, Validating(minted)))
  {
    ValidatedCallOk(s, i, r, minted);
    match Validate(r.decision, r.repository, r.Expected(), CurrentContent(r.adr), s.clock, s.ttl, minted)
    case Ok(_) => GotoKeeps(s, i, r, InnerChecking(s.clock));
    case Err(e) => GotoKeeps(s, i, r, Rejecting(e));
  }

  lemma FailureRowIsNone(r: Request, at: int, e: Error, id: string)
    ensures var row := FailureRow(r.decision, r.repository, r.Expected(), at, e);
      !RowOf(row, MutationPerformed, id) && !RowOf(row, ConsumptionRecorded, id)
  {
  }

  lemma RejectingIsQuiet(s: System, i: nat, r: Request, e: Error)
    requires MintsOk(s) && Running(s, i, r, Rejecting(e))
    ensures Quiet(s, Advance(s, i, r, Rejecting(e)), i)
  {
    var row := FailureRow(r.decision, r.repository, r.Expected(), s.clock, e);
    var appended := s.(log := s.log.Append(row));
    var t := Advance(s, i, r, Rejecting(e));
    ReturnAt(appended, i, r, Err(e));
    assert t.log.audit == s.log.audit + [row];
    assert NoNewRow(s, t) by {
      forall id ensures !RowOf(row, MutationPerformed, id) && !RowOf(row, ConsumptionRecorded, id) {
        FailureRowIsNone(r, s.clock, e, id);
      }
    }
    assert appended.At(i) == s.At(i) && forall j: nat :: appended.At(j) == s.At(j);
    assert ReplyOk(s, Reply(r, Err(e)));
  }

  lemma RejectingKeeps(s: System, i: nat, r: Request, e: Error)
    requires Inv(s) && Running(s, i, r, Rejecting(e))
    ensures Inv(Advance(s, i, r, Rejecting(e)))
  {
    RejectingIsQuiet(s, i, r, e);
    QuietKeeps(s, Advance(s, i, r, Rejecting(e)), i);
  }

  lemma InnerCheckingKeeps(s: System, i: nat, r: Request, c: int)
    requires Inv(s) && Running(s, i, r, InnerChecking(c))
    ensures Inv(Advance(s, i, r, InnerChecking(c)))
  {
    assert CallOk(s, s.At(i));
    match InnerValidate(s.At(i).consumed, r.repository, r.decision, r.Expected(), Some(r.adr.contentHash))
    case Ok(_) => GotoKeeps(s, i, r, Writing(c));
    case Err(e) => ReturnKeeps(s, i, r, Err(e));
  }

  /** What a settled call answers agrees with the consumption it found. */
  lemma SettledReplyOk(s: System, r: Request, row: Consumption)
    requires ConsumptionsOk(s) && Landed(s, r) && RowFor(r, row) && row.key in s.log.consumptions
    ensures match Reconcile(s.log.consumptions[row.key], row)
            case Existing(prior) => ReplyOk(s, Reply(r, Ok(Authorized(row.key, NodeId(r.repository, prior.body.nodeId), true))))
            case _ => true
  {
    assert ConsumptionOk(s, row.key);
  }

  lemma SettleKeeps(s: System, i: nat, r: Request, row: Consumption)
    requires Inv(s) && s.At(i).call.Some? && s.At(i).call.value.request == r && !s.At(i).call.value.pc.Marking?
    requires Landed(s, r) && RowFor(r, row) && row.key in s.log.consumptions
    ensures Inv(Settle(s, i, r, row))
  {
    SettledReplyOk(s, r, row);
    match Reconcile(s.log.consumptions[row.key], row)
    case Existing(prior) =>
      ReturnKeeps(s, i, r, Ok(Authorized(row.key, NodeId(r.repository, prior.body.nodeId), true)));
    case _ => ReturnKeeps(s, i, r, Err(AlreadyConsumed));
  }

  // The graph write and the one-shot mark behind it.

  lemma WritingMoves(s: System, i: nat, r: Request, c: int)
    requires MintsOk(s) && Running(s, i, r, Writing(c)) && CallOk(s, s.At(i)) && r.adr.repository == r.repository
    ensures var t := Advance(s, i, r, Writing(c)); var w := WriteEvent(i, s.At(i).epoch, r, c);
      && Grows(s, t) && MintsOk(t) && CallOk(t, t.At(i)) && WriteOk(t, w)
      && t.writes == s.writes + [w]
      && t.At(i) == s.At(i).(call := Some(Call(r, Marking(|s.writes|))))
      && (forall j: nat :: j != i ==> t.At(j) == s.At(j))
      && t.log == s.log && t.replies == s.replies && t.lost == s.lost
  {
  }

  lemma WritingKeeps(s: System, i: nat, r: Request, c: int)
    requires Inv(s) && Running(s, i, r, Writing(c))
    ensures Inv(Advance(s, i, r, Writing(c)))
  {
    assert CallOk(s, s.At(i));
    if r.adr.repository != r.repository {
      ReturnKeeps(s, i, r, Err(WriteScopeMismatch));
    } else {
      var t := Advance(s, i, r, Writing(c));
      WritingMoves(s, i, r, c);
      assert forall id :: !Holds(t.At(i), id);
      OthersKeep(s, t, i);
      ConsumptionsFrame(s, t);
      OneWinnerFrame(s, t);
      RepliesFrame(s, t);
      AuditFrame(s, t);
      WritingWritesOnce(s, t, i, WriteEvent(i, s.At(i).epoch, r, c));
    }
  }

  lemma WritingWritesOnce(s: System, t: System, i: nat, w: WriteEvent)
    requires WritesOnce(s) && WritesOk(s) && Grows(s, t)
    requires t.writes == s.writes + [w] && w.instance == i && w.epoch == s.At(i).epoch == t.At(i).epoch
    requires t.lost == s.lost
    requires forall j: nat :: j != i ==> t.At(j) == s.At(j)
    requires t.At(i).consumed == s.At(i).consumed
    requires w.request.decision.Some? && w.request.decision.value.decisionId !in s.At(i).consumed
    requires Unmarked(s.At(i)).None?
    requires Unmarked(t.At(i)) == Some(|s.writes|) && t.At(i).call.value.request == w.request
    requires WriteOk(t, w)
    ensures WritesOnce(t) && WritesOk(t)
  {
    RecordsGrow(s, t);
    forall v | v in t.writes ensures WriteOk(t, v) {
      if v in s.writes {
        assert WriteOk(s, v);
        assert t.At(v.instance).epoch == s.At(v.instance).epoch;
      }
    }
    forall j: nat ensures UnmarkedOk(t, j) {
      assert UnmarkedOk(s, j);
    }
    forall k: nat | k < |t.writes| ensures Remembered(t, k) {
      assert k < |s.writes| ==> Remembered(s, k) && t.writes[k] == s.writes[k];
    }
    forall j: nat, id | id in t.At(j).consumed ensures MarkedFor(t, j, id) {
      assert MarkedFor(s, j, id);
      var k :| 0 <= k < |s.writes| && k !in s.lost && MadeBy(s.writes[k], j, s.At(j).epoch, id);
      assert t.writes[k] == s.writes[k];
    }
    forall k: nat | k < |s.writes| && SameWriter(s.writes[k], w) ensures k in t.lost {
      assert Remembered(s, k);
    }
    forall k, l | 0 <= k < l < |t.writes| && SameWriter(t.writes[k], t.writes[l]) ensures k in t.lost {
      assert t.writes[k] == s.writes[k];
    }
  }

  /** Leaving the statement behind the write: by marking it, or by losing it. */
  ghost predicate Leaves(s: System, t: System, i: nat, k: nat) {
    && Grows(s, t) && MintsOk(t) && CallOk(t, t.At(i))
    && t.log.consumptions == s.log.consumptions && t.log.audit == s.log.audit && t.writes == s.writes
    && (forall j: nat :: j != i ==> t.At(j) == s.At(j))
    && t.At(i).epoch == s.At(i).epoch && Unmarked(t.At(i)).None?
    && (forall id :: !Holds(t.At(i), id))
    && (t.replies == s.replies || exists p :: t.replies == s.replies + [p] && ReplyOk(s, p) && !p.Fresh(p.Id()))
    && k < |s.writes| && s.writes[k].request.decision.Some?
    && ((t.lost == s.lost && t.At(i).consumed == s.At(i).consumed + {s.writes[k].request.decision.value.decisionId})
        || (t.lost == s.lost + {k} && t.At(i).consumed == s.At(i).consumed))
  }

  lemma LeavingKeepsMarks(s: System, t: System, i: nat, k: nat)
    requires WritesOnce(s) && WritesOk(s) && Leaves(s, t, i, k) && Unmarked(s.At(i)) == Some(k)
    ensures WritesOnce(t)
  {
    assert UnmarkedOk(s, i);
    forall j: nat ensures UnmarkedOk(t, j) {
      assert UnmarkedOk(s, j);
    }
    forall l: nat | l < |t.writes| ensures Remembered(t, l) {
      assert Remembered(s, l);
    }
    forall j: nat, id | id in t.At(j).consumed ensures MarkedFor(t, j, id) {
      if j == i && id == s.writes[k].request.decision.value.decisionId {
        assert MadeBy(s.writes[k], i, s.At(i).epoch, id);
      } else {
        assert MarkedFor(s, j, id);
        var l :| 0 <= l < |s.writes| && l !in s.lost && MadeBy(s.writes[l], j, s.At(j).epoch, id);
        assert l != k;
      }
    }
  }

  lemma LeavingKeeps(s: System, t: System, i: nat, k: nat)
    requires Inv(s) && Leaves(s, t, i, k) && Unmarked(s.At(i)) == Some(k)
    ensures Inv(t)
  {
    OthersKeep(s, t, i);
    ConsumptionsFrame(s, t);
    WritesFrame(s, t);
    LeavingKeepsMarks(s, t, i, k);
    RepliesFrame(s, t);
    OneWinnerFrame(s, t);
    AuditFrame(s, t);
  }

  lemma MarkingLeaves(s: System, i: nat, r: Request, k: nat)
    requires MintsOk(s) && Running(s, i, r, Marking(k)) && CallOk(s, s.At(i)) && UnmarkedOk(s, i)
    ensures Leaves(s, Advance(s, i, r, Marking(k)), i, k)
  {
  }

  lemma LosingLeaves(s: System, i: nat, r: Request, k: nat)
    requires MintsOk(s) && Running(s, i, r, Marking(k)) && UnmarkedOk(s, i)
    ensures Leaves(s, Raise(s, i, r, Marking(k)), i, k)
  {
    assert Raise(s, i, r, Marking(k)).replies == s.replies + [Reply(r, Err(StoreFailure))];
  }

  lemma MarkingKeeps(s: System, i: nat, r: Request, k: nat)
    requires Inv(s) && Running(s, i, r, Marking(k))
    ensures Inv(Advance(s, i, r, Marking(k)))
    ensures Inv(Raise(s, i, r, Marking(k)))
  {
    assert CallOk(s, s.At(i)) && UnmarkedOk(s, i);
    MarkingLeaves(s, i, r, k);
    LosingLeaves(s, i, r, k);
    LeavingKeeps(s, Advance(s, i, r, Marking(k)), i, k);
    LeavingKeeps(s, Raise(s, i, r, Marking(k)), i, k);
  }

  // The insert that decides the winner, and its two audit rows.

  lemma InsertingMoves(s: System, i: nat, r: Request, row: Consumption)
    requires MintsOk(s) && ConsumptionsOk(s) && Running(s, i, r, Pc.Inserting(row)) && CallOk(s, s.At(i))
    requires row.key !in s.log.consumptions
    ensures var t := Advance(s, i, r, Pc.Inserting(row));
      && Grows(s, t) && MintsOk(t) && CallOk(t, t.At(i)) && ConsumptionsOk(t)
      && t.At(i) == s.At(i).(call := Some(Call(r, AuditingMutation(row))))
      && (forall j: nat :: j != i ==> t.At(j) == s.At(j))
      && t.writes == s.writes && t.lost == s.lost && t.replies == s.replies && t.log.audit == s.log.audit
      && row.key in t.log.consumptions
  {
    RecordsGrow(s, Advance(s, i, r, Pc.Inserting(row)));
  }

  lemma InsertingKeeps(s: System, i: nat, r: Request, row: Consumption)
    requires Inv(s) && Running(s, i, r, Pc.Inserting(row))
    ensures Inv(Advance(s, i, r, Pc.Inserting(row)))
  {
    assert CallOk(s, s.At(i));
    if row.key in s.log.consumptions {
      GotoKeeps(s, i, r, Pc.Reselecting(row));
    } else {
      var t := Advance(s, i, r, Pc.Inserting(row));
      InsertingMoves(s, i, r, row);
      OthersKeep(s, t, i);
      WritesFrame(s, t);
      WritesOnceFrame(s, t);
      RepliesFrame(s, t);
      InsertingWins(s, t, i, row);
    }
  }

  lemma InsertingWins(s: System, t: System, i: nat, row: Consumption)
    requires OneWinner(s) && AuditOnce(s) && Grows(s, t) && CallsOk(s)
    requires row.key !in s.log.consumptions && row.key in t.log.consumptions
    requires t.replies == s.replies && t.log.audit == s.log.audit
    requires forall j: nat :: j != i ==> t.At(j) == s.At(j)
    requires forall id :: Holds(t.At(i), id) <==> id == row.key
    ensures OneWinner(t) && AuditOnce(t)
  {
    forall j: nat, id | j != i && Holds(t.At(j), id) ensures id != row.key && Holds(s.At(j), id) {
      assert CallOk(s, s.At(j));
    }
  }

  lemma AuditingMutationMoves(s: System, i: nat, r: Request, row: Consumption)
    requires MintsOk(s) && Running(s, i, r, AuditingMutation(row)) && CallOk(s, s.At(i))
    ensures var t := Advance(s, i, r, AuditingMutation(row));
      && Grows(s, t) && MintsOk(t) && CallOk(t, t.At(i))
      && t.At(i) == s.At(i).(call := Some(Call(r, AuditingConsumption(row))))
      && (forall j: nat :: j != i ==> t.At(j) == s.At(j))
      && t.writes == s.writes && t.lost == s.lost && t.replies == s.replies && t.log.consumptions == s.log.consumptions
      && t.log.audit == s.log.audit + [MutationRow(r.decision.value, r.repository, r.Expected(), r.Node(), row.body.consumedAt)]
      && row.key == r.decision.value.decisionId && row.key in s.log.consumptions
  {
  }

  lemma AuditingMutationKeeps(s: System, i: nat, r: Request, row: Consumption)
    requires Inv(s) && Running(s, i, r, AuditingMutation(row))
    ensures Inv(Advance(s, i, r, AuditingMutation(row)))
  {
    assert CallOk(s, s.At(i));
    var t := Advance(s, i, r, AuditingMutation(row));
    var e := MutationRow(r.decision.value, r.repository, r.Expected(), r.Node(), row.body.consumedAt);
    AuditingMutationMoves(s, i, r, row);
    OthersKeep(s, t, i);
    ConsumptionsFrame(s, t);
    WritesFrame(s, t);
    WritesOnceFrame(s, t);
    RepliesFrame(s, t);
    OneWinnerFrame(s, t);
    assert Holds(s.At(i), row.key);
    assert RowOf(e, MutationPerformed, row.key);
    MutationRowOnce(s, t, i, e, row.key);
  }

  lemma MutationRowOnce(s: System, t: System, i: nat, e: AuditEvent, id: string)
    requires AuditOnce(s) && OneWinner(s) && Grows(s, t)
    requires t.log.audit == s.log.audit + [e] && RowOf(e, MutationPerformed, id)
    requires id in s.log.consumptions
    requires forall j: nat :: j != i ==> t.At(j) == s.At(j)
    requires Holds(s.At(i), id) && s.At(i).call.value.pc.AuditingMutation?
    requires Holds(t.At(i), id) && t.At(i).call.value.pc.AuditingConsumption?
    ensures AuditOnce(t)
  {
    assert forall k :: 0 <= k < |s.log.audit| ==> t.log.audit[k] == s.log.audit[k];
    forall k | 0 <= k < |s.log.audit| ensures !RowOf(s.log.audit[k], MutationPerformed, id) {
    }
  }

  lemma AuditingConsumptionKeeps(s: System, i: nat, r: Request, row: Consumption)
    requires Inv(s) && Running(s, i, r, AuditingConsumption(row))
    ensures Inv(Advance(s, i, r, AuditingConsumption(row)))
  {
    assert CallOk(s, s.At(i));
    var t := Advance(s, i, r, AuditingConsumption(row));
    var e := ConsumedRow(r.decision.value, r.repository, r.Expected(), row.body.consumedAt);
    var p := Reply(r, Ok(Authorized(row.key, r.Node(), false)));
    assert t.log.audit == s.log.audit + [e];
    assert t.replies == s.replies + [p];
    assert ReplyOk(s, p);
    OthersKeep(s, t, i);
    RecordsGrow(s, t);
    WritesFrame(s, t);
    WritesOnceFrame(s, t);
    RepliesFrame(s, t);
    assert Holds(s.At(i), row.key);
    assert RowOf(e, ConsumptionRecorded, row.key);
    FreshReplyOnce(s, t, i, p, row.key);
    ConsumptionRowOnce(s, t, i, e, row.key);
  }

  lemma FreshReplyOnce(s: System, t: System, i: nat, p: Reply, id: string)
    requires OneWinner(s) && Grows(s, t) && id in s.log.consumptions
    requires t.replies == s.replies + [p]
    requires forall x :: p.Fresh(x) <==> x == id
    requires forall j: nat :: j != i ==> t.At(j) == s.At(j)
    requires Holds(s.At(i), id) && t.At(i).call.None?
    ensures OneWinner(t)
  {
    assert forall k :: 0 <= k < |s.replies| ==> t.replies[k] == s.replies[k];
    forall j: nat ensures !Holds(t.At(j), id) {
    }
  }

  lemma ConsumptionRowOnce(s: System, t: System, i: nat, e: AuditEvent, id: string)
    requires AuditOnce(s) && OneWinner(s) && Grows(s, t)
    requires t.log.audit == s.log.audit + [e] && RowOf(e, ConsumptionRecorded, id)
    requires id in s.log.consumptions
    requires forall j: nat :: j != i ==> t.At(j) == s.At(j)
    requires Holds(s.At(i), id) && t.At(i).call.None?
    ensures AuditOnce(t)
  {
    assert forall k :: 0 <= k < |s.log.audit| ==> t.log.audit[k] == s.log.audit[k];
    forall j: nat ensures !Holds(t.At(j), id) {
    }
    forall k | 0 <= k < |s.log.audit| ensures !RowOf(s.log.audit[k], ConsumptionRecorded, id) {
    }
  }

  lemma LoadingKeeps(s: System, i: nat, r: Request)
    requires Inv(s) && Running(s, i, r, Loading)
    ensures Inv(Advance(s, i, r, Loading))
  {
    assert CallOk(s, s.At(i));
    GotoKeeps(s, i, r, Validating(if r.decision.Some? then s.log.GetMinted(r.decision.value.decisionId) else None));
  }

  lemma SelectingKeeps(s: System, i: nat, r: Request, row: Consumption)
    requires Inv(s) && Running(s, i, r, Pc.Selecting(row))
    ensures Inv(Advance(s, i, r, Pc.Selecting(row)))
  {
    assert CallOk(s, s.At(i));
    if row.key in s.log.consumptions {
      SettleKeeps(s, i, r, row);
    } else {
      GotoKeeps(s, i, r, Pc.Inserting(row));
    }
  }

  lemma AdvanceKeeps(s: System, i: nat, r: Request, pc: Pc)
    requires Inv(s) && Running(s, i, r, pc)
    ensures Inv(Advance(s, i, r, pc))
  {
    assert CallOk(s, s.At(i));
    match pc
    case Gating => GatingKeeps(s, i, r);
    case Loading => LoadingKeeps(s, i, r);
    case Validating(m) => ValidatingKeeps(s, i, r, m);
    case Rejecting(e) => RejectingKeeps(s, i, r, e);
    case InnerChecking(c) => InnerCheckingKeeps(s, i, r, c);
    case Writing(c) => WritingKeeps(s, i, r, c);
    case Marking(k) => MarkingKeeps(s, i, r, k);
    case Selecting(row) => SelectingKeeps(s, i, r, row);
    case Inserting(row) => InsertingKeeps(s, i, r, row);
    case Reselecting(row) => SettleKeeps(s, i, r, row);
    case AuditingMutation(row) => AuditingMutationKeeps(s, i, r, row);
    case AuditingConsumption(row) => AuditingConsumptionKeeps(s, i, r, row);
  }

  lemma RaiseKeeps(s: System, i: nat, r: Request, pc: Pc)
    requires Inv(s) && Running(s, i, r, pc)
    ensures Inv(Raise(s, i, r, pc))
  {
    if pc.Marking? {
      MarkingKeeps(s, i, r, pc.write);
    } else {
      ReturnKeeps(s, i, r, Err(if pc.Writing? then StoreFailure else AuditDurability));
    }
  }

  // Time, minting, crashes.

  lemma EnvironmentKeeps(s: System, t: System)
    requires Inv(s) && Grows(s, t) && MintsOk(t)
    requires t.log.consumptions == s.log.consumptions && t.writes == s.writes && t.lost == s.lost && t.replies == s.replies
    requires t.instances == s.instances && NoNewRow(s, t)
    ensures Inv(t)
  {
    RecordsGrow(s, t);
    forall j: nat ensures t.At(j) == s.At(j) && CallOk(t, t.At(j)) {
      CallOkGrows(s, t, s.At(j));
    }
    WritesFrame(s, t);
    WritesOnceFrame(s, t);
    RepliesFrame(s, t);
    OneWinnerFrame(s, t);
    AuditFrame(s, t);
  }

  lemma IssueKeeps(s: System, id: string, action: ReviewAction)
    requires Inv(s) && id in s.minted && id !in s.issued
    ensures Inv(Apply(s, IssueMint(id, action)))
  {
    var t := Apply(s, IssueMint(id, action));
    assert t.log.audit == s.log.audit + [MintedRow(s.minted[id], action)];
    EnvironmentKeeps(s, t);
  }

  lemma CrashKeeps(s: System, i: nat)
    requires Inv(s)
    ensures Inv(Apply(s, Step.Crash(i)))
  {
    QuietKeeps(s, Apply(s, Step.Crash(i)), i);
  }

  lemma TickKeeps(s: System, elapsed: nat)
    requires Inv(s)
    ensures Inv(Apply(s, Tick(elapsed)))
  {
    EnvironmentKeeps(s, Apply(s, Tick(elapsed)));
  }

  lemma RecordedMintsOk(s: System, d: Decision, m: Minted)
    requires MintsOk(s) && d.approved && d.decisionId !in s.log.decisions
    requires m.contentHash == d.contentHash && m.targetFingerprint == d.targetFingerprint && m.mintedAt == d.mintedAt
    ensures MintsOk(s.(log := s.log.(decisions := s.log.decisions[d.decisionId := m]), minted := s.minted[d.decisionId := d]))
  {
    assert d.decisionId !in s.minted && d.decisionId !in s.issued;
  }

  lemma RecordMintGrows(s: System, step: Step)
    requires MintsOk(s) && step.RecordMint?
    ensures var t := Apply(s, step);
      && MintsOk(t) && Grows(s, t) && NoNewRow(s, t)
      && t.log.consumptions == s.log.consumptions && t.writes == s.writes && t.lost == s.lost && t.replies == s.replies
      && t.instances == s.instances
  {
    if step.command.action.AuthorizesMutation() && step.decisionId !in s.log.decisions {
      var d := NewDecision(step.command, step.context, step.target, s.clock, step.decisionId);
      RecordedMintsOk(s, d, MintedFor(d, step.context, step.reviewEventId, step.ttl));
    }
  }

  lemma RecordMintKeeps(s: System, step: Step)
    requires Inv(s) && step.RecordMint?
    ensures Inv(Apply(s, step))
  {
    RecordMintGrows(s, step);
    EnvironmentKeeps(s, Apply(s, step));
  }

  lemma StepKeeps(s: System, step: Step)
    requires Inv(s)
    ensures Inv(Apply(s, step))
  {
    match step
    case Tick(elapsed) => TickKeeps(s, elapsed);
    case RecordMint(_, _, _, _, _, _) => RecordMintKeeps(s, step);
    case IssueMint(id, action) =>
      if id in s.minted && id !in s.issued {
        IssueKeeps(s, id, action);
      }
    case Start(i, r) =>
      if s.At(i).call.None? && Presentable(s, r) {
        GotoKeeps(s, i, r, Gating);
      }
    case Go(i) =>
      match s.At(i).call {
        case None =>
        case Some(c) => AdvanceKeeps(s, i, c.request, c.pc);
      }
    case Fail(i) =>
      match s.At(i).call {
        case None =>
        case Some(c) =>
          RaiseKeeps(s, i, c.request, c.pc);
      }
    case Crash(i) => CrashKeeps(s, i);
  }

  lemma {:induction false} Reachable(ttl: int, steps: seq<Step>)
    ensures Inv(Run(ttl, steps))
  {
    if steps != [] {
      var n := |steps| - 1;
      Reachable(ttl, steps[..n]);
      StepKeeps(Run(ttl, steps[..n]), steps[n]);
    }
  }

  // ------------------------------------------------------------------ consumptions are backed by writes

  ghost predicate PastWrite(pc: Pc) {
    pc.Marking? || pc.Selecting? || pc.Inserting? || pc.Reselecting? || pc.AuditingMutation? || pc.AuditingConsumption?
  }

  ghost predicate Written(s: System, r: Request) {
    exists w :: w in s.writes && w.request == r
  }

  ghost predicate WrittenFor(s: System, id: string, node: string) {
    exists w :: w in s.writes && w.ByDecision(id) && w.request.Node().value == node
  }

  ghost predicate Backed(s: System) {
    && (forall i: nat :: s.At(i).call.Some? && PastWrite(s.At(i).call.value.pc) ==> Written(s, s.At(i).call.value.request))
    && (forall id :: id in s.log.consumptions ==> WrittenFor(s, id, s.log.consumptions[id].body.nodeId))
  }

  lemma BackedWhenUnwritten(s: System, t: System, i: nat)
    requires Backed(s) && t.log.consumptions == s.log.consumptions
    requires s.writes <= t.writes
    requires forall j: nat :: j != i ==> t.At(j) == s.At(j)
    requires t.At(i).call.Some? && PastWrite(t.At(i).call.value.pc) ==> Written(t, t.At(i).call.value.request)
    ensures Backed(t)
  {
    assert forall w :: w in s.writes ==> w in t.writes;
    forall j: nat | t.At(j).call.Some? && PastWrite(t.At(j).call.value.pc) ensures Written(t, t.At(j).call.value.request) {
      if j != i {
        assert Written(s, s.At(j).call.value.request);
      }
    }
    forall id | id in t.log.consumptions ensures WrittenFor(t, id, t.log.consumptions[id].body.nodeId) {
      assert WrittenFor(s, id, s.log.consumptions[id].body.nodeId);
    }
  }

  ghost predicate Inserts(s: System, pc: Pc) {
    pc.Inserting? && pc.row.key !in s.log.consumptions
  }

  ghost predicate Writes(r: Request, pc: Pc) {
    pc.Writing? && r.adr.repository == r.repository
  }

  lemma AdvanceLeavesOthers(s: System, i: nat, r: Request, pc: Pc, j: nat)
    requires Running(s, i, r, pc) && j != i
    ensures Advance(s, i, r, pc).At(j) == s.At(j)
  {
  }

  /** `t` is `s` after instance `i` left the statement `pc` of the call `r`. */
  ghost predicate Shaped(s: System, t: System, i: nat, r: Request, pc: Pc) {
    && (!Inserts(s, pc) ==> t.log.consumptions == s.log.consumptions)
    && (!Writes(r, pc) ==> t.writes == s.writes)
    && (t.At(i).call.Some? ==> t.At(i).call.value.request == r)
    && (t.At(i).call.Some? && PastWrite(t.At(i).call.value.pc) && !Writes(r, pc) ==> PastWrite(pc))
  }

  lemma GotoShaped(s: System, i: nat, r: Request, pc: Pc, next: Pc)
    requires PastWrite(next) && !Writes(r, pc) ==> PastWrite(pc)
    ensures Shaped(s, s.Goto(i, r, next), i, r, pc)
  {
  }

  lemma ReturnShaped(s: System, i: nat, r: Request, pc: Pc, result: Result<Authorized, Error>)
    ensures Shaped(s, s.Return(i, r, result), i, r, pc)
  {
  }

  lemma SettleShaped(s: System, i: nat, r: Request, pc: Pc, row: Consumption)
    requires row.key in s.log.consumptions
    ensures Shaped(s, Settle(s, i, r, row), i, r, pc)
  {
    match Reconcile(s.log.consumptions[row.key], row)
    case Existing(prior) => ReturnShaped(s, i, r, pc, Ok(Authorized(row.key, NodeId(r.repository, prior.body.nodeId), true)));
    case _ => ReturnShaped(s, i, r, pc, Err(AlreadyConsumed));
  }

  lemma CheckingShaped(s: System, i: nat, r: Request, pc: Pc)
    requires Running(s, i, r, pc) && (pc.Gating? || pc.Loading? || pc.Validating? || pc.InnerChecking?)
    ensures Shaped(s, Advance(s, i, r, pc), i, r, pc)
  {
    match pc
    case Gating =>
      match Gate(s.log, r.repository, r.decision, r.Expected()) {
        case Some(answer) => ReturnShaped(s, i, r, pc, answer);
        case None => GotoShaped(s, i, r, pc, Loading);
      }
    case Loading => GotoShaped(s, i, r, pc, Validating(if r.decision.Some? then s.log.GetMinted(r.decision.value.decisionId) else None));
    case Validating(minted) =>
      match Validate(r.decision, r.repository, r.Expected(), CurrentContent(r.adr), s.clock, s.ttl, minted) {
        case Ok(_) => GotoShaped(s, i, r, pc, InnerChecking(s.clock));
        case Err(e) => GotoShaped(s, i, r, pc, Rejecting(e));
      }
    case InnerChecking(c) =>
      match InnerValidate(s.At(i).consumed, r.repository, r.decision, r.Expected(), Some(r.adr.contentHash)) {
        case Ok(_) => GotoShaped(s, i, r, pc, Writing(c));
        case Err(e) => ReturnShaped(s, i, r, pc, Err(e));
      }
  }

  lemma AdvanceShape(s: System, i: nat, r: Request, pc: Pc)
    requires Running(s, i, r, pc)
    ensures Shaped(s, Advance(s, i, r, pc), i, r, pc)
  {
    if pc.Gating? || pc.Loading? || pc.Validating? || pc.InnerChecking? {
      CheckingShaped(s, i, r, pc);
    } else if pc.Selecting? && pc.row.key in s.log.consumptions {
      SettleShaped(s, i, r, pc, pc.row);
    } else if pc.Reselecting? && pc.row.key in s.log.consumptions {
      SettleShaped(s, i, r, pc, pc.row);
    }
  }

  lemma InsertingBacked(s: System, i: nat, r: Request, pc: Pc)
    requires Inv(s) && Backed(s) && Running(s, i, r, pc) && Inserts(s, pc)
    ensures Backed(Advance(s, i, r, pc))
  {
    assert CallOk(s, s.At(i));
    var t := Advance(s, i, r, pc);
    AdvanceShape(s, i, r, pc);
    assert Written(s, r);
    var w :| w in s.writes && w.request == r;
    assert w.ByDecision(pc.row.key);
    forall j: nat | j != i ensures t.At(j) == s.At(j) { AdvanceLeavesOthers(s, i, r, pc, j); }
    BackedAfterInsert(s, t, i, pc.row);
  }

  lemma BackedAfterInsert(s: System, t: System, i: nat, row: Consumption)
    requires Backed(s) && t.writes == s.writes
    requires t.log.consumptions == s.log.consumptions[row.key := row]
    requires WrittenFor(s, row.key, row.body.nodeId)
    requires forall j: nat :: j != i ==> t.At(j) == s.At(j)
    requires t.At(i).call.Some? ==> Written(s, t.At(i).call.value.request)
    ensures Backed(t)
  {
    forall id | id in t.log.consumptions ensures WrittenFor(t, id, t.log.consumptions[id].body.nodeId) {
      assert id != row.key ==> WrittenFor(s, id, s.log.consumptions[id].body.nodeId);
    }
    forall j: nat | t.At(j).call.Some? && PastWrite(t.At(j).call.value.pc) ensures Written(t, t.At(j).call.value.request) {
      assert Written(s, t.At(j).call.value.request);
    }
  }

  lemma AdvanceBacked(s: System, i: nat, r: Request, pc: Pc)
    requires Inv(s) && Backed(s) && Running(s, i, r, pc)
    ensures Backed(Advance(s, i, r, pc))
  {
    if Inserts(s, pc) {
      InsertingBacked(s, i, r, pc);
    } else {
      var t := Advance(s, i, r, pc);
      AdvanceShape(s, i, r, pc);
      forall j: nat | j != i ensures t.At(j) == s.At(j) { AdvanceLeavesOthers(s, i, r, pc, j); }
      if Writes(r, pc) {
        assert t.writes == s.writes + [WriteEvent(i, s.At(i).epoch, r, pc.checkedAt)];
        assert t.writes[|s.writes|].request == r;
      } else {
        assert PastWrite(pc) ==> Written(s, r);
      }
      BackedWhenUnwritten(s, t, i);
    }
  }

  /** Steps other than `Go` never take an instance past its write. */
  lemma OtherStepBacked(s: System, step: Step, i: nat)
    requires Backed(s) && !step.Go?
    requires step.Start? || step.Fail? || step.Crash? ==> i == step.instance
    ensures Backed(Apply(s, step))
  {
    assert s.At(i).call.Some? && PastWrite(s.At(i).call.value.pc) ==> Written(s, s.At(i).call.value.request);
    OtherStepMoves(s, step, i);
    BackedWhenUnwritten(s, Apply(s, step), i);
  }

  ghost predicate MovesOnly(s: System, t: System, i: nat) {
    && t.log.consumptions == s.log.consumptions && t.writes == s.writes
    && (forall j: nat :: j != i ==> t.At(j) == s.At(j))
    && (t.At(i).call == s.At(i).call || t.At(i).call.None? || !PastWrite(t.At(i).call.value.pc))
  }

  lemma RaiseMoves(s: System, i: nat, r: Request, pc: Pc)
    ensures MovesOnly(s, Raise(s, i, r, pc), i)
  {
    match pc
    case Marking(k) => ReturnAt(s.(lost := s.lost + {k}), i, r, Err(StoreFailure));
    case Writing(_) => ReturnAt(s, i, r, Err(StoreFailure));
    case _ => ReturnAt(s, i, r, Err(AuditDurability));
  }

  lemma InstanceStepMoves(s: System, step: Step)
    requires step.Start? || step.Fail? || step.Crash?
    ensures MovesOnly(s, Apply(s, step), step.instance)
  {
    var i := step.instance;
    if step.Start? {
      GotoAt(s, i, step.request, Gating);
    } else if step.Fail? && s.At(i).call.Some? {
      RaiseMoves(s, i, s.At(i).call.value.request, s.At(i).call.value.pc);
    }
  }

  lemma OtherStepMoves(s: System, step: Step, i: nat)
    requires !step.Go?
    requires step.Start? || step.Fail? || step.Crash? ==> i == step.instance
    ensures MovesOnly(s, Apply(s, step), i)
  {
    if step.Start? || step.Fail? || step.Crash? {
      InstanceStepMoves(s, step);
    } else {
      assert Apply(s, step).instances == s.instances;
    }
  }

  lemma StepBacked(s: System, step: Step)
    requires Inv(s) && Backed(s)
    ensures Backed(Apply(s, step))
  {
    if !step.Go? {
      OtherStepBacked(s, step, if step.Start? || step.Fail? || step.Crash? then step.instance else 0);
    } else if s.At(step.instance).call.Some? {
      AdvanceBacked(s, step.instance, s.At(step.instance).call.value.request, s.At(step.instance).call.value.pc);
    }
  }

  lemma {:induction false} ReachableBacked(ttl: int, steps: seq<Step>)
    ensures Backed(Run(ttl, steps))
  {
    if steps != [] {
      var n := |steps| - 1;
      ReachableBacked(ttl, steps[..n]);
      Reachable(ttl, steps[..n]);
      StepBacked(Run(ttl, steps[..n]), steps[n]);
    }
  }

  // ------------------------------------------------------------------ refusals

  ghost predicate RefusalsOk(s: System) {
    forall p :: p in s.replies ==> RefusalOk(s, p)
  }

  /** A step that gains at most one reply, and that one in order, keeps all of them in order. */
  lemma RefusalsFrame(s: System, t: System)
    requires RefusalsOk(s)
    requires forall id :: id in s.log.consumptions ==> id in t.log.consumptions && t.log.consumptions[id] == s.log.consumptions[id]
    requires t.replies == s.replies || exists p :: t.replies == s.replies + [p] && RefusalOk(t, p)
    ensures RefusalsOk(t)
  {
    forall p | p in t.replies ensures RefusalOk(t, p) {
      if p in s.replies {
        assert RefusalOk(s, p);
      }
    }
  }

  lemma SettleRefuses(s: System, i: nat, r: Request, row: Consumption)
    requires RefusalsOk(s) && RowFor(r, row) && row.key in s.log.consumptions
    ensures RefusalsOk(Settle(s, i, r, row))
  {
    var t := Settle(s, i, r, row);
    var p := t.replies[|s.replies|];
    assert t.replies == s.replies + [p] && RefusalOk(t, p);
    RefusalsFrame(s, t);
  }

  lemma AdvanceRefuses(s: System, i: nat, r: Request, pc: Pc)
    requires Inv(s) && RefusalsOk(s) && Running(s, i, r, pc)
    ensures RefusalsOk(Advance(s, i, r, pc))
  {
    assert CallOk(s, s.At(i));
    if pc.Selecting? && pc.row.key in s.log.consumptions {
      SettleRefuses(s, i, r, pc.row);
    } else if pc.Reselecting? && pc.row.key in s.log.consumptions {
      SettleRefuses(s, i, r, pc.row);
    } else {
      ConsumptionsStay(s, i, r, pc);
      OtherAdvanceRefuses(s, i, r, pc);
    }
  }

  /** What a call that does not settle may answer: nothing yet, or a refusal by the gate, or
      something else. */
  lemma OtherAnswers(s: System, i: nat, r: Request, pc: Pc)
    requires (pc.Selecting? || pc.Reselecting?) ==> pc.row.key !in s.log.consumptions
    requires pc.Rejecting? ==> pc.error != AlreadyConsumed
    ensures var t := Advance(s, i, r, pc);
      || t.replies == s.replies
      || exists p :: t.replies == s.replies + [p] && p.request == r
           && (p.result == Err(AlreadyConsumed) ==> pc.Gating? && Gate(s.log, r.repository, r.decision, r.Expected()) == Some(p.result))
  {
    var t := Advance(s, i, r, pc);
    if t.replies != s.replies {
      var p := t.replies[|s.replies|];
      assert t.replies == s.replies + [p];
    }
  }

  lemma OtherAdvanceRefuses(s: System, i: nat, r: Request, pc: Pc)
    requires RefusalsOk(s)
    requires forall id :: id in s.log.consumptions ==>
      id in Advance(s, i, r, pc).log.consumptions && Advance(s, i, r, pc).log.consumptions[id] == s.log.consumptions[id]
    requires (pc.Selecting? || pc.Reselecting?) ==> pc.row.key !in s.log.consumptions
    requires pc.Rejecting? ==> pc.error != AlreadyConsumed
    ensures RefusalsOk(Advance(s, i, r, pc))
  {
    var t := Advance(s, i, r, pc);
    OtherAnswers(s, i, r, pc);
    if t.replies != s.replies {
      var p :| t.replies == s.replies + [p] && p.request == r
        && (p.result == Err(AlreadyConsumed) ==> pc.Gating? && Gate(s.log, r.repository, r.decision, r.Expected()) == Some(p.result));
      assert RefusalOk(s, p);
      assert RefusalOk(t, p);
    }
    RefusalsFrame(s, t);
  }

  lemma SettleLeavesTheLog(s: System, i: nat, r: Request, row: Consumption)
    requires row.key in s.log.consumptions
    ensures Settle(s, i, r, row).log == s.log
  {
  }

  lemma CheckingLeavesTheLog(s: System, i: nat, r: Request, pc: Pc)
    requires pc.Gating? || pc.Loading? || pc.Validating? || pc.InnerChecking?
    ensures Advance(s, i, r, pc).log == s.log
  {
  }

  /** Only an insertion changes the consumptions. */
  lemma ConsumptionsSame(s: System, i: nat, r: Request, pc: Pc)
    requires !pc.Inserting?
    ensures Advance(s, i, r, pc).log.consumptions == s.log.consumptions
  {
    if pc.Gating? || pc.Loading? || pc.Validating? || pc.InnerChecking? {
      CheckingLeavesTheLog(s, i, r, pc);
    } else if (pc.Selecting? || pc.Reselecting?) && pc.row.key in s.log.consumptions {
      SettleLeavesTheLog(s, i, r, pc.row);
    }
  }

  lemma ConsumptionsStay(s: System, i: nat, r: Request, pc: Pc)
    ensures forall id :: id in s.log.consumptions ==>
      id in Advance(s, i, r, pc).log.consumptions && Advance(s, i, r, pc).log.consumptions[id] == s.log.consumptions[id]
  {
    if !pc.Inserting? {
      ConsumptionsSame(s, i, r, pc);
    }
  }

  lemma {:induction false} ReachableRefusals(ttl: int, steps: seq<Step>)
    ensures RefusalsOk(Run(ttl, steps))
  {
    if steps != [] {
      var n := |steps| - 1;
      var s, t, step := Run(ttl, steps[..n]), Run(ttl, steps), steps[n];
      ReachableRefusals(ttl, steps[..n]);
      Reachable(ttl, steps[..n]);
      if step.Go? && s.At(step.instance).call.Some? {
        AdvanceRefuses(s, step.instance, s.At(step.instance).call.value.request, s.At(step.instance).call.value.pc);
      } else {
        OtherStepRefuses(s, step);
      }
    }
  }

  lemma FailureAnswers(s: System, i: nat, r: Request, pc: Pc)
    ensures var t := Raise(s, i, r, pc);
      t.log == s.log && exists p :: t.replies == s.replies + [p] && p.result != Err(AlreadyConsumed)
  {
    var t := Raise(s, i, r, pc);
    assert t.replies == s.replies + [t.replies[|s.replies|]];
  }

  lemma OtherStepRefuses(s: System, step: Step)
    requires RefusalsOk(s) && (step.Go? ==> s.At(step.instance).call.None?)
    ensures RefusalsOk(Apply(s, step))
  {
    var t := Apply(s, step);
    if step.Fail? && s.At(step.instance).call.Some? {
      var c := s.At(step.instance).call.value;
      FailureAnswers(s, step.instance, c.request, c.pc);
      var p :| t.replies == s.replies + [p] && p.result != Err(AlreadyConsumed);
      assert RefusalOk(t, p);
      RefusalsFrame(s, t);
    } else {
      assert t.replies == s.replies && t.log.consumptions == s.log.consumptions;
      RefusalsFrame(s, t);
    }
  }

  // ------------------------------------------------------------------ what callers may rely on

  /** Under every interleaving, crash and restart, one call per decision, and no other,
      answers with a mutation of its own. */
  lemma {:induction false} AtMostOneFreshAnswer(ttl: int, steps: seq<Step>, k: nat, l: nat, id: string)
    requires k < |Run(ttl, steps).replies| && l < |Run(ttl, steps).replies|
    requires Run(ttl, steps).replies[k].Fresh(id) && Run(ttl, steps).replies[l].Fresh(id)
    ensures k == l
  {
    Reachable(ttl, steps);
  }

  /** All successful calls for one decision name the consumed node. They agree on the whole
      node id exactly when they were made for the same repository: an idempotent answer
      repeats the caller's repository, of which the fingerprint covers three fields. */
  lemma SuccessesNameOneNode(ttl: int, steps: seq<Step>, p: Reply, q: Reply)
    requires p in Run(ttl, steps).replies && q in Run(ttl, steps).replies
    requires p.result.Ok? && q.result.Ok? && p.result.value.decisionId == q.result.value.decisionId
    ensures p.result.value.node.value == q.result.value.node.value
    ensures p.result.value.node == q.result.value.node <==> p.request.repository == q.request.repository
    ensures var table := Run(ttl, steps).log.consumptions;
      p.result.value.decisionId in table && table[p.result.value.decisionId].body.nodeId == p.result.value.node.value
  {
    Reachable(ttl, steps);
    assert ReplyOk(Run(ttl, steps), p) && ReplyOk(Run(ttl, steps), q);
  }

  /** Answers and refusals agree with the consumption: a call succeeds only for the target its
      decision was consumed for, and one that is refused as consumed named another. So two
      successes under one decision have one target. */
  lemma {:induction false} AnswersMatchTheTarget(ttl: int, steps: seq<Step>, p: Reply, id: string)
    requires p in Run(ttl, steps).replies
    requires p.request.decision.Some? && p.request.decision.value.decisionId == id
    ensures var table := Run(ttl, steps).log.consumptions;
      && (p.result.Ok? ==> id in table && p.request.Expected() == table[id].fingerprint)
      && (p.result == Err(AlreadyConsumed) ==> id in table && p.request.Expected() != table[id].fingerprint)
  {
    Reachable(ttl, steps);
    ReachableRefusals(ttl, steps);
    assert ReplyOk(Run(ttl, steps), p) && RefusalOk(Run(ttl, steps), p);
  }

  /** Two ADRs for which calls succeed under one decision share fields, and with equal content
      hashes they are one ADR of one key. */
  lemma {:induction false} SuccessesShareTheTarget(ttl: int, steps: seq<Step>, p: Reply, q: Reply)
    requires p in Run(ttl, steps).replies && q in Run(ttl, steps).replies
    requires p.result.Ok? && q.result.Ok? && p.result.value.decisionId == q.result.value.decisionId
    ensures p.request.Expected() == q.request.Expected()
    ensures p.request.repository.Key() == q.request.repository.Key() && p.request.adr.contentHash == q.request.adr.contentHash
            ==> p.request.adr.adrId == q.request.adr.adrId
  {
    Reachable(ttl, steps);
    assert ReplyOk(Run(ttl, steps), p) && ReplyOk(Run(ttl, steps), q);
    if p.request.repository.Key() == q.request.repository.Key() && p.request.adr.contentHash == q.request.adr.contentHash {
      UpsertDeterminesAdr(p.request.repository.Key(), p.request.adr.contentHash, p.request.adr.adrId, q.request.adr.adrId);
    }
  }

  /** All graph writes made under one decision hit the same node with the same content hash,
      and their texts agree up to line endings wherever both are present. */
  lemma {:induction false} WritesAgree(ttl: int, steps: seq<Step>, v: WriteEvent, w: WriteEvent, id: string)
    requires v in Run(ttl, steps).writes && w in Run(ttl, steps).writes
    requires v.ByDecision(id) && w.ByDecision(id)
    ensures v.request.Node() == w.request.Node()
    ensures v.request.adr.contentHash == w.request.adr.contentHash
    ensures v.request.adr.markdown != "" && w.request.adr.markdown != "" ==>
              ScanLineEndings(v.request.adr.markdown) == ScanLineEndings(w.request.adr.markdown)
  {
    Reachable(ttl, steps);
    assert WriteOk(Run(ttl, steps), v) && WriteOk(Run(ttl, steps), w);
    var d := v.request.decision.value;
    UpsertDeterminesAdr(d.repository.Key(), d.contentHash, v.request.adr.adrId, w.request.adr.adrId);
    CanonicalHashEqual(v.request.adr.markdown, w.request.adr.markdown);
  }

  /** Between two restarts an instance writes a second time under a decision only when its
      earlier write was lost: its store call raised after the node had landed. */
  lemma {:induction false} SecondWriteFollowsALoss(ttl: int, steps: seq<Step>, k: nat, l: nat)
    requires k < l < |Run(ttl, steps).writes|
    requires SameWriter(Run(ttl, steps).writes[k], Run(ttl, steps).writes[l])
    ensures k in Run(ttl, steps).lost
  {
    Reachable(ttl, steps);
  }

  /** So it writes at most once more often than its store calls raise after landing. */
  lemma {:induction false} WritesPerLife(ttl: int, steps: seq<Step>, i: nat, epoch: nat, id: string)
    ensures var s := Run(ttl, steps);
      var mine := set k: nat | k < |s.writes| && MadeBy(s.writes[k], i, epoch, id);
      |mine| <= 1 + |mine * s.lost|
  {
    Reachable(ttl, steps);
    var s := Run(ttl, steps);
    var mine := set k: nat | k < |s.writes| && MadeBy(s.writes[k], i, epoch, id);
    forall k, l | k in mine - s.lost && l in mine - s.lost ensures k == l {
      assert SameWriter(s.writes[k], s.writes[l]);
    }
    AtMostOneElement(mine - s.lost);
    assert mine == (mine - s.lost) + mine * s.lost;
  }

  lemma AtMostOneElement(s: set<nat>)
    requires forall k, l :: k in s && l in s ==> k == l
    ensures |s| <= 1
  {
    if s != {} {
      var k :| k in s;
      assert s == {k};
    }
  }

  /** Authority: every graph write ever made was validated under an issued, approving decision
      of the same repository, target and content hash, at a clock reading not past the expiry
      of its durable minted record; a text it carries hashes to what was reviewed. */
  lemma EveryWriteIsAuthorized(ttl: int, steps: seq<Step>, w: WriteEvent)
    requires w in Run(ttl, steps).writes
    ensures var s := Run(ttl, steps);
      && w.request.decision.Some?
      && var d := w.request.decision.value;
      && d.decisionId in s.issued && s.issued[d.decisionId] == d && d.approved
      && d.decisionId in s.log.decisions
      && w.request.repository == w.request.adr.repository == d.repository
      && d.targetFingerprint == w.request.Expected() == s.log.decisions[d.decisionId].targetFingerprint
      && d.contentHash == w.request.adr.contentHash == s.log.decisions[d.decisionId].contentHash
      && (w.request.adr.markdown == "" || CanonicalHash(w.request.adr.markdown) == d.contentHash)
      && w.checkedAt <= s.log.decisions[d.decisionId].ExpiresAt()
  {
    Reachable(ttl, steps);
    assert WriteOk(Run(ttl, steps), w);
  }

  /** Every decision record of the log expires at most `most` after its minting. */
  ghost predicate ShortLived(s: System, most: int) {
    forall id :: id in s.log.decisions ==> s.log.decisions[id].ExpiresAt() <= s.log.decisions[id].mintedAt + most
  }

  lemma StepShortLived(s: System, step: Step, most: int)
    requires ShortLived(s, most) && most >= 0 && (step.RecordMint? ==> step.ttl <= most)
    requires !step.Go?
    ensures ShortLived(Apply(s, step), most)
  {
  }

  lemma AdvanceKeepsDecisions(s: System, i: nat, r: Request, pc: Pc)
    ensures Advance(s, i, r, pc).log.decisions == s.log.decisions
  {
    if pc.Gating? || pc.Loading? || pc.Validating? || pc.InnerChecking? {
      CheckingLeavesTheLog(s, i, r, pc);
    } else if (pc.Selecting? || pc.Reselecting?) && pc.row.key in s.log.consumptions {
      SettleLeavesTheLog(s, i, r, pc.row);
    }
  }

  lemma {:induction false} ReachableShortLived(ttl: int, steps: seq<Step>, most: int)
    requires most >= 0 && forall i :: 0 <= i < |steps| && steps[i].RecordMint? ==> steps[i].ttl <= most
    ensures ShortLived(Run(ttl, steps), most)
  {
    if steps != [] {
      var n := |steps| - 1;
      var s, step := Run(ttl, steps[..n]), steps[n];
      ReachableShortLived(ttl, steps[..n], most);
      if !step.Go? {
        StepShortLived(s, step, most);
      } else if s.At(step.instance).call.Some? {
        AdvanceKeepsDecisions(s, step.instance, s.At(step.instance).call.value.request, s.At(step.instance).call.value.pc);
      }
    }
  }

  /** When minting is configured with a lifetime of at most `most`, no write under a decision is
      validated later than that after its minting, whatever the services are configured with. */
  lemma {:induction false} NoWriteOutlivesItsDecision(ttl: int, steps: seq<Step>, most: int, w: WriteEvent)
    requires most >= 0 && forall i :: 0 <= i < |steps| && steps[i].RecordMint? ==> steps[i].ttl <= most
    requires w in Run(ttl, steps).writes
    ensures w.request.decision.Some? && w.checkedAt <= w.request.decision.value.mintedAt + most
  {
    Reachable(ttl, steps);
    ReachableShortLived(ttl, steps, most);
    var s := Run(ttl, steps);
    assert WriteOk(s, w);
    var id := w.request.decision.value.decisionId;
    assert s.log.decisions[id].mintedAt == s.minted[id].mintedAt;
  }

  /** Every consumption names a node that was written under its decision and is in the graph. */
  lemma {:induction false} EveryConsumptionIsBacked(ttl: int, steps: seq<Step>, id: string)
    requires id in Run(ttl, steps).log.consumptions
    ensures var s := Run(ttl, steps); var row := s.log.consumptions[id];
      && id in s.issued
      && row.fingerprint == s.issued[id].targetFingerprint
      && NodeId(s.issued[id].repository, row.body.nodeId) in s.nodes
      && WrittenFor(s, id, row.body.nodeId)
  {
    ReachableBacked(ttl, steps);
    Reachable(ttl, steps);
    assert ConsumptionOk(Run(ttl, steps), id);
  }

  /** A decision leaves at most one mutation row and one consumption row, both only after its
      consumption is durable. */
  lemma {:induction false} AuditRowsAtMostOnce(ttl: int, steps: seq<Step>, p: nat, q: nat, kind: EventType, id: string)
    requires kind == MutationPerformed || kind == ConsumptionRecorded
    requires p < |Run(ttl, steps).log.audit| && q < |Run(ttl, steps).log.audit|
    requires RowOf(Run(ttl, steps).log.audit[p], kind, id) && RowOf(Run(ttl, steps).log.audit[q], kind, id)
    ensures p == q && id in Run(ttl, steps).log.consumptions
  {
    Reachable(ttl, steps);
  }
}
