/** What the publication records hold in every run of the whole system: each was stored for an
    authorised request of an issued decision, every success is stored, and every satisfied
    request replays. */
module PublishedRuns {
  import opened Prelude
  import opened Text
  import opened Domain
  import opened Fingerprints
  import opened Publication
  import opened PublicationRuns
  import opened SystemRuns

  // ------------------------------------------------------------------ requests under one decision

  /** What authorisation asks of a request that presents `d`, the log aside. */
  predicate BoundTo(r: PublishRequest, d: Decision) {
    && r.decision == Some(d) && d.repository == r.repository
    && d.targetFingerprint == UpsertFingerprint(r.repository, r.adr)
  }

  lemma Cancel<T>(a: seq<T>, x: seq<T>, y: seq<T>)
    ensures a + x == a + y <==> x == y
    ensures x + a == y + a <==> x == y
  {
    if a + x == a + y {
      assert (a + x)[|a|..] == x && (a + y)[|a|..] == y;
    }
    if x + a == y + a {
      assert |x| == |y|;
      assert (x + a)[..|x|] == x && (y + a)[..|y|] == y;
    }
  }

  lemma UpsertFields(key: string, adrId: string, hash: string)
    ensures Fields(Upsert(key, adrId, hash).Parts()) == Fields(["upsert_adr_node", key]) + Fields([adrId, hash])
  {
    FieldsAppend(["upsert_adr_node", key], [adrId, hash]);
    assert Upsert(key, adrId, hash).Parts() == ["upsert_adr_node", key] + [adrId, hash];
  }

  /** One mutation target under one key fixes what a reader sees of ADR id and hash. */
  lemma SameAdrFields(key: string, adrId: string, hash: string, otherId: string, otherHash: string)
    requires Upsert(key, adrId, hash).Fingerprint() == Upsert(key, otherId, otherHash).Fingerprint()
    ensures Fields([adrId, hash]) == Fields([otherId, otherHash])
  {
    FingerprintsEqual(Upsert(key, adrId, hash), Upsert(key, otherId, otherHash));
    UpsertFields(key, adrId, hash);
    UpsertFields(key, otherId, otherHash);
    Cancel(Fields(["upsert_adr_node", key]), Fields([adrId, hash]), Fields([otherId, otherHash]));
  }

  /** The fields behind the ADR of a publication target. */
  function Behind(r: PublishRequest): seq<string> {
    [r.policy.Label()] + (Fields([r.destination.branch, r.destination.template]) + Fields([r.Key()]))
  }

  lemma FieldsOfFive(head: seq<string>, adr: seq<string>, policy: seq<string>, place: seq<string>, id: seq<string>)
    ensures Fields(head + (adr + (policy + (place + id)))) == Fields(head) + (Fields(adr) + (Fields(policy) + (Fields(place) + Fields(id))))
  {
    FieldsAppend(head, adr + (policy + (place + id)));
    FieldsAppend(adr, policy + (place + id));
    FieldsAppend(policy, place + id);
    FieldsAppend(place, id);
  }

  lemma FieldsOfTarget(t: Target)
    requires t.Publish? && '|' !in t.policy
    ensures Fields(t.Parts())
         == Fields([t.Tag(), t.key]) + (Fields([t.adrId, t.contentHash]) + ([t.policy] + (Fields([t.branch, t.template]) + Fields([t.decisionId]))))
  {
    var tag := t.Tag();
    assert t.Parts() == [tag, t.key] + ([t.adrId, t.contentHash] + ([t.policy] + ([t.branch, t.template] + [t.decisionId])));
    FieldsOfFive([tag, t.key], [t.adrId, t.contentHash], [t.policy], [t.branch, t.template], [t.decisionId]);
    FieldsPipeFree([t.policy]);
  }

  lemma PublishFields(r: PublishRequest)
    ensures Fields(r.Target().Parts())
         == Fields([r.Target().Tag(), r.repository.Key()]) + (Fields([r.adr.adrId, r.adr.contentHash]) + Behind(r))
  {
    LabelHasNoBar(r.policy);
    FieldsOfTarget(r.Target());
  }

  lemma LabelHasNoBar(p: Policy)
    ensures '|' !in p.Label()
  {
  }

  lemma BehindEqual(r: PublishRequest, q: PublishRequest)
    requires r.Key() == q.Key()
    ensures Behind(r) == Behind(q) <==>
      && r.policy == q.policy
      && Fields([r.destination.branch, r.destination.template]) == Fields([q.destination.branch, q.destination.template])
  {
    var x := Fields([r.destination.branch, r.destination.template]);
    var y := Fields([q.destination.branch, q.destination.template]);
    Cancel(Fields([r.Key()]), x, y);
    assert Behind(r)[0] == r.policy.Label() && Behind(q)[0] == q.policy.Label();
    assert Behind(r)[1..] == x + Fields([r.Key()]) && Behind(q)[1..] == y + Fields([r.Key()]);
    assert |LivingAdrOnly.Label()| < |PublishToGithub.Label()| < |PublishToGithubAndLivingAdr.Label()|;
  }

  /** When two requests under one decision have the same publication target: same policy, and
      branch and template that read alike. Bars in the ADR make no difference, because the
      decision has fixed them. */
  lemma SameTargetExactly(r: PublishRequest, q: PublishRequest, d: Decision)
    requires BoundTo(r, d) && BoundTo(q, d)
    ensures r.Fingerprint() == q.Fingerprint() <==>
      && r.policy == q.policy
      && Fields([r.destination.branch, r.destination.template]) == Fields([q.destination.branch, q.destination.template])
  {
    SameAdrFields(d.repository.Key(), r.adr.adrId, r.adr.contentHash, q.adr.adrId, q.adr.contentHash);
    FingerprintsEqual(r.Target(), q.Target());
    PublishFields(r);
    PublishFields(q);
    var head, adr := Fields([r.Target().Tag(), d.repository.Key()]), Fields([r.adr.adrId, r.adr.contentHash]);
    Cancel(head, adr + Behind(r), adr + Behind(q));
    Cancel(adr, Behind(r), Behind(q));
    BehindEqual(r, q);
  }

  // ------------------------------------------------------------------ where records come from

  function ShelfOf(s: System): Shelf {
    s.shelf.(log := s.Log())
  }

  /** The record of `id` was stored for a request of an issued decision. */
  ghost predicate SourcedAt(s: System, id: string) {
    id in s.shelf.records ==>
      exists q: PublishRequest, d: Decision :: d in s.issued && BoundTo(q, d) && q.Key() == id && Holds(s.shelf.records[id], q)
  }

  ghost predicate Sourced(s: System) {
    forall id :: id in s.shelf.records ==> SourcedAt(s, id)
  }

  lemma StillSourced(s: System, t: System, id: string)
    requires SourcedAt(s, id) && s.issued <= t.issued && RecordOf(t.shelf, id) == RecordOf(s.shelf, id)
    ensures SourcedAt(t, id)
  {
    if id in s.shelf.records {
      var q: PublishRequest, d: Decision :| d in s.issued && BoundTo(q, d) && q.Key() == id && Holds(s.shelf.records[id], q);
      assert d in t.issued;
    }
  }

  /** A publication call that moves a record moves it to one of its own request, which
      presented an issued decision. */
  lemma MovedRecordIsSourced(s: System, op: Op, settings: Settings)
    requires op.Publish? && s.MayPresent(op.call.request.decision)
    ensures var t := Apply(s, op, settings);
      t.shelf.records != s.shelf.records ==> SourcedAt(t, op.call.request.Key())
  {
    var r, t := op.call.request, Apply(s, op, settings);
    if t.shelf.records != s.shelf.records {
      CallMovesOne(ShelfOf(s), op.call, settings.ttl, settings.maxAttempts);
      AuthorizedFor(s.Log(), r, op.call.now, op.call.linkedAt, settings.ttl);
      assert BoundTo(r, r.decision.value) && Holds(t.shelf.records[r.Key()], r);
    }
  }

  lemma PublishKeepsSourced(s: System, op: Op, settings: Settings)
    requires Sourced(s) && op.Publish? && s.MayPresent(op.call.request.decision)
    ensures Sourced(Apply(s, op, settings))
  {
    var t := Apply(s, op, settings);
    MovedRecordIsSourced(s, op, settings);
    forall id | id in t.shelf.records ensures SourcedAt(t, id) {
      CallMovesRecord(ShelfOf(s), op.call, settings.ttl, settings.maxAttempts, id);
      if t.shelf.records == s.shelf.records || id != op.call.request.Key() {
        StillSourced(s, t, id);
      }
    }
  }

  lemma StepKeepsSourced(s: System, op: Op, settings: Settings)
    requires Sane(s) && Sourced(s)
    ensures Sourced(Apply(s, op, settings))
  {
    if op.Publish? && s.MayPresent(op.call.request.decision) {
      PublishKeepsSourced(s, op, settings);
    } else {
      var t := Apply(s, op, settings);
      assert s.issued <= t.issued;
      forall id | id in t.shelf.records ensures SourcedAt(t, id) {
        StillSourced(s, t, id);
      }
    }
  }

  /** In every run each publication record was stored for an authorised request of an issued
      decision, and is skipped exactly when that request's policy skips. */
  lemma {:induction false} EveryRecordIsSourced(ops: seq<Op>, settings: Settings)
    ensures Sourced(Run(ops, settings))
  {
    if ops != [] {
      var n := |ops| - 1;
      EveryRecordIsSourced(ops[..n], settings);
      EveryRun(ops[..n], settings, "");
      StepKeepsSourced(Run(ops[..n], settings), ops[n], settings);
    }
  }

  // ------------------------------------------------------------------ success is stored and replayed

  function Answer(s: System, call: PublishCall, settings: Settings): Result<PublishResult, Error> {
    ApplyCall(ShelfOf(s), call, settings.ttl, settings.maxAttempts).1
  }

  /** A record with an authorised request's fingerprint was stored under its policy. */
  lemma OpenRecordsPublish(s: System, r: PublishRequest, d: Decision)
    requires Sane(s) && Sourced(s) && d in s.issued && BoundTo(r, d)
    ensures OpenOnlyForFiles(ShelfOf(s), r)
  {
    var id := r.Key();
    if id in s.shelf.records && s.shelf.records[id].fingerprint == r.Fingerprint() {
      assert SourcedAt(s, id);
      var q: PublishRequest, e: Decision :| e in s.issued && BoundTo(q, e) && q.Key() == id && Holds(s.shelf.records[id], q);
      assert e == d;
      SameTargetExactly(r, q, d);
    }
  }

  /** In every run a successful publication, whatever its policy and its target, leaves a
      satisfied record with the path and commit it returned. */
  lemma {:induction false} SuccessIsStored(ops: seq<Op>, settings: Settings, call: PublishCall)
    requires Run(ops, settings).MayPresent(call.request.decision)
    ensures var s := Run(ops, settings);
      Answer(s, call, settings).Ok? ==>
        Kept(Apply(s, Op.Publish(call), settings).shelf, call, Answer(s, call, settings).value.record)
  {
    var s, r := Run(ops, settings), call.request;
    if Answer(s, call, settings).Ok? {
      if Prior(s.shelf.records, r).None? {
        EveryRun(ops, settings, "");
        EveryRecordIsSourced(ops, settings);
        AuthorizedFor(s.Log(), r, call.now, call.linkedAt, settings.ttl);
        OpenRecordsPublish(s, r, r.decision.value);
      }
      CallIsKept(ShelfOf(s), call, settings.ttl, settings.maxAttempts);
    }
  }

  lemma StepKeepsSatisfied(s: System, op: Op, settings: Settings, id: string)
    requires id in s.shelf.records && s.shelf.records[id].body.status.IsTerminalSuccess()
    ensures RecordOf(Apply(s, op, settings).shelf, id) == RecordOf(s.shelf, id)
  {
    if op.Publish? && s.MayPresent(op.call.request.decision) {
      CallMovesRecord(ShelfOf(s), op.call, settings.ttl, settings.maxAttempts, id);
    }
  }

  lemma RunStep(ops: seq<Op>, op: Op, settings: Settings)
    ensures Run(ops + [op], settings) == Apply(Run(ops, settings), op, settings)
  {
    assert (ops + [op])[..|ops|] == ops;
  }

  lemma {:induction false} SatisfiedStays(ops: seq<Op>, between: seq<Op>, settings: Settings, id: string)
    requires var s := Run(ops, settings).shelf; id in s.records && s.records[id].body.status.IsTerminalSuccess()
    ensures RecordOf(Run(ops + between, settings).shelf, id) == RecordOf(Run(ops, settings).shelf, id)
  {
    if between == [] {
      assert ops + between == ops;
    } else {
      var n := |between| - 1;
      SatisfiedStays(ops, between[..n], settings, id);
      assert ops + between == ops + between[..n] + [between[n]];
      RunStep(ops + between[..n], between[n], settings);
      StepKeepsSatisfied(Run(ops + between[..n], settings), between[n], settings, id);
    }
  }

  /** Once a publication succeeded in a run, any later request under the same decision, after
      any further operations and at any time, is answered from the record: with the stored path
      and commit when its target is the same, as a mismatch when not. Log, graph, records and
      files stay as they are. */
  lemma {:induction false} SatisfiedRequestsReplay(ops: seq<Op>, call: PublishCall, between: seq<Op>, again: PublishCall, settings: Settings)
    requires Run(ops, settings).MayPresent(call.request.decision) && Answer(Run(ops, settings), call, settings).Ok?
    requires again.request.decision.Some? && again.request.Key() == call.request.Key() && |again.turns| >= settings.maxAttempts
    ensures var first := Answer(Run(ops, settings), call, settings).value.record;
      var later := Run(ops + [Op.Publish(call)] + between, settings);
      var reply, after := Answer(later, again, settings), Apply(later, Op.Publish(again), settings);
      && (if again.request.Fingerprint() == call.request.Fingerprint() then
            reply.Ok? && reply.value.idempotent && reply.value.record.body.status == AlreadyPublished
            && reply.value.record.body.path == first.body.path && reply.value.record.body.sha == first.body.sha
          else
            reply == Err(PublicationTargetMismatch))
      && after.world == later.world && after.shelf.records == later.shelf.records && after.shelf.files == later.shelf.files
  {
    var first := Answer(Run(ops, settings), call, settings).value.record;
    var done := ops + [Op.Publish(call)];
    var later := Run(done + between, settings);
    SuccessIsStored(ops, settings, call);
    RunStep(ops, Op.Publish(call), settings);
    SatisfiedStays(done, between, settings, call.request.Key());
    KeptIsReplayed(ShelfOf(later), call, first, again, settings.ttl, settings.maxAttempts);
  }
}
