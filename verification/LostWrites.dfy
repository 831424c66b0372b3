/** Reachable runs of the mutation machine that show where its guarantees end: a write whose
    store call raised after landing is repeated, and two answers may name two repositories. */
module LostWrites {
  import opened Prelude
  import opened Hashing
  import opened Domain
  import opened Fingerprints
  import opened Approval
  import opened Mutation
  import opened MutationProtocol
  import opened SoloCall
  import Strings = Text

  // ------------------------------------------------------------------ continuing a run

  ghost function Continue(s: System, more: seq<Step>): System
    decreases |more|
  {
    if more == [] then s else Continue(Apply(s, more[0]), more[1..])
  }

  lemma {:induction false} RunContinues(ttl: int, steps: seq<Step>, more: seq<Step>)
    ensures Run(ttl, steps + more) == Continue(Run(ttl, steps), more)
    decreases |more|
  {
    if more == [] {
      assert steps + more == steps;
    } else {
      assert steps + more == steps + [more[0]] + more[1..];
      assert (steps + [more[0]])[..|steps|] == steps;
      RunContinues(ttl, steps + [more[0]], more[1..]);
    }
  }

  lemma {:induction false} ContinueTogether(s: System, a: seq<Step>, b: seq<Step>)
    ensures Continue(s, a + b) == Continue(Continue(s, a), b)
    decreases |a|
  {
    if a == [] {
      assert a + b == b;
    } else {
      assert (a + b)[1..] == a[1..] + b;
      ContinueTogether(Apply(s, a[0]), a[1..], b);
    }
  }

  lemma ContinueOnce(s: System, step: Step)
    ensures Continue(s, [step]) == Apply(s, step)
  {
    assert [step][1..] == [];
    assert Continue(Apply(s, step), []) == Apply(s, step);
  }

  function Goes(i: nat, n: nat): seq<Step> {
    if n == 0 then [] else [Go(i)] + Goes(i, n - 1)
  }

  lemma {:induction false} GoesFinish(s: System, i: nat, n: nat)
    ensures Continue(s, Goes(i, n)) == Finish(s, i, n)
    decreases n
  {
    if n > 0 {
      assert Goes(i, n)[1..] == Goes(i, n - 1);
      GoesFinish(Apply(s, Go(i)), i, n - 1);
      if s.At(i).call.None? {
        FinishEnded(s, i, n - 1);
      }
    }
  }

  // ------------------------------------------------------------------ when a retry writes again

  /** An idle instance, and a request that passes every check but the in-process one. */
  ghost predicate Ready(s: System, i: nat, r: Request) {
    && s.At(i).call.None?
    && Entitled(s, r) && SameContent(r) && InTime(s, r, s.clock)
    && r.decision.value.decisionId !in s.log.consumptions
  }

  /** Every write this life of the instance made under the decision was lost. */
  ghost predicate AllLost(s: System, i: nat, id: string) {
    forall k: nat :: k < |s.writes| && MadeBy(s.writes[k], i, s.At(i).epoch, id) ==> k in s.lost
  }

  /** From the start of a call to just behind its graph write. */
  function ToWrite(i: nat, r: Request): seq<Step> {
    [Start(i, r)] + Goes(i, 5)
  }

  lemma ReadyIsValid(s: System, i: nat, r: Request)
    requires Ready(s, i, r)
    ensures Gate(s.log, r.repository, r.decision, r.Expected()).None?
    ensures Validate(r.decision, r.repository, r.Expected(), CurrentContent(r.adr), s.clock, s.ttl,
                     s.log.GetMinted(r.decision.value.decisionId)).Ok?
    ensures Presentable(s, r)
  {
  }

  lemma GotoTwice(s: System, i: nat, r: Request, p: Pc, q: Pc)
    ensures s.Goto(i, r, p).Goto(i, r, q) == s.Goto(i, r, q)
  {
    assert s.instances[i := s.At(i).(call := Some(Call(r, p)))][i := s.At(i).(call := Some(Call(r, q)))]
        == s.instances[i := s.At(i).(call := Some(Call(r, q)))];
  }

  /** The checks before the inner one let a ready request pass. */
  lemma ReadyPasses(s: System, i: nat, r: Request)
    requires Ready(s, i, r)
    ensures Finish(Apply(s, Start(i, r)), i, 5) == Finish(s.Goto(i, r, InnerChecking(s.clock)), i, 2)
  {
    ReadyIsValid(s, i, r);
    var minted := s.log.GetMinted(r.decision.value.decisionId);
    GotoTwice(s, i, r, Gating, Loading);
    FinishStep(s.Goto(i, r, Gating), i, r, Gating, 5);
    GotoTwice(s, i, r, Loading, Validating(minted));
    FinishStep(s.Goto(i, r, Loading), i, r, Loading, 4);
    GotoTwice(s, i, r, Validating(minted), InnerChecking(s.clock));
    FinishStep(s.Goto(i, r, Validating(minted)), i, r, Validating(minted), 3);
  }

  /** The state just behind the graph write of a call that was ready in `s`. */
  function WrittenBy(s: System, i: nat, r: Request): System {
    s.(nodes := s.nodes[r.Node() := r.adr], writes := s.writes + [WriteEvent(i, s.At(i).epoch, r, s.clock)])
     .Goto(i, r, Marking(|s.writes|))
  }

  /** The inner check looks at the in-process marks only. */
  lemma InnerDecides(s: System, i: nat, r: Request)
    requires Ready(s, i, r)
    ensures Finish(s.Goto(i, r, InnerChecking(s.clock)), i, 2)
         == if r.decision.value.decisionId in s.At(i).consumed
            then s.Goto(i, r, InnerChecking(s.clock)).Return(i, r, Err(InnerAlreadyConsumed))
            else WrittenBy(s, i, r)
  {
    var s3 := s.Goto(i, r, InnerChecking(s.clock));
    FinishStep(s3, i, r, InnerChecking(s.clock), 2);
    var s4 := Advance(s3, i, r, InnerChecking(s.clock));
    if r.decision.value.decisionId in s.At(i).consumed {
      FinishEnded(s4, i, 1);
    } else {
      GotoTwice(s, i, r, InnerChecking(s.clock), Writing(s.clock));
      FinishStep(s4, i, r, Writing(s.clock), 1);
      WritingWrites(s, i, r);
    }
  }

  lemma WritingWrites(s: System, i: nat, r: Request)
    requires Ready(s, i, r)
    ensures Advance(s.Goto(i, r, Writing(s.clock)), i, r, Writing(s.clock)) == WrittenBy(s, i, r)
  {
    GotoTwice(s, i, r, Writing(s.clock), Marking(|s.writes|));
  }

  /** What the in-process marks say of the history: a mark exactly for a write that was not
      lost. */
  lemma MarksAreWrites(s: System, i: nat, id: string)
    requires WritesOnce(s) && s.At(i).call.None?
    ensures id in s.At(i).consumed <==> !AllLost(s, i, id)
  {
    if id in s.At(i).consumed {
      assert MarkedFor(s, i, id);
    }
    if !AllLost(s, i, id) {
      var k: nat :| k < |s.writes| && MadeBy(s.writes[k], i, s.At(i).epoch, id) && k !in s.lost;
      assert Remembered(s, k);
    }
  }

  /** In every reachable state: a ready request is written, once more, exactly when all writes
      this life of the instance made under its decision were lost. Otherwise the inner service
      refuses it. */
  lemma {:induction false} RetryWritesExactly(ttl: int, steps: seq<Step>, i: nat, r: Request)
    requires Ready(Run(ttl, steps), i, r)
    ensures var s := Run(ttl, steps);
      var t := Run(ttl, steps + ToWrite(i, r));
      if AllLost(s, i, r.decision.value.decisionId)
      then t == WrittenBy(s, i, r)
      else t.writes == s.writes && t.replies == s.replies + [Reply(r, Err(InnerAlreadyConsumed))]
  {
    var s := Run(ttl, steps);
    Reachable(ttl, steps);
    RunContinues(ttl, steps, ToWrite(i, r));
    ContinueTogether(s, [Start(i, r)], Goes(i, 5));
    ContinueOnce(s, Start(i, r));
    GoesFinish(Apply(s, Start(i, r)), i, 5);
    ReadyPasses(s, i, r);
    InnerDecides(s, i, r);
    MarksAreWrites(s, i, r.decision.value.decisionId);
  }

  /** The state after that write's store call raised. */
  function LostBy(s: System, i: nat, r: Request): System {
    Raise(WrittenBy(s, i, r), i, r, Marking(|s.writes|))
  }

  lemma LossKeepsReady(s: System, i: nat, r: Request)
    requires Ready(s, i, r) && AllLost(s, i, r.decision.value.decisionId)
    requires forall k :: k in s.lost ==> k < |s.writes|
    ensures Ready(LostBy(s, i, r), i, r) && AllLost(LostBy(s, i, r), i, r.decision.value.decisionId)
  {
    var u := LostBy(s, i, r);
    assert u.At(i) == s.At(i).(call := None);
    assert u.log == s.log && u.clock == s.clock && u.issued == s.issued;
    forall k: nat | k < |u.writes| && MadeBy(u.writes[k], i, u.At(i).epoch, r.decision.value.decisionId) ensures k in u.lost {
      assert k < |s.writes| ==> u.writes[k] == s.writes[k];
    }
  }

  /** A ready request whose write is lost is ready again, and is written again in the same
      life. */
  lemma {:induction false} LostWriteIsRepeated(ttl: int, steps: seq<Step>, i: nat, r: Request)
    requires Ready(Run(ttl, steps), i, r)
    requires AllLost(Run(ttl, steps), i, r.decision.value.decisionId)
    ensures Run(ttl, steps + ToWrite(i, r) + [Fail(i)] + ToWrite(i, r)) == WrittenBy(LostBy(Run(ttl, steps), i, r), i, r)
  {
    var s := Run(ttl, steps);
    var once := steps + ToWrite(i, r);
    RetryWritesExactly(ttl, steps, i, r);
    RunContinues(ttl, once, [Fail(i)]);
    ContinueOnce(WrittenBy(s, i, r), Fail(i));
    assert Run(ttl, once + [Fail(i)]) == LostBy(s, i, r);
    Reachable(ttl, steps);
    LossKeepsReady(s, i, r);
    RetryWritesExactly(ttl, once + [Fail(i)], i, r);
  }

  lemma TwoWrites(s: System, i: nat, r: Request)
    requires r.decision.Some?
    ensures var t := WrittenBy(LostBy(s, i, r), i, r); var n := |s.writes|;
      |t.writes| == n + 2 && SameWriter(t.writes[n], t.writes[n + 1]) && t.log == s.log
  {
  }

  /** The sequential service says the same: a call whose store raised leaves its write in the
      graph and nothing else, so the same call is accepted, and writes, again. */
  lemma RaisedCallIsForgotten(w: World, repository: Repository, adr: ADRRecord, decision: Option<Decision>,
                              checkedAt: int, recordedAt: int, ttl: int)
    requires Authorize(w, repository, adr, decision, checkedAt, recordedAt, ttl).0.graph != w.graph
    ensures var (after, answer) := AuthorizeWith(w, repository, adr, decision, checkedAt, recordedAt, ttl, true);
      && answer == Err(StoreFailure)
      && decision.Some? && after == w.(graph := Upserted(w.graph, repository, adr, decision.value.decisionId))
      && Authorize(after, repository, adr, decision, checkedAt, recordedAt, ttl).0.graph
         == Upserted(after.graph, repository, adr, decision.value.decisionId)
  {
    var expected := UpsertFingerprint(repository, adr);
    assert Gate(w.log, repository, decision, expected).None?;
    var (log, valid) := ValidateForMutation(w.log, decision, repository, expected, CurrentContent(adr), checkedAt, recordedAt, ttl);
    assert valid.Ok? && log == w.log && valid.value == decision.value;
    assert InnerValidate(w.consumed, repository, decision, expected, Some(adr.contentHash)).Ok?;
  }

  // ------------------------------------------------------------------ such runs exist

  /** Minting and issuing an approval of a record makes its request ready. */
  lemma {:induction false} AnyRecordGetsReady(ttl: int, adr: ADRRecord, i: nat) returns (steps: seq<Step>, r: Request)
    requires adr.markdown == "" || CanonicalHash(adr.markdown) == adr.contentHash
    ensures Ready(Run(ttl, steps), i, r)
    ensures Run(ttl, steps).writes == [] && Run(ttl, steps).replies == [] && Run(ttl, steps).log.consumptions == map[]
    ensures r.adr == adr && r.repository == adr.repository
    ensures forall j: nat :: Run(ttl, steps).At(j) == Instance(0, {}, None)
  {
    var command := ReviewCommand(Approve, "reviewer", None, None);
    var context := ReviewContext(adr.repository, adr.adrId, adr.contentHash, None, adr.adrId);
    var target := UpsertFingerprint(adr.repository, adr);
    FingerprintIsText(adr);
    var mint := RecordMint(command, context, Some(target), 1000000, "event", "decision");
    var issue := IssueMint("decision", Approve);
    var s := Apply(Init(ttl), mint);
    var t := Apply(s, issue);
    steps := [mint, issue];
    assert steps[..1] == [mint] && steps[..0] == [] && [mint][..0] == [];
    assert Run(ttl, []) == Init(ttl);
    assert Run(ttl, [mint]) == s;
    assert Run(ttl, steps) == t;
    r := Request(adr.repository, adr, Some(NewDecision(command, context, Some(target), 0, "decision")));
  }

  lemma FingerprintIsText(adr: ADRRecord)
    ensures UpsertFingerprint(adr.repository, adr) != ""
  {
    Sha256Hex(Strings.Join(Upsert(adr.repository.Key(), adr.adrId, adr.contentHash).Parts()));
  }

  /** From the empty system: every record that can be written at all can be written twice
      under one decision in one life, when the first write is lost. */
  lemma TwoWritesHappen(ttl: int, adr: ADRRecord) returns (steps: seq<Step>)
    requires adr.markdown == "" || CanonicalHash(adr.markdown) == adr.contentHash
    ensures var t := Run(ttl, steps);
      |t.writes| == 2 && SameWriter(t.writes[0], t.writes[1]) && t.log.consumptions == map[]
  {
    var first, r := AnyRecordGetsReady(ttl, adr, 0);
    LostWriteIsRepeated(ttl, first, 0, r);
    TwoWrites(Run(ttl, first), 0, r);
    steps := first + ToWrite(0, r) + [Fail(0)] + ToWrite(0, r);
  }

  // ------------------------------------------------------------------ two answers, two repositories

  lemma SoloRun(ttl: int, steps: seq<Step>, i: nat, r: Request, w: World)
    requires var s := Run(ttl, steps); s.At(i).call.None? && Presentable(s, r) && Shows(s, i, w)
    ensures var s := Run(ttl, steps);
      Ended(s, Run(ttl, steps + ([Start(i, r)] + Goes(i, 10))), i, r, Authorize(w, r.repository, r.adr, r.decision, s.clock, s.clock, s.ttl))
  {
    var s := Run(ttl, steps);
    RunContinues(ttl, steps, [Start(i, r)] + Goes(i, 10));
    ContinueTogether(s, [Start(i, r)], Goes(i, 10));
    ContinueOnce(s, Start(i, r));
    GoesFinish(Apply(s, Start(i, r)), i, 10);
    SoloCallIsAuthorize(s, i, r, w);
  }

  lemma ReadyAuthorizes(s: System, i: nat, r: Request, w: World, ttl: int)
    requires Ready(s, i, r) && Shows(s, i, w) && w.consumed == {}
    ensures var (after, answer) := Authorize(w, r.repository, r.adr, r.decision, s.clock, s.clock, ttl);
      var id := r.decision.value.decisionId;
      && answer == Ok(Authorized(id, r.Node(), false))
      && id in after.log.consumptions && after.log.consumptions[id].fingerprint == r.Expected()
      && after.log.consumptions[id].body.nodeId == r.Node().value
  {
    var d := r.decision.value;
    assert Gate(w.log, r.repository, r.decision, r.Expected()).None?;
    var (log, valid) := ValidateForMutation(w.log, r.decision, r.repository, r.Expected(), CurrentContent(r.adr), s.clock, s.clock, ttl);
    assert log == w.log && valid == Ok(d);
    var (graph, consumed, written) := InnerUpsert(w.graph, w.consumed, r.repository, r.adr, Some(d));
    assert written == Ok(r.Node());
  }

  /** The same record under a repository that differs in the field the key leaves out. */
  lemma SameExpected(r: Request, other: Repository)
    requires other.Key() == r.repository.Key()
    ensures Request(other, r.adr, r.decision).Expected() == r.Expected()
  {
  }

  /** `t` has answered `r` with a mutation of its own, and instance 0 is idle. */
  ghost predicate Answered(t: System, r: Request, v: World) {
    && t.At(0).call.None? && Shows(t, 0, v)
    && r.decision.Some? && r.decision.value.approved
    && r.decision.value.decisionId in t.issued && t.issued[r.decision.value.decisionId] == r.decision.value
    && Reply(r, Ok(Authorized(r.decision.value.decisionId, r.Node(), false))) in t.replies
    && r.decision.value.decisionId in v.log.consumptions
    && v.log.consumptions[r.decision.value.decisionId].fingerprint == r.Expected()
    && v.log.consumptions[r.decision.value.decisionId].body.nodeId == r.Node().value
  }

  lemma ReadyGetsAnswered(ttl: int, first: seq<Step>, r: Request, w: World) returns (steps: seq<Step>, v: World)
    requires Ready(Run(ttl, first), 0, r) && Shows(Run(ttl, first), 0, w) && w.consumed == {}
    ensures Answered(Run(ttl, steps), r, v)
  {
    var s := Run(ttl, first);
    ReadyIsValid(s, 0, r);
    SoloRun(ttl, first, 0, r, w);
    ReadyAuthorizes(s, 0, r, w, s.ttl);
    v := Authorize(w, r.repository, r.adr, r.decision, s.clock, s.clock, s.ttl).0;
    steps := first + ([Start(0, r)] + Goes(0, 10));
    var t := Run(ttl, steps);
    Reachable(ttl, steps);
    var p := Reply(r, Ok(Authorized(r.decision.value.decisionId, r.Node(), false)));
    assert t.replies[|s.replies|] == p;
    assert ReplyOk(t, p);
  }

  lemma OtherGate(v: World, r: Request, other: Repository, now: int, ttl: int)
    requires r.decision.Some? && r.decision.value.approved && r.decision.value.decisionId in v.log.consumptions
    requires v.log.consumptions[r.decision.value.decisionId].fingerprint == r.Expected()
    requires v.log.consumptions[r.decision.value.decisionId].body.nodeId == r.Node().value
    requires other.Key() == r.repository.Key()
    ensures Authorize(v, other, r.adr, r.decision, now, now, ttl)
         == (v, Ok(Authorized(r.decision.value.decisionId, NodeId(other, r.Node().value), true)))
  {
    SameExpected(r, other);
  }

  lemma ReplayedElsewhere(ttl: int, steps: seq<Step>, r: Request, v: World, other: Repository) returns (more: seq<Step>)
    requires Answered(Run(ttl, steps), r, v) && other.Key() == r.repository.Key()
    ensures Run(ttl, steps).replies <= Run(ttl, steps + more).replies
    ensures Reply(Request(other, r.adr, r.decision), Ok(Authorized(r.decision.value.decisionId, NodeId(other, r.Node().value), true)))
            in Run(ttl, steps + more).replies
  {
    var t := Run(ttl, steps);
    var again := Request(other, r.adr, r.decision);
    SoloRun(ttl, steps, 0, again, v);
    OtherGate(v, r, other, t.clock, t.ttl);
    more := [Start(0, again)] + Goes(0, 10);
    var u := Run(ttl, steps + more);
    assert u.replies[|t.replies|] in u.replies;
  }

  /** From the empty system: a decision is mutated for its repository, and then answered as a
      replay for any other repository with the same key, so that two successful answers to one
      decision name two different node ids. */
  lemma TwoRepositories(ttl: int, adr: ADRRecord, other: Repository) returns (steps: seq<Step>, p: Reply, q: Reply)
    requires adr.markdown == "" || CanonicalHash(adr.markdown) == adr.contentHash
    requires other != adr.repository && other.Key() == adr.repository.Key()
    ensures p in Run(ttl, steps).replies && q in Run(ttl, steps).replies
    ensures p.result.Ok? && q.result.Ok? && p.result.value.decisionId == q.result.value.decisionId
    ensures p.result.value.node.value == q.result.value.node.value
    ensures p.result.value.node != q.result.value.node
  {
    var first, r := AnyRecordGetsReady(ttl, adr, 0);
    var s := Run(ttl, first);
    var second, v := ReadyGetsAnswered(ttl, first, r, World(s.log, Graph(s.nodes, []), {}));
    var more := ReplayedElsewhere(ttl, second, r, v, other);
    steps := second + more;
    p := Reply(r, Ok(Authorized(r.decision.value.decisionId, r.Node(), false)));
    q := Reply(Request(other, adr, r.decision), Ok(Authorized(r.decision.value.decisionId, NodeId(other, r.Node().value), true)));
  }
}
