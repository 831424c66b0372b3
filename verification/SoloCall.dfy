/** One call of the small-step machine, run without interference, is the sequential
    specification of `authorize_and_upsert` that the service class is proved against. */
module SoloCall {
  import opened Prelude
  import opened Domain
  import opened Approval
  import opened Mutation
  import opened MutationProtocol

  /** Up to `n` statements of instance `i`, stopping when its call has ended. */
  function Finish(s: System, i: nat, n: nat): System
    decreases n
  {
    if n == 0 || s.At(i).call.None? then s
    else Finish(Advance(s, i, s.At(i).call.value.request, s.At(i).call.value.pc), i, n - 1)
  }

  /** The part of the machine that the sequential specification speaks of. */
  ghost predicate Shows(s: System, i: nat, w: World) {
    s.log == w.log && s.nodes == w.graph.nodes && s.At(i).consumed == w.consumed
  }

  ghost predicate Ended(s: System, t: System, i: nat, r: Request, outcome: (World, Result<Authorized, Error>)) {
    && t.At(i).call.None?
    && t.replies == s.replies + [Reply(r, outcome.1)]
    && Shows(t, i, outcome.0)
  }

  lemma FinishStep(s: System, i: nat, r: Request, pc: Pc, n: nat)
    requires Running(s, i, r, pc) && n > 0
    ensures Finish(s, i, n) == Finish(Advance(s, i, r, pc), i, n - 1)
  {
  }

  lemma FinishEnded(s: System, i: nat, n: nat)
    requires s.At(i).call.None?
    ensures Finish(s, i, n) == s
  {
  }

  /** The insert that finds no row, and the audit rows behind it. */
  lemma SoloInsert(s: System, i: nat, r: Request, row: Consumption, w: World)
    requires r.decision.Some? && Shows(s, i, w)
    requires row == ConsumptionRow(r.decision.value, r.repository, r.Expected(), r.Node(), row.body.consumedAt)
    requires Running(s, i, r, Pc.Inserting(row)) && row.key !in s.log.consumptions
    ensures Ended(s, Finish(Advance(s, i, r, Pc.Inserting(row)), i, 2), i, r,
                  RecordResult(w, r.decision.value, r.repository, r.Expected(), r.Node(), row.body.consumedAt))
  {
    var s2 := Advance(s, i, r, Pc.Inserting(row));
    FinishStep(s2, i, r, AuditingMutation(row), 2);
    var s3 := Advance(s2, i, r, AuditingMutation(row));
    FinishStep(s3, i, r, AuditingConsumption(row), 1);
    var s4 := Advance(s3, i, r, AuditingConsumption(row));
    FinishEnded(s4, i, 0);
    var d, at := r.decision.value, row.body.consumedAt;
    var stored := s.log.(consumptions := s.log.consumptions[row.key := row]);
    assert s3.log == stored.Append(MutationRow(d, r.repository, r.Expected(), r.Node(), at));
    assert s4.log == s3.log.Append(ConsumedRow(d, r.repository, r.Expected(), at));
    assert s4.replies == s.replies + [Reply(r, Ok(Authorized(d.decisionId, r.Node(), false)))];
  }

  /** From the consumption read onwards. */
  lemma SoloRecord(s: System, i: nat, r: Request, row: Consumption, w: World)
    requires r.decision.Some? && Shows(s, i, w)
    requires row == ConsumptionRow(r.decision.value, r.repository, r.Expected(), r.Node(), row.body.consumedAt)
    requires Running(s, i, r, Pc.Selecting(row))
    ensures Ended(s, Finish(s, i, 4), i, r,
                  RecordResult(w, r.decision.value, r.repository, r.Expected(), r.Node(), row.body.consumedAt))
  {
    FinishStep(s, i, r, Pc.Selecting(row), 4);
    var s1 := Advance(s, i, r, Pc.Selecting(row));
    if row.key in s.log.consumptions {
      FinishEnded(s1, i, 3);
    } else {
      FinishStep(s1, i, r, Pc.Inserting(row), 3);
      SoloInsert(s1, i, r, row, w);
    }
  }

  /** From the inner service's checks onwards. */
  lemma SoloWrite(s: System, i: nat, r: Request, w: World)
    requires r.decision.Some? && Shows(s, i, w)
    requires Running(s, i, r, InnerChecking(s.clock))
    ensures var (graph, consumed, written) := InnerUpsert(w.graph, w.consumed, r.repository, r.adr, r.decision);
      Ended(s, Finish(s, i, 7), i, r,
            match written
            case Err(e) => (w, Err(e))
            case Ok(node) =>
              RecordResult(World(w.log, graph, consumed), r.decision.value, r.repository, r.Expected(), node, s.clock))
  {
    FinishStep(s, i, r, InnerChecking(s.clock), 7);
    var s1 := Advance(s, i, r, InnerChecking(s.clock));
    var valid := InnerValidate(w.consumed, r.repository, r.decision, r.Expected(), Some(r.adr.contentHash));
    if valid.Err? {
      FinishEnded(s1, i, 6);
    } else {
      FinishStep(s1, i, r, Writing(s.clock), 6);
      var s2 := Advance(s1, i, r, Writing(s.clock));
      if r.adr.repository != r.repository {
        FinishEnded(s2, i, 5);
      } else {
        FinishStep(s2, i, r, Marking(|s.writes|), 5);
        var s3 := Advance(s2, i, r, Marking(|s.writes|));
        var (graph, consumed, _) := InnerUpsert(w.graph, w.consumed, r.repository, r.adr, r.decision);
        var row := ConsumptionRow(r.decision.value, r.repository, r.Expected(), r.Node(), s.clock);
        SoloRecord(s3, i, r, row, World(w.log, graph, consumed));
      }
    }
  }

  lemma SoloChecks(s: System, i: nat, r: Request, w: World)
    requires Shows(s, i, w) && Running(s, i, r, Loading)
    ensures Ended(s, Finish(s, i, 9), i, r, AuthorizeUngated(w, r.repository, r.adr, r.decision, s.clock, s.clock, s.ttl, false))
  {
    var minted := if r.decision.Some? then s.log.GetMinted(r.decision.value.decisionId) else None;
    FinishStep(s, i, r, Loading, 9);
    var s2 := Advance(s, i, r, Loading);
    FinishStep(s2, i, r, Validating(minted), 8);
    var s3 := Advance(s2, i, r, Validating(minted));
    var valid := Validate(r.decision, r.repository, r.Expected(), CurrentContent(r.adr), s.clock, s.ttl, minted);
    assert s2.log == s.log && s3.log == s.log && s3.replies == s.replies && s3.clock == s.clock;
    if valid.Err? {
      FinishStep(s3, i, r, Rejecting(valid.error), 7);
      var s4 := Advance(s3, i, r, Rejecting(valid.error));
      FinishEnded(s4, i, 6);
    } else {
      assert r.decision == Some(valid.value);
      assert Running(s3, i, r, InnerChecking(s3.clock)) && Shows(s3, i, w);
      SoloWrite(s3, i, r, w);
    }
  }

  /** A call that meets no interference, no failure and no time passing does to the durable
      state, to its instance and to its caller what the sequential specification says. */
  lemma SoloCallIsAuthorize(s: System, i: nat, r: Request, w: World)
    requires s.At(i).call.None? && Presentable(s, r) && Shows(s, i, w)
    ensures Ended(s, Finish(MutationProtocol.Apply(s, Start(i, r)), i, 10), i, r,
                  Authorize(w, r.repository, r.adr, r.decision, s.clock, s.clock, s.ttl))
  {
    var s0 := MutationProtocol.Apply(s, Start(i, r));
    FinishStep(s0, i, r, Gating, 10);
    var s1 := Advance(s0, i, r, Gating);
    if Gate(s.log, r.repository, r.decision, r.Expected()).Some? {
      FinishEnded(s1, i, 9);
    } else {
      SoloChecks(s1, i, r, w);
    }
  }
}
