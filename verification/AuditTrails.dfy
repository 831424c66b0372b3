/** What a decision's audit trail says of its mutation in runs where anything may fail: the
    node it names was written, and the row that tells of the mutation may be missing for good. */
module AuditTrails {
  import opened Prelude
  import opened Hashing
  import opened Domain
  import opened Approval
  import opened Mutation
  import opened MutationProtocol
  import opened SoloCall
  import opened LostWrites

  ghost predicate Rowed(log: Log, id: string) {
    exists e :: e in log.audit && RowOf(e, MutationPerformed, id)
  }

  /** A trail tells of a mutation by a row of the audit log and names its node by the
      consumption, whichever of the two there is. */
  lemma TrailReads(log: Log, id: string)
    ensures var trail := TrailOf(log, id);
      && (trail.WasMutated() <==> Rowed(log, id))
      && (trail.MutationNode().Some? <==> id in log.consumptions)
      && (id in log.consumptions ==> trail.MutationNode() == Some(log.consumptions[id].body.nodeId))
  {
    forall e ensures e in log.Trail(id) <==> e in log.audit && e.decisionId == Some(id) {
      FilterMember(log.audit, (x: AuditEvent) => x.decisionId == Some(id), e);
    }
    if Rowed(log, id) {
      var e :| e in log.audit && RowOf(e, MutationPerformed, id);
      assert e in log.Trail(id);
    }
  }

  /** At every moment of every run: a trail that tells of a mutation names a node, and a node
      that a trail names was written under the decision. */
  lemma {:induction false} TrailsNameWrites(ttl: int, steps: seq<Step>, id: string)
    ensures var s := Run(ttl, steps); var trail := TrailOf(s.log, id);
      && (trail.WasMutated() ==> trail.MutationNode().Some?)
      && (trail.MutationNode().Some? ==> WrittenFor(s, id, trail.MutationNode().value))
  {
    var s := Run(ttl, steps);
    TrailReads(s.log, id);
    Reachable(ttl, steps);
    if id in s.log.consumptions {
      EveryConsumptionIsBacked(ttl, steps, id);
    }
  }

  // ------------------------------------------------------------------ rows that never come

  /** Some instance is about to write the decision's mutation row. */
  ghost predicate Due(s: System, id: string) {
    exists i: nat :: Owes(s.At(i), id)
  }

  ghost predicate Owes(inst: Instance, id: string) {
    inst.call.Some? && inst.call.value.pc.AuditingMutation? && inst.call.value.pc.row.key == id
  }

  /** The decision is consumed, without its row and with nobody left to write it. */
  ghost predicate Silent(s: System, id: string) {
    id in s.log.consumptions && !Rowed(s.log, id) && !Due(s, id)
  }

  /** One step of `i` that adds no such row and owes none keeps a silent decision silent. */
  lemma SilentFrame(s: System, t: System, i: nat, id: string)
    requires Silent(s, id) && id in t.log.consumptions
    requires forall j: nat :: j != i ==> t.At(j) == s.At(j)
    requires !Owes(t.At(i), id) || t.At(i) == s.At(i)
    requires forall e :: e in t.log.audit && RowOf(e, MutationPerformed, id) ==> e in s.log.audit
    ensures Silent(t, id)
  {
    forall j: nat ensures !Owes(t.At(j), id) {
      assert !Owes(s.At(j), id);
    }
  }

  lemma AdvanceOwesNothing(s: System, i: nat, r: Request, pc: Pc, id: string)
    requires Running(s, i, r, pc) && id in s.log.consumptions && !Owes(s.At(i), id)
    ensures !Owes(Advance(s, i, r, pc).At(i), id)
  {
    if pc.Gating? || pc.Loading? || pc.Validating? || pc.InnerChecking? {
      CheckingShaped(s, i, r, pc);
    } else if (pc.Selecting? || pc.Reselecting?) && pc.row.key in s.log.consumptions {
      SettleShaped(s, i, r, pc, pc.row);
    }
  }

  /** A statement that owes the decision no row appends none for it. */
  lemma AdvanceAddsNoRow(s: System, i: nat, r: Request, pc: Pc, id: string)
    requires CallOk(s, s.At(i)) && Running(s, i, r, pc) && !Owes(s.At(i), id)
    ensures forall e :: e in Advance(s, i, r, pc).log.audit && RowOf(e, MutationPerformed, id) ==> e in s.log.audit
  {
    if pc.Gating? || pc.Loading? || pc.Validating? || pc.InnerChecking? {
      CheckingLeavesTheLog(s, i, r, pc);
    } else if (pc.Selecting? || pc.Reselecting?) && pc.row.key in s.log.consumptions {
      SettleLeavesTheLog(s, i, r, pc.row);
    }
  }

  lemma AdvanceStaysSilent(s: System, i: nat, r: Request, pc: Pc, id: string)
    requires CallOk(s, s.At(i)) && Running(s, i, r, pc) && Silent(s, id)
    ensures Silent(Advance(s, i, r, pc), id)
  {
    assert !Owes(s.At(i), id);
    AdvanceOwesNothing(s, i, r, pc, id);
    AdvanceAddsNoRow(s, i, r, pc, id);
    ConsumptionsStay(s, i, r, pc);
    forall j: nat | j != i ensures Advance(s, i, r, pc).At(j) == s.At(j) {
      AdvanceLeavesOthers(s, i, r, pc, j);
    }
    SilentFrame(s, Advance(s, i, r, pc), i, id);
  }

  lemma OtherStepAddsNoRow(s: System, step: Step, id: string)
    requires !step.Go?
    ensures forall e :: e in Apply(s, step).log.audit && RowOf(e, MutationPerformed, id) ==> e in s.log.audit
  {
  }

  lemma OtherStaysSilent(s: System, step: Step, id: string)
    requires Silent(s, id) && !step.Go?
    ensures Silent(Apply(s, step), id)
  {
    var i := if step.Start? || step.Fail? || step.Crash? then step.instance else 0;
    OtherStepMoves(s, step, i);
    OtherStepAddsNoRow(s, step, id);
    SilentFrame(s, Apply(s, step), i, id);
  }

  lemma StepStaysSilent(ttl: int, steps: seq<Step>, step: Step, id: string)
    requires Silent(Run(ttl, steps), id)
    ensures Silent(Run(ttl, steps + [step]), id)
  {
    var s := Run(ttl, steps);
    assert (steps + [step])[..|steps|] == steps;
    if !step.Go? {
      OtherStaysSilent(s, step, id);
    } else if s.At(step.instance).call.Some? {
      Reachable(ttl, steps);
      AdvanceStaysSilent(s, step.instance, s.At(step.instance).call.value.request, s.At(step.instance).call.value.pc, id);
    }
  }

  /** Once a consumed decision has no mutation row and nobody owes it one, its trail names the
      node and denies the mutation in every continuation of the run. */
  lemma {:induction false} RowsNeverCome(ttl: int, steps: seq<Step>, more: seq<Step>, id: string)
    requires Silent(Run(ttl, steps), id)
    ensures Silent(Run(ttl, steps + more), id)
    ensures var trail := TrailOf(Run(ttl, steps + more).log, id); trail.MutationNode().Some? && !trail.WasMutated()
    decreases |more|
  {
    if more == [] {
      assert steps + more == steps;
    } else {
      var n := |more| - 1;
      RowsNeverCome(ttl, steps, more[..n], id);
      StepStaysSilent(ttl, steps + more[..n], more[n], id);
      assert steps + more[..n] + [more[n]] == steps + more;
    }
    TrailReads(Run(ttl, steps + more).log, id);
  }

  // ------------------------------------------------------------------ such runs exist

  /** From just behind the graph write: mark, find no consumption, insert one. */
  lemma MarkAndInsert(s: System, i: nat, r: Request)
    requires Ready(s, i, r)
    ensures var t := Finish(WrittenBy(s, i, r), i, 3); var id := r.decision.value.decisionId;
      && t.log.audit == s.log.audit && id in t.log.consumptions
      && (forall j: nat :: j != i ==> t.At(j) == s.At(j))
  {
    var d := r.decision.value;
    var s1 := WrittenBy(s, i, r);
    FinishStep(s1, i, r, Marking(|s.writes|), 3);
    var row := ConsumptionRow(d, r.repository, r.Expected(), r.Node(), s.clock);
    var s2 := Advance(s1, i, r, Marking(|s.writes|));
    FinishStep(s2, i, r, Pc.Selecting(row), 2);
    var s3 := Advance(s2, i, r, Pc.Selecting(row));
    FinishStep(s3, i, r, Pc.Inserting(row), 1);
  }

  lemma CrashSilences(s: System, t: System, i: nat, id: string)
    requires !Rowed(s.log, id) && t.log.audit == s.log.audit && id in t.log.consumptions
    requires forall j: nat :: j != i ==> t.At(j) == s.At(j) && s.At(j).call.None?
    ensures Silent(Apply(t, Crash(i)), id)
  {
    var u := Apply(t, Crash(i));
    forall j: nat ensures !Owes(u.At(j), id) {
      if j != i {
        assert u.At(j) == t.At(j);
      }
    }
  }

  lemma RunToInsert(ttl: int, first: seq<Step>, i: nat, r: Request)
    requires Ready(Run(ttl, first), i, r) && AllLost(Run(ttl, first), i, r.decision.value.decisionId)
    ensures Run(ttl, first + ToWrite(i, r) + Goes(i, 3)) == Finish(WrittenBy(Run(ttl, first), i, r), i, 3)
  {
    var s := Run(ttl, first);
    RetryWritesExactly(ttl, first, i, r);
    RunContinues(ttl, first + ToWrite(i, r), Goes(i, 3));
    GoesFinish(WrittenBy(s, i, r), i, 3);
  }

  /** From the empty system: every record that can be written at all can be written and
      consumed without its trail ever telling of the mutation. The process stops between the
      consumption and its row. */
  lemma RowsCanBeLost(ttl: int, adr: ADRRecord) returns (steps: seq<Step>, id: string)
    requires adr.markdown == "" || CanonicalHash(adr.markdown) == adr.contentHash
    ensures Silent(Run(ttl, steps), id) && WrittenFor(Run(ttl, steps), id, Run(ttl, steps).log.consumptions[id].body.nodeId)
  {
    var first, r := AnyRecordGetsReady(ttl, adr, 0);
    id := r.decision.value.decisionId;
    assert !Rowed(Run(ttl, first).log, id) by {
      TrailsNameWrites(ttl, first, id);
      TrailReads(Run(ttl, first).log, id);
    }
    RunToInsert(ttl, first, 0, r);
    MarkAndInsert(Run(ttl, first), 0, r);
    var before := first + ToWrite(0, r) + Goes(0, 3);
    var t := Run(ttl, before);
    CrashSilences(Run(ttl, first), t, 0, id);
    assert (before + [Crash(0)])[..|before|] == before;
    steps := before + [Crash(0)];
    EveryConsumptionIsBacked(ttl, steps, id);
  }
}
