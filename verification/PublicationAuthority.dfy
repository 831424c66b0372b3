/** Nothing of a publication happens without authority: every file and every record of a run
    goes back to a call that was authorised in time, for a consumed decision. */
module PublicationAuthority {
  import opened Publication
  import opened PublicationProtocol

  /** Step `i` of the run let the call with this job through: the check was in time, the
      decision was consumed, and the record did not contradict the job's template. */
  ghost predicate LetThrough(site: Site, steps: seq<Step>, i: nat, job: Job) {
    && i < |steps| && steps[i].Go? && steps[i].inTime
    && var s := Run(site, steps[..i]);
       s.pc == Authorizing(job) && s.consumed && s.record.Admits(job.destination.template)
  }

  ghost predicate Entitled(site: Site, steps: seq<Step>, job: Job) {
    exists i: nat :: LetThrough(site, steps, i, job)
  }

  ghost predicate EntitledText(site: Site, steps: seq<Step>, text: string) {
    exists job :: Entitled(site, steps, job) && job.text == text
  }

  ghost predicate EntitledTemplate(site: Site, steps: seq<Step>, template: string) {
    exists job :: Entitled(site, steps, job) && job.destination.template == template
  }

  lemma EntitledStays(site: Site, steps: seq<Step>, step: Step, job: Job)
    requires Entitled(site, steps, job)
    ensures Entitled(site, steps + [step], job)
  {
    var i: nat :| LetThrough(site, steps, i, job);
    assert (steps + [step])[..i] == steps[..i];
    assert LetThrough(site, steps + [step], i, job);
  }

  lemma TextStays(site: Site, steps: seq<Step>, step: Step, text: string)
    requires EntitledText(site, steps, text)
    ensures EntitledText(site, steps + [step], text)
  {
    var job :| Entitled(site, steps, job) && job.text == text;
    EntitledStays(site, steps, step, job);
  }

  lemma TemplateStays(site: Site, steps: seq<Step>, step: Step, template: string)
    requires EntitledTemplate(site, steps, template)
    ensures EntitledTemplate(site, steps + [step], template)
  {
    var job :| Entitled(site, steps, job) && job.destination.template == template;
    EntitledStays(site, steps, step, job);
  }

  ghost predicate Traced(site: Site, steps: seq<Step>, s: State) {
    && (s.pc.AtHand().Some? && !s.pc.Authorizing? ==> Entitled(site, steps, s.pc.AtHand().value))
    && (s.pc.Finalizing? ==> EntitledTemplate(site, steps, s.pc.template))
    && (!s.record.NoRecord? ==> EntitledTemplate(site, steps, s.record.template))
    && (forall e :: e in s.mine ==> EntitledText(site, steps, e.text))
  }

  lemma TracedStays(site: Site, steps: seq<Step>, step: Step, s: State)
    requires Traced(site, steps, s)
    ensures Traced(site, steps + [step], s)
  {
    if s.pc.AtHand().Some? && !s.pc.Authorizing? { EntitledStays(site, steps, step, s.pc.AtHand().value); }
    if s.pc.Finalizing? { TemplateStays(site, steps, step, s.pc.template); }
    if !s.record.NoRecord? { TemplateStays(site, steps, step, s.record.template); }
    forall e | e in s.mine ensures EntitledText(site, steps + [step], e.text) {
      TextStays(site, steps, step, e.text);
    }
  }

  /** A statement of a call hands its authority on. */
  lemma AdvanceTraced(site: Site, steps: seq<Step>, s: State, inTime: bool, answer: Answer)
    requires Traced(site, steps, s)
    requires s.pc.Authorizing? && inTime && s.consumed && s.record.Admits(s.pc.job.destination.template) ==>
               Entitled(site, steps, s.pc.job)
    ensures Traced(site, steps, Advance(site, s, inTime, answer))
  {
    var t := Advance(site, s, inTime, answer);
    AdvanceCreates(site, s, inTime, answer);
    forall e | e in t.mine ensures EntitledText(site, steps, e.text) {
      if e !in s.mine {
        assert Entitled(site, steps, s.pc.job) && s.pc.job.text == e.text;
      }
    }
  }

  lemma StepTraced(site: Site, steps: seq<Step>, step: Step)
    requires Traced(site, steps, Run(site, steps))
    ensures Traced(site, steps + [step], Run(site, steps + [step]))
  {
    var s := Run(site, steps);
    var more := steps + [step];
    assert more[..|steps|] == steps;
    TracedStays(site, steps, step, s);
    if step.Go? {
      if s.pc.Authorizing? && step.inTime && s.consumed && s.record.Admits(s.pc.job.destination.template) {
        assert LetThrough(site, more, |steps|, s.pc.job);
      }
      AdvanceTraced(site, more, s, step.inTime, step.answer);
    } else if step.LandUnseen? && s.pc.Creating? {
      UnseenTraced(site, more, s);
    }
  }

  lemma UnseenTraced(site: Site, steps: seq<Step>, s: State)
    requires Traced(site, steps, s) && s.pc.Creating?
    ensures Traced(site, steps, LandedUnseen(s))
  {
    forall e | e in LandedUnseen(s).mine ensures EntitledText(site, steps, e.text) {
      if e !in s.mine {
        assert Entitled(site, steps, s.pc.job) && s.pc.job.text == e.text;
      }
    }
  }

  lemma {:induction false} ReachableTraced(site: Site, steps: seq<Step>)
    ensures Traced(site, steps, Run(site, steps))
  {
    if steps != [] {
      var n := |steps| - 1;
      ReachableTraced(site, steps[..n]);
      StepTraced(site, steps[..n], steps[n]);
      assert steps[..n] + [steps[n]] == steps;
    }
  }

  /** In every run: a file was only ever created with the text of a call that was let through,
      and a record only ever stands for the template of one. */
  lemma NothingWithoutAuthority(site: Site, steps: seq<Step>)
    ensures var s := Run(site, steps);
      && (forall e :: e in s.mine ==> EntitledText(site, steps, e.text))
      && (!s.record.NoRecord? ==> EntitledTemplate(site, steps, s.record.template))
  {
    ReachableTraced(site, steps);
  }

  /** A run in which no check is in time creates nothing and records nothing. */
  lemma LateRunsLeaveNothing(site: Site, steps: seq<Step>)
    requires forall i :: 0 <= i < |steps| && steps[i].Go? ==> !steps[i].inTime
    ensures Run(site, steps).mine == [] && Run(site, steps).record.NoRecord?
  {
    ReachableTraced(site, steps);
  }
}
