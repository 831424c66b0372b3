/** Several decisions published into the same directory, each by its own crashing publisher.
    For each of them the others are foreign commits, and harmless ones: their markers answer
    no search but their own. */
module SharedDirectory {
  import opened Numbering
  import opened Publication
  import Pp = PublicationProtocol

  /** One decision's part of the state. */
  datatype Local = Local(consumed: bool, record: Pp.Progress, pc: Pp.Pc, mine: seq<Entry>)

  datatype Shared = Shared(files: seq<Entry>, locals: map<string, Local>) {
    function Of(id: string): Local {
      if id in locals then locals[id] else Local(false, Pp.NoRecord, Pp.Resting, [])
    }

    /** The state as one decision's publisher sees it. */
    function View(id: string): Pp.State {
      Pp.State(files, Of(id).consumed, Of(id).record, Of(id).pc, Of(id).mine)
    }

    function With(id: string, t: Pp.State): Shared {
      Shared(t.files, locals[id := Local(t.consumed, t.record, t.pc, t.mine)])
    }
  }

  datatype Move = Act(id: string, step: Pp.Step) | Outside(files: seq<Entry>)

  ghost predicate HarmlessToAll(sites: map<string, Pp.Site>, before: seq<Entry>, after: seq<Entry>) {
    forall id :: id in sites ==> Pp.Harmless(sites[id], before, after)
  }

  ghost function Apply(sites: map<string, Pp.Site>, s: Shared, m: Move): Shared {
    match m
    case Act(id, step) =>
      if id !in sites || step.Foreign? then s else s.With(id, Pp.Apply(sites[id], s.View(id), step))
    case Outside(files) => if HarmlessToAll(sites, s.files, files) then s.(files := files) else s
  }

  ghost function Run(sites: map<string, Pp.Site>, moves: seq<Move>): Shared {
    if moves == [] then Shared([], map[])
    else Apply(sites, Run(sites, moves[..|moves| - 1]), moves[|moves| - 1])
  }

  /** Plain ids, none of them a prefix of another: UUIDs of one length, for example. */
  ghost predicate Separate(sites: map<string, Pp.Site>) {
    && (forall id :: id in sites ==> sites[id].decisionId == id && PlainId(id))
    && (forall a, b :: a in sites && b in sites && a != b ==> !(a <= b))
  }

  /** No published text mentions the marker of another decision. */
  ghost predicate Tactful(sites: map<string, Pp.Site>, moves: seq<Move>) {
    forall i, id :: 0 <= i < |moves| && moves[i].Act? && moves[i].step.Begin? && id in sites && id != moves[i].id ==>
      !Carries(moves[i].step.markdown, id)
  }

  // ------------------------------------------------------------------ what a decision writes

  /** What the publisher of `id` writes answers no other decision's search. */
  ghost predicate Quiet(sites: map<string, Pp.Site>, s: Shared, id: string) {
    forall other :: other in sites && other != id ==>
      && (s.Of(id).pc.AtHand().Some? ==> !Carries(s.Of(id).pc.AtHand().value.text, other))
      && (forall e :: e in s.Of(id).mine ==> !Carries(e.text, other))
  }

  /** A step creates at most the file of its job, and takes its job over or from a request. */
  lemma StepTexts(site: Pp.Site, s: Pp.State, step: Pp.Step)
    ensures var t := Pp.Apply(site, s, step);
      && (t.mine == s.mine ||
          (s.pc.AtHand().Some? && exists path :: t.mine == s.mine + [FileAt(path, s.pc.AtHand().value.text)]))
      && (t.pc.AtHand().Some? && t.pc.AtHand() != s.pc.AtHand() ==>
            step.Begin? && t.pc.AtHand().value.text == EmbedMarker(step.markdown, site.decisionId))
  {
    Pp.StepCreates(site, s, step);
    Pp.StepJobs(site, s, step);
  }

  lemma {:induction false} AllQuiet(sites: map<string, Pp.Site>, moves: seq<Move>, id: string)
    requires Separate(sites) && Tactful(sites, moves) && id in sites
    ensures Quiet(sites, Run(sites, moves), id)
  {
    if moves != [] {
      var n := |moves| - 1;
      var s, m := Run(sites, moves[..n]), moves[n];
      AllQuiet(sites, moves[..n], id);
      if m.Act? && m.id == id && !m.step.Foreign? {
        StepTexts(sites[id], s.View(id), m.step);
        var t := Run(sites, moves);
        forall other | other in sites && other != id
          ensures t.Of(id).pc.AtHand().Some? ==> !Carries(t.Of(id).pc.AtHand().value.text, other)
          ensures forall e :: e in t.Of(id).mine ==> !Carries(e.text, other)
        {
          if m.step.Begin? {
            PublishedFileCarries(other, m.step.markdown, id);
          }
        }
      }
    }
  }

  // ------------------------------------------------------------------ the others are foreign commits

  /** A step of a publisher leaves the files alone or adds one at a free path. */
  lemma StepFiles(site: Pp.Site, s: Pp.State, step: Pp.Step)
    requires !step.Foreign?
    ensures var t := Pp.Apply(site, s, step);
      t.files == s.files ||
      (s.pc.AtHand().Some? && exists path :: !Exists(s.files, path) && t.files == s.files + [FileAt(path, s.pc.AtHand().value.text)])
  {
    Pp.StepCreates(site, s, step);
  }

  lemma AddingIsHarmless(site: Pp.Site, files: seq<Entry>, path: string, text: string)
    requires Pp.Tidy(files) && !Exists(files, path) && !Carries(text, site.decisionId)
    ensures Pp.Harmless(site, files, files + [FileAt(path, text)])
  {
    var after := files + [FileAt(path, text)];
    forall i, j | 0 <= i < j < |after| ensures after[i].path != after[j].path {
      assert after[i] in files;
    }
  }

  /** Another decision's step is a harmless foreign commit. */
  lemma OthersAreHarmless(sites: map<string, Pp.Site>, s: Shared, m: Move, id: string)
    requires Separate(sites) && id in sites && m.Act? && m.id in sites && m.id != id && !m.step.Foreign?
    requires Pp.Tidy(s.files) && Quiet(sites, s, m.id)
    ensures Pp.Harmless(sites[id], s.files, Apply(sites, s, m).files)
  {
    StepFiles(sites[m.id], s.View(m.id), m.step);
    var after := Apply(sites, s, m).files;
    if after != s.files {
      var text := s.Of(m.id).pc.AtHand().value.text;
      var path :| !Exists(s.files, path) && after == s.files + [FileAt(path, text)];
      AddingIsHarmless(sites[id], s.files, path, text);
    }
  }

  ghost predicate OwnStep(m: Move, id: string) {
    m.Act? && m.id == id && !m.step.Foreign?
  }

  /** A move as one decision's publisher sees it: its own step, or a foreign commit. */
  ghost function Seen(sites: map<string, Pp.Site>, s: Shared, m: Move, id: string): Pp.Step {
    if OwnStep(m, id) then m.step else Pp.Foreign(Apply(sites, s, m).files)
  }

  ghost function Project(sites: map<string, Pp.Site>, moves: seq<Move>, id: string): seq<Pp.Step> {
    if moves == [] then []
    else
      var n := |moves| - 1;
      Project(sites, moves[..n], id) + [Seen(sites, Run(sites, moves[..n]), moves[n], id)]
  }

  lemma OtherMovesAreHarmless(sites: map<string, Pp.Site>, s: Shared, m: Move, id: string)
    requires Separate(sites) && id in sites && !OwnStep(m, id) && Pp.Tidy(s.files)
    requires m.Act? && m.id in sites ==> Quiet(sites, s, m.id)
    ensures Pp.Harmless(sites[id], s.files, Apply(sites, s, m).files)
  {
    if m.Act? && m.id in sites && !m.step.Foreign? {
      OthersAreHarmless(sites, s, m, id);
    }
  }

  lemma ViewMoves(sites: map<string, Pp.Site>, s: Shared, m: Move, id: string)
    requires id in sites
    requires !OwnStep(m, id) ==> Pp.Harmless(sites[id], s.files, Apply(sites, s, m).files)
    ensures Apply(sites, s, m).View(id) == Pp.Apply(sites[id], s.View(id), Seen(sites, s, m, id))
  {
    if OwnStep(m, id) {
      OwnView(s, id, Pp.Apply(sites[id], s.View(id), m.step));
    }
  }

  lemma OwnView(s: Shared, id: string, t: Pp.State)
    ensures s.With(id, t).View(id) == t
  {
  }

  /** Seen from one decision, a shared run is a run of its own publisher. */
  lemma {:induction false} Projected(sites: map<string, Pp.Site>, moves: seq<Move>, id: string)
    requires Separate(sites) && Tactful(sites, moves) && id in sites
    ensures Run(sites, moves).View(id) == Pp.Run(sites[id], Project(sites, moves, id))
  {
    if moves != [] {
      var n := |moves| - 1;
      var s, m, steps := Run(sites, moves[..n]), moves[n], Project(sites, moves[..n], id);
      Projected(sites, moves[..n], id);
      Pp.Reachable(sites[id], steps);
      if !OwnStep(m, id) {
        if m.Act? && m.id in sites {
          AllQuiet(sites, moves[..n], m.id);
        }
        OtherMovesAreHarmless(sites, s, m, id);
      }
      ViewMoves(sites, s, m, id);
      RunStep(sites[id], steps, Seen(sites, s, m, id));
    }
  }

  lemma RunStep(site: Pp.Site, steps: seq<Pp.Step>, step: Pp.Step)
    ensures Pp.Run(site, steps + [step]) == Pp.Apply(site, Pp.Run(site, steps), step)
  {
    assert (steps + [step])[..|steps|] == steps;
  }

  // ------------------------------------------------------------------ what holds of every shared run

  /** However the publishers of several decisions interleave in one directory, crash, lose
      their records and meet outside commits: each decision has at most one marked file, the
      file was created for this decision, and what its record names was created for it too. */
  lemma {:induction false} EachDecisionHasItsFile(sites: map<string, Pp.Site>, moves: seq<Move>, id: string)
    requires Separate(sites) && Tactful(sites, moves) && id in sites
    ensures var s := Run(sites, moves);
      && (forall e, f :: e in s.files && f in s.files && sites[id].Counted(e) && sites[id].Counted(f) ==> e == f)
      && (forall e :: e in s.files && sites[id].Counted(e) ==> e in s.Of(id).mine)
      && (s.Of(id).record.CommittedRecord? ==> Pp.Owned(s.View(id), s.Of(id).record.path))
  {
    var s, steps := Run(sites, moves), Project(sites, moves, id);
    Projected(sites, moves, id);
    Pp.MarkedFilesAreOwn(sites[id], steps);
    forall e, f | e in s.files && f in s.files && sites[id].Counted(e) && sites[id].Counted(f) ensures e == f {
      Pp.AtMostOneMarkedFile(sites[id], steps, e, f);
    }
  }

  /** ... and no file is found for two decisions. */
  lemma {:induction false} NoFileHasTwoDecisions(sites: map<string, Pp.Site>, moves: seq<Move>, e: Entry, a: string, b: string)
    requires Separate(sites) && Tactful(sites, moves) && a in sites && b in sites
    requires e in Run(sites, moves).files && sites[a].Counted(e) && sites[b].Counted(e)
    ensures a == b
  {
    EachDecisionHasItsFile(sites, moves, a);
    AllQuiet(sites, moves, a);
  }
}
