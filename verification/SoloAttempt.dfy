/** One attempt of the small-step publisher, run without interference, is the attempt of the
    sequential `commit` that the committer class is proved against. */
module SoloAttempt {
  import opened Prelude
  import opened Publication
  import Pp = PublicationProtocol

  /** `n` statements of the publisher with the same provider answer. */
  function Drive(site: Pp.Site, s: Pp.State, answer: Answer, n: nat): Pp.State
    decreases n
  {
    if n == 0 then s else Drive(site, Pp.Advance(site, s, true, answer), answer, n - 1)
  }

  lemma {:induction false} DriveTogether(site: Pp.Site, s: Pp.State, answer: Answer, m: nat, n: nat)
    ensures Drive(site, s, answer, m + n) == Drive(site, Drive(site, s, answer, m), answer, n)
    decreases m
  {
    if m > 0 {
      DriveTogether(site, Pp.Advance(site, s, true, answer), answer, m - 1, n);
    }
  }

  /** The job belongs to the site, and the listed entries are entries of the tidy directory. */
  ghost predicate Fits(site: Pp.Site, s: Pp.State, job: Job, entries: seq<Entry>) {
    && Pp.Tidy(s.files)
    && job.decisionId == site.decisionId && job.destination.directory == site.directory
    && forall e :: e in entries ==> e in s.files
  }

  function FirstMarked(job: Job, entries: seq<Entry>): Option<string> {
    var marked := Filter(entries, (e: Entry) => job.Marked(e));
    if marked == [] then None else Some(marked[0].path)
  }

  /** Reading a listed file shows the text the listing stands for. */
  lemma LookIsMarked(site: Pp.Site, s: Pp.State, job: Job, e: Entry)
    requires Fits(site, s, job, [e])
    ensures Pp.Look(site, s.files, e, None) == if job.Marked(e) then Some(e.path) else None
  {
    assert e in [e];
    Pp.ReadsTheFile(s.files, e.path);
  }

  function SearchState(s: Pp.State, job: Job, left: nat, listed: seq<Entry>, unread: seq<Entry>, hit: Option<string>): Pp.State {
    s.(pc := Pp.Searching(job, left, listed, unread, hit))
  }

  /** The reading loop ends with the first marked entry. */
  lemma {:induction false} SoloSearch(site: Pp.Site, s: Pp.State, job: Job, left: nat, listed: seq<Entry>,
                                      unread: seq<Entry>, hit: Option<string>, answer: Answer)
    requires Fits(site, s, job, unread)
    ensures Drive(site, SearchState(s, job, left, listed, unread, hit), answer, |unread|)
         == SearchState(s, job, left, listed, [], if hit.Some? then hit else FirstMarked(job, unread))
    decreases |unread|
  {
    if unread != [] {
      assert unread[0] in unread;
      LookIsMarked(site, s, job, unread[0]);
      var next := Pp.Look(site, s.files, unread[0], hit);
      SoloSearch(site, s, job, left, listed, unread[1..], next, answer);
    }
  }

  /** What an attempt leaves behind, as the sequential specification says it. */
  ghost predicate Ends(s: Pp.State, t: Pp.State, job: Job, left: nat, outcome: (seq<Entry>, seq<Turn>, Option<CommitResult>))
    requires left > 0
  {
    && t.files == outcome.0
    && match outcome.2
       case None => t.pc == Pp.Attempting(job, left - 1) && t.mine == s.mine
       case Some(Done(path, _, created)) =>
         t.pc == Pp.Finalizing(job.destination.template, path) && t.mine == if created then s.mine + [FileAt(path, job.text)] else s.mine
       case Some(_) => t.pc == Pp.Resting && t.mine == s.mine
  }

  /** Both reach the same decision when the marked file is found ... */
  lemma SoloFound(site: Pp.Site, s: Pp.State, job: Job, left: nat, listed: seq<Entry>, answer: Answer)
    requires left > 0 && listed == Listing(s.files, job.destination.directory) && FirstMarked(job, listed).Some?
    ensures Ends(s, Pp.Advance(site, SearchState(s, job, left, listed, [], FirstMarked(job, listed)), true, answer), job, left,
                 Attempt(s.files, [Turn([], answer)], PlanOf(job)))
  {
    assert PlanOf(job).marked(s.files) == Filter(listed, (e: Entry) => job.Marked(e));
  }

  /** The create step, for any next path. */
  function CreateStep(s: Pp.State, job: Job, left: nat, path: string, answer: Answer): Pp.State
    requires left > 0
  {
    match answer
    case Break => s.(pc := Pp.Resting)
    case Refuse => s.(pc := Pp.Attempting(job, left - 1))
    case Accept(_) =>
      if Exists(s.files, path) then s.(pc := Pp.Attempting(job, left - 1))
      else s.(files := s.files + [FileAt(path, job.text)], mine := s.mine + [FileAt(path, job.text)], pc := Pp.Finalizing(job.destination.template, path))
  }

  lemma CreateStepEnds(s: Pp.State, job: Job, left: nat, plan: Plan, answer: Answer)
    requires left > 0 && plan.marked(s.files) == [] && plan.text == job.text
    ensures Ends(s, CreateStep(s, job, left, plan.pathFor(s.files), answer), job, left, Attempt(s.files, [Turn([], answer)], plan))
  {
    assert s.files + [] == s.files;
  }

  lemma CreatingIsCreateStep(site: Pp.Site, s: Pp.State, job: Job, left: nat, listed: seq<Entry>, answer: Answer)
    requires left > 0
    ensures Pp.Advance(site, s.(pc := Pp.Creating(job, left, listed)), true, answer)
         == CreateStep(s, job, left, Pp.PathAfter(job, listed), answer)
  {
  }

  /** ... and when a new one is created at the next path. */
  lemma SoloCreated(site: Pp.Site, s: Pp.State, job: Job, left: nat, listed: seq<Entry>, answer: Answer)
    requires left > 0 && listed == Listing(s.files, job.destination.directory) && FirstMarked(job, listed).None?
    ensures Ends(s, Pp.Advance(site, s.(pc := Pp.Creating(job, left, listed)), true, answer), job, left,
                 Attempt(s.files, [Turn([], answer)], PlanOf(job)))
  {
    var plan := PlanOf(job);
    assert plan.marked(s.files) == [];
    assert plan.pathFor(s.files) == Pp.PathAfter(job, listed);
    CreatingIsCreateStep(site, s, job, left, listed, answer);
    CreateStepEnds(s, job, left, plan, answer);
  }

  lemma DriveVia(site: Pp.Site, s: Pp.State, answer: Answer, m: nat, t: Pp.State)
    requires Drive(site, s, answer, m) == t
    ensures Drive(site, s, answer, m + 1) == Pp.Advance(site, t, true, answer)
  {
    DriveTogether(site, s, answer, m, 1);
    assert Drive(site, Pp.Advance(site, t, true, answer), answer, 0) == Pp.Advance(site, t, true, answer);
  }

  /** Listing and reading take the publisher to the end of its search. */
  lemma SoloReads(site: Pp.Site, s: Pp.State, job: Job, left: nat, listed: seq<Entry>, answer: Answer)
    requires s.pc == Pp.Attempting(job, left) && left > 0
    requires Fits(site, s, job, []) && listed == Listing(s.files, job.destination.directory)
    ensures Drive(site, s, answer, 1 + |listed|) == SearchState(s, job, left, listed, [], FirstMarked(job, listed))
  {
    ListedIsThere(s.files, job.destination.directory);
    assert Pp.Advance(site, s, true, answer) == SearchState(s, job, left, listed, listed, None);
    SoloSearch(site, s, job, left, listed, listed, None, answer);
  }

  /** An uninterfered attempt lists, reads every listed file, and then recovers the marked one
      or creates the next path: exactly the sequential attempt. */
  lemma SoloAttemptIsAttempt(site: Pp.Site, s: Pp.State, job: Job, left: nat, answer: Answer) returns (n: nat)
    requires s.pc == Pp.Attempting(job, left) && left > 0
    requires Fits(site, s, job, [])
    ensures Ends(s, Drive(site, s, answer, n), job, left, Attempt(s.files, [Turn([], answer)], PlanOf(job)))
  {
    var listed := Listing(s.files, job.destination.directory);
    var read := SearchState(s, job, left, listed, [], FirstMarked(job, listed));
    SoloReads(site, s, job, left, listed, answer);
    DriveVia(site, s, answer, 1 + |listed|, read);
    n := 1 + |listed| + 1;
    if FirstMarked(job, listed).Some? {
      SoloFound(site, s, job, left, listed, answer);
    } else {
      var creating := s.(pc := Pp.Creating(job, left, listed));
      assert Pp.Advance(site, read, true, answer) == creating;
      DriveVia(site, s, answer, n, creating);
      n := n + 1;
      SoloCreated(site, s, job, left, listed, answer);
    }
  }

  lemma ListedIsThere(files: seq<Entry>, directory: string)
    ensures forall e :: e in Listing(files, directory) ==> e in files
  {
    forall e | e in Listing(files, directory) ensures e in files {
      FilterMember(files, (x: Entry) => x.directory == directory, e);
    }
  }
}
