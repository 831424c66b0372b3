/** One publisher of one decision as small steps: list, read each file, decide, create,
    finalise. It may crash anywhere (also between a create and its finalisation), its record
    store may be lost, a create may land and still be answered as a conflict, requests may name
    other templates of the directory than before, and foreign commits that do not carry this
    decision's marker may land between any two steps. */
module PublicationProtocol {
  import opened Prelude
  import opened Text
  import opened Numbering
  import opened Publication

  /** What is fixed: the directory of the branch, and the retry budget. */
  datatype Site = Site(branch: string, directory: string, decisionId: string, maxAttempts: nat) {
    function JobFor(slug: string, markdown: string, template: string): Job {
      Job(ResolveDestination(branch, template), decisionId, slug, EmbedMarker(markdown, decisionId))
    }

    /** A file of the directory that the marker search finds. */
    predicate Counted(e: Entry) {
      e.directory == directory && e.isFile && IsMarkdown(e.name) && Carries(e.text, decisionId)
    }
  }

  datatype Pc =
    | Resting
    | Authorizing(job: Job)
    | Attempting(job: Job, left: nat)
    | Searching(job: Job, left: nat, listed: seq<Entry>, unread: seq<Entry>, hit: Option<string>)
    | Creating(job: Job, left: nat, listed: seq<Entry>)
    | Finalizing(template: string, path: string)
  {
    /** The job of a call that has not decided on a path yet. */
    function AtHand(): Option<Job> {
      match this
      case Authorizing(job) => Some(job)
      case Attempting(job, _) => Some(job)
      case Searching(job, _, _, _, _) => Some(job)
      case Creating(job, _, _) => Some(job)
      case _ => None
    }
  }

  /** The decision's publication record: its status with the template of its target, and with
      the path once committed. */
  datatype Progress =
    | NoRecord
    | PendingRecord(template: string)
    | DeadRecord(template: string)
    | CommittedRecord(template: string, path: string)
  {
    /** A request for this template does not contradict the record. */
    predicate Admits(t: string) {
      NoRecord? || template == t
    }
  }

  /** `mine` lists the files this publisher ever created. */
  datatype State = State(files: seq<Entry>, consumed: bool, record: Progress, pc: Pc, mine: seq<Entry>)

  datatype Step =
    | Consume
    | Begin(slug: string, markdown: string, template: string)
    | Go(inTime: bool, answer: Answer)
    | LandUnseen
    | Crash
    | LoseRecords
    | Foreign(files: seq<Entry>)

  const INIT := State([], false, NoRecord, Resting, [])

  /** An entry's name and directory are the halves of its path. */
  predicate Named(e: Entry) {
    e.directory == Dirname(e.path) && e.name == Basename(e.path)
  }

  ghost predicate Tidy(files: seq<Entry>) {
    && (forall i, j :: 0 <= i < j < |files| ==> files[i].path != files[j].path)
    && (forall e :: e in files ==> Named(e))
  }

  /** Foreign commits may add, change and remove anything, but bring no file that the search
      for this decision would find. */
  ghost predicate Harmless(site: Site, before: seq<Entry>, after: seq<Entry>) {
    Tidy(after) && forall e :: e in after && site.Counted(e) ==> e in before
  }

  function ReadFile(files: seq<Entry>, path: string): Option<string> {
    if files == [] then None
    else if files[0].path == path then (if files[0].isFile then Some(files[0].text) else None)
    else ReadFile(files[1..], path)
  }

  /** Reading one listed entry during the search. */
  function Look(site: Site, files: seq<Entry>, e: Entry, hit: Option<string>): Option<string> {
    if hit.Some? || !e.isFile || !IsMarkdown(e.name) then hit
    else match ReadFile(files, e.path)
         case Some(text) => if Carries(text, site.decisionId) then Some(e.path) else None
         case None => None
  }

  function PathAfter(job: Job, listed: seq<Entry>): string {
    RenderAdrPath(job.destination.template, NextAdrNumber(Map(listed, (e: Entry) => e.name)), job.slug, job.destination.width)
  }

  /** Finalising reconciles with the record that is there. */
  function Closed(s: State, record: Progress): State
    requires !record.NoRecord?
  {
    s.(record := if s.record.Admits(record.template) then record else s.record, pc := Resting)
  }

  function Landed(s: State, path: string, text: string): State {
    s.(files := s.files + [FileAt(path, text)], mine := s.mine + [FileAt(path, text)])
  }

  function Advance(site: Site, s: State, inTime: bool, answer: Answer): State {
    match s.pc
    case Resting => s
    case Authorizing(job) =>
      if !inTime || !s.consumed || !s.record.Admits(job.destination.template) then s.(pc := Resting)
      else s.(record := if s.record.NoRecord? then PendingRecord(job.destination.template) else s.record,
              pc := Attempting(job, site.maxAttempts))
    case Attempting(job, left) =>
      if left == 0 then Closed(s, DeadRecord(job.destination.template))
      else
        var listed := Listing(s.files, site.directory);
        s.(pc := Searching(job, left, listed, listed, None))
    case Searching(job, left, listed, unread, hit) =>
      if unread != [] then s.(pc := Searching(job, left, listed, unread[1..], Look(site, s.files, unread[0], hit)))
      else if hit.Some? then s.(pc := Finalizing(job.destination.template, hit.value))
      else s.(pc := Creating(job, left, listed))
    case Creating(job, left, listed) =>
      var path := PathAfter(job, listed);
      (match answer
       case Break => s.(pc := Resting)
       case Refuse => s.(pc := Attempting(job, if left > 0 then left - 1 else 0))
       case Accept(sha) =>
         if Exists(s.files, path) then s.(pc := Attempting(job, if left > 0 then left - 1 else 0))
         else Landed(s, path, job.text).(pc := Finalizing(job.destination.template, path)))
    case Finalizing(template, path) => Closed(s, CommittedRecord(template, path))
  }

  /** The create lands, and the publisher is told of a conflict. */
  function LandedUnseen(s: State): State
    requires s.pc.Creating?
  {
    var path := PathAfter(s.pc.job, s.pc.listed);
    if Exists(s.files, path) then s
    else Landed(s, path, s.pc.job.text).(pc := Attempting(s.pc.job, if s.pc.left > 0 then s.pc.left - 1 else 0))
  }

  /** A step that is not enabled changes nothing. A committed record answers without a commit,
      and any record refuses another template. */
  ghost function Apply(site: Site, s: State, step: Step): State {
    match step
    case Consume => s.(consumed := true)
    case Begin(slug, markdown, template) =>
      if !s.pc.Resting? || s.record.CommittedRecord? || !s.record.Admits(template) || Dirname(template) != site.directory then s
      else s.(pc := Authorizing(site.JobFor(slug, markdown, template)))
    case Go(inTime, answer) => Advance(site, s, inTime, answer)
    case LandUnseen => if s.pc.Creating? then LandedUnseen(s) else s
    case Crash => s.(pc := Resting)
    case LoseRecords => s.(record := NoRecord)
    case Foreign(files) => if Harmless(site, s.files, files) then s.(files := files) else s
  }

  ghost function Run(site: Site, steps: seq<Step>): State {
    if steps == [] then INIT else Apply(site, Run(site, steps[..|steps| - 1]), steps[|steps| - 1])
  }

  // ------------------------------------------------------------------ the invariant

  ghost predicate AtMostOne(site: Site, files: seq<Entry>) {
    forall i, j :: 0 <= i < j < |files| ==> !(site.Counted(files[i]) && site.Counted(files[j]))
  }

  /** Only the file at `path` can be a marked one. */
  ghost predicate OnlyAt(site: Site, files: seq<Entry>, path: string) {
    forall e :: e in files && site.Counted(e) ==> e.path == path
  }

  ghost predicate PcOk(site: Site, s: State) {
    match s.pc
    case Resting => true
    case Authorizing(job) => JobOk(site, job) && !s.record.CommittedRecord?
    case Attempting(job, _) => JobOk(site, job) && !s.record.CommittedRecord? && s.consumed
    case Searching(job, _, _, unread, hit) =>
      && JobOk(site, job) && !s.record.CommittedRecord? && s.consumed
      && (forall u :: u in unread ==> Named(u) && u.directory == site.directory)
      && (match hit
          case None => forall e :: e in s.files && site.Counted(e) ==> e in unread
          case Some(path) => OnlyAt(site, s.files, path))
    case Creating(job, _, _) =>
      && JobOk(site, job) && !s.record.CommittedRecord? && s.consumed
      && forall e :: e in s.files ==> !site.Counted(e)
    case Finalizing(_, path) => OnlyAt(site, s.files, path) && s.consumed
  }

  ghost predicate JobOk(site: Site, job: Job) {
    && job.destination == ResolveDestination(site.branch, job.destination.template)
    && job.destination.directory == site.directory
    && job.decisionId == site.decisionId
    && Carries(job.text, site.decisionId)
  }

  ghost predicate Inv(site: Site, s: State) {
    && Tidy(s.files)
    && AtMostOne(site, s.files)
    && PcOk(site, s)
    && (s.record.CommittedRecord? ==> OnlyAt(site, s.files, s.record.path))
    && (s.mine != [] ==> s.consumed)
  }

  lemma ForeignKeeps(site: Site, s: State, files: seq<Entry>)
    requires Inv(site, s) && Harmless(site, s.files, files)
    ensures Inv(site, s.(files := files))
  {
    forall i, j | 0 <= i < j < |files| ensures !(site.Counted(files[i]) && site.Counted(files[j])) {
      if site.Counted(files[i]) && site.Counted(files[j]) {
        OneEntry(site, s.files, files[i], files[j]);
      }
    }
  }

  lemma OneEntry(site: Site, files: seq<Entry>, e: Entry, f: Entry)
    requires AtMostOne(site, files) && e in files && f in files && site.Counted(e) && site.Counted(f)
    ensures e == f
  {
  }

  lemma {:induction false} ReadsTheFile(files: seq<Entry>, path: string)
    ensures ReadFile(files, path).Some? ==> exists e :: e in files && e.path == path && e.isFile && e.text == ReadFile(files, path).value
    ensures Tidy(files) ==> forall e :: e in files && e.path == path && e.isFile ==> ReadFile(files, path) == Some(e.text)
  {
    if files != [] {
      assert Tidy(files) ==> Tidy(files[1..]);
      ReadsTheFile(files[1..], path);
      assert files == [files[0]] + files[1..];
    }
  }

  lemma ListingKeeps(site: Site, s: State, inTime: bool, answer: Answer)
    requires Inv(site, s) && s.pc.Attempting?
    ensures Inv(site, Advance(site, s, inTime, answer))
  {
    var here := (x: Entry) => x.directory == site.directory;
    forall e ensures e in Listing(s.files, site.directory) <==> e in s.files && here(e) {
      FilterMember(s.files, here, e);
    }
  }

  /** A look that finds the marker finds the one marked file; a look that does not find it
      rules its entry out. */
  lemma LookFinds(site: Site, files: seq<Entry>, u: Entry)
    requires Tidy(files) && AtMostOne(site, files)
    requires Named(u) && u.directory == site.directory
    ensures var hit := Look(site, files, u, None);
      match hit
      case Some(path) => path == u.path && OnlyAt(site, files, path)
      case None => u in files ==> !site.Counted(u)
  {
    ReadsTheFile(files, u.path);
    var hit := Look(site, files, u, None);
    if hit.Some? {
      var f :| f in files && f.path == u.path && f.isFile && f.text == ReadFile(files, u.path).value;
      assert Named(f) && site.Counted(f);
      forall e | e in files && site.Counted(e) ensures e.path == hit.value {
        OneEntry(site, files, e, f);
      }
    }
  }

  /** The set of marked files can only shrink while the search reads, so a search that ends
      without a hit has seen that there is none. */
  lemma SearchingKeeps(site: Site, s: State, inTime: bool, answer: Answer)
    requires Inv(site, s) && s.pc.Searching?
    ensures Inv(site, Advance(site, s, inTime, answer))
  {
    var unread := s.pc.unread;
    if unread != [] {
      assert unread == [unread[0]] + unread[1..];
      LookFinds(site, s.files, unread[0]);
    }
  }

  /** A file that lands while the directory has no marked one may be the one marked file. */
  lemma LandingKeeps(site: Site, s: State, path: string, text: string)
    requires Tidy(s.files) && !Exists(s.files, path)
    requires forall e :: e in s.files ==> !site.Counted(e)
    ensures var t := Landed(s, path, text);
      Tidy(t.files) && AtMostOne(site, t.files) && OnlyAt(site, t.files, path)
  {
    var t := Landed(s, path, text);
    assert t.files == s.files + [FileAt(path, text)];
    assert forall i :: 0 <= i < |s.files| ==> s.files[i] in s.files;
  }

  lemma CreatingKeeps(site: Site, s: State, inTime: bool, answer: Answer)
    requires Inv(site, s) && s.pc.Creating?
    ensures Inv(site, Advance(site, s, inTime, answer)) && Inv(site, LandedUnseen(s))
  {
    var path := PathAfter(s.pc.job, s.pc.listed);
    if !Exists(s.files, path) {
      LandingKeeps(site, s, path, s.pc.job.text);
    }
  }

  lemma AdvanceKeeps(site: Site, s: State, inTime: bool, answer: Answer)
    requires Inv(site, s)
    ensures Inv(site, Advance(site, s, inTime, answer))
  {
    match s.pc
    case Attempting(_, _) => ListingKeeps(site, s, inTime, answer);
    case Searching(_, _, _, _, _) => SearchingKeeps(site, s, inTime, answer);
    case Creating(_, _, _) => CreatingKeeps(site, s, inTime, answer);
    case _ =>
  }

  lemma StepKeeps(site: Site, s: State, step: Step)
    requires Inv(site, s)
    ensures Inv(site, Apply(site, s, step))
  {
    match step
    case Foreign(files) =>
      if Harmless(site, s.files, files) {
        ForeignKeeps(site, s, files);
      }
    case Begin(_, markdown, _) => EmbeddedCarries(markdown, site.decisionId);
    case Go(inTime, answer) => AdvanceKeeps(site, s, inTime, answer);
    case LandUnseen =>
      if s.pc.Creating? {
        CreatingKeeps(site, s, true, Break);
      }
    case _ =>
  }

  lemma {:induction false} Reachable(site: Site, steps: seq<Step>)
    ensures Inv(site, Run(site, steps))
  {
    if steps != [] {
      var n := |steps| - 1;
      Reachable(site, steps[..n]);
      StepKeeps(site, Run(site, steps[..n]), steps[n]);
    }
  }

  // ------------------------------------------------------------------ what holds of every run

  /** At every moment of every run the directory holds at most one file with the decision's
      marker, through conflicts, creates that land unseen, crashes after a create, lost record
      stores, changed templates and foreign commits. */
  lemma {:induction false} AtMostOneMarkedFile(site: Site, steps: seq<Step>, e: Entry, f: Entry)
    requires e in Run(site, steps).files && f in Run(site, steps).files
    requires site.Counted(e) && site.Counted(f)
    ensures e == f
  {
    Reachable(site, steps);
    OneEntry(site, Run(site, steps).files, e, f);
  }

  // ------------------------------------------------------------------ marked files are the decision's own

  /** Some file this publisher created stands, or stood, at `path`. */
  ghost predicate Owned(s: State, path: string) {
    exists e :: e in s.mine && e.path == path
  }

  /** Marked files are the publisher's own, and so is every path it found or recorded. */
  ghost predicate OwnOnly(site: Site, s: State) {
    && (forall e :: e in s.files && site.Counted(e) ==> e in s.mine)
    && (s.pc.Searching? && s.pc.hit.Some? ==> Owned(s, s.pc.hit.value))
    && (s.pc.Finalizing? ==> Owned(s, s.pc.path))
    && (s.record.CommittedRecord? ==> Owned(s, s.record.path))
  }

  lemma LookFindsOwn(site: Site, s: State, u: Entry)
    requires Inv(site, s) && OwnOnly(site, s) && Named(u) && u.directory == site.directory
    ensures var hit := Look(site, s.files, u, None); hit.Some? ==> Owned(s, hit.value)
  {
    ReadsTheFile(s.files, u.path);
    var hit := Look(site, s.files, u, None);
    if hit.Some? {
      var f :| f in s.files && f.path == u.path && f.isFile && f.text == ReadFile(s.files, u.path).value;
      assert Named(f) && site.Counted(f);
    }
  }

  lemma LandingIsOwn(site: Site, s: State, path: string, text: string)
    requires OwnOnly(site, s)
    ensures var t := Landed(s, path, text);
      (forall e :: e in t.files && site.Counted(e) ==> e in t.mine) && Owned(t, path) && forall p :: Owned(s, p) ==> Owned(t, p)
  {
    var own, t := FileAt(path, text), Landed(s, path, text);
    assert t.mine == s.mine + [own] && t.files == s.files + [own];
    assert own in t.mine;
  }

  lemma CreatingIsOwn(site: Site, s: State, inTime: bool, answer: Answer)
    requires OwnOnly(site, s) && s.pc.Creating?
    ensures OwnOnly(site, Advance(site, s, inTime, answer)) && OwnOnly(site, LandedUnseen(s))
  {
    LandingIsOwn(site, s, PathAfter(s.pc.job, s.pc.listed), s.pc.job.text);
  }

  lemma StepKeepsOwn(site: Site, s: State, step: Step)
    requires Inv(site, s) && OwnOnly(site, s)
    ensures OwnOnly(site, Apply(site, s, step))
  {
    if step.Go? && s.pc.Creating? {
      CreatingIsOwn(site, s, step.inTime, step.answer);
    } else if step.LandUnseen? && s.pc.Creating? {
      CreatingIsOwn(site, s, true, Break);
    } else if step.Go? && s.pc.Searching? && s.pc.unread != [] {
      assert s.pc.unread[0] in s.pc.unread;
      LookFindsOwn(site, s, s.pc.unread[0]);
      assert Apply(site, s, step).mine == s.mine;
    }
  }

  lemma {:induction false} ReachableOwn(site: Site, steps: seq<Step>)
    ensures OwnOnly(site, Run(site, steps))
  {
    if steps != [] {
      var n := |steps| - 1;
      ReachableOwn(site, steps[..n]);
      Reachable(site, steps[..n]);
      StepKeepsOwn(site, Run(site, steps[..n]), steps[n]);
    }
  }

  /** Every marked file that is ever present was created for this decision, and every file that
      is recovered or recorded is one of those: when foreign commits bring no file that the
      search would find. `SharedDirectory` says when that is so. */
  lemma {:induction false} MarkedFilesAreOwn(site: Site, steps: seq<Step>)
    ensures var s := Run(site, steps);
      && (forall e :: e in s.files && site.Counted(e) ==> e in s.mine)
      && (s.pc.Finalizing? ==> Owned(s, s.pc.path))
      && (s.record.CommittedRecord? ==> Owned(s, s.record.path))
  {
    ReachableOwn(site, steps);
  }

  /** A committed record names the only marked file there can be. */
  lemma CommittedRecordNamesTheFile(site: Site, steps: seq<Step>, e: Entry)
    requires Run(site, steps).record.CommittedRecord?
    requires e in Run(site, steps).files && site.Counted(e)
    ensures e.path == Run(site, steps).record.path
  {
    Reachable(site, steps);
  }

  /** The template renders file names the search looks at, in the directory it lists. */
  ghost predicate SoundTemplate(t: string) {
    WellPlaced(t) && IsMarkdown(t)
  }

  /** One step creates at most one file: that of the job at hand, at the path computed from its
      listing, which is free. No other step but a foreign commit changes the files. */
  ghost predicate Lands(s: State, t: State) {
    && s.pc.Creating?
    && var path := PathAfter(s.pc.job, s.pc.listed);
       !Exists(s.files, path) && t.files == s.files + [FileAt(path, s.pc.job.text)] && t.mine == s.mine + [FileAt(path, s.pc.job.text)]
  }

  lemma AdvanceCreates(site: Site, s: State, inTime: bool, answer: Answer)
    ensures var t := Advance(site, s, inTime, answer); (t.mine == s.mine && t.files == s.files) || Lands(s, t)
  {
  }

  lemma StepCreates(site: Site, s: State, step: Step)
    ensures var t := Apply(site, s, step);
      (t.mine == s.mine && (step.Foreign? || t.files == s.files)) || Lands(s, t)
  {
    if step.Go? {
      AdvanceCreates(site, s, step.inTime, step.answer);
    }
  }

  /** A step keeps the job at hand, ends it, or takes one from a request. */
  lemma StepJobs(site: Site, s: State, step: Step)
    ensures var t := Apply(site, s, step);
      || t.pc.AtHand().None? || t.pc.AtHand() == s.pc.AtHand()
      || (step.Begin? && t.pc.AtHand() == Some(site.JobFor(step.slug, step.markdown, step.template)))
  {
  }

  lemma CreatedIsCounted(site: Site, job: Job, listed: seq<Entry>)
    requires JobOk(site, job) && SoundTemplate(job.destination.template) && '/' !in job.slug
    ensures site.Counted(FileAt(PathAfter(job, listed), job.text))
  {
    var number := NextAdrNumber(Map(listed, (e: Entry) => e.name));
    RenderedPathHalves(job.destination.template, number, job.slug, job.destination.width);
    RenderedIsMarkdown(job.destination.template, number, job.slug, job.destination.width);
  }

  /** The requests name such templates, and slugs without a path separator. */
  ghost predicate SoundRequests(steps: seq<Step>) {
    forall i :: 0 <= i < |steps| && steps[i].Begin? ==> '/' !in steps[i].slug && SoundTemplate(steps[i].template)
  }

  ghost predicate SoundJob(pc: Pc) {
    var job := pc.AtHand();
    job.Some? ==> '/' !in job.value.slug && SoundTemplate(job.value.destination.template)
  }

  lemma {:induction false} JobsAreSound(site: Site, steps: seq<Step>)
    requires SoundRequests(steps)
    ensures SoundJob(Run(site, steps).pc)
  {
    if steps != [] {
      var n := |steps| - 1;
      JobsAreSound(site, steps[..n]);
      StepJobs(site, Run(site, steps[..n]), steps[n]);
    }
  }

  /** With such requests every file the publisher creates is one the search finds. */
  lemma {:induction false} OwnFilesAreCounted(site: Site, steps: seq<Step>, e: Entry)
    requires SoundRequests(steps)
    requires e in Run(site, steps).mine
    ensures site.Counted(e)
  {
    if steps != [] {
      var n := |steps| - 1;
      var s := Run(site, steps[..n]);
      Reachable(site, steps[..n]);
      JobsAreSound(site, steps[..n]);
      StepCreates(site, s, steps[n]);
      if e in s.mine {
        OwnFilesAreCounted(site, steps[..n], e);
      } else {
        CreatedIsCounted(site, s.pc.job, s.pc.listed);
      }
    }
  }

  /** Of all the files the publisher ever created for the decision, at most one is there. */
  lemma {:induction false} OneOwnFileSurvives(site: Site, steps: seq<Step>, e: Entry, f: Entry)
    requires SoundRequests(steps)
    ensures var s := Run(site, steps);
      e in s.mine && f in s.mine && e in s.files && f in s.files ==> e == f
  {
    var s := Run(site, steps);
    if e in s.mine && f in s.mine && e in s.files && f in s.files {
      OwnFilesAreCounted(site, steps, e);
      OwnFilesAreCounted(site, steps, f);
      AtMostOneMarkedFile(site, steps, e, f);
    }
  }
}
