/** What the bounded commit loop and runs of publish calls guarantee. */
module PublicationRuns {
  import opened Prelude
  import opened Text
  import opened Domain
  import opened InsertOnce
  import opened Numbering
  import opened Publication

  // ------------------------------------------------------------------ the commit loop

  function Landed(turns: seq<Turn>): seq<Entry> {
    if turns == [] then [] else turns[0].foreign + Landed(turns[1..])
  }

  /** The files when attempt `i` lists them, if every earlier attempt conflicted. */
  function FilesAt(files: seq<Entry>, turns: seq<Turn>, i: nat): seq<Entry>
    requires i <= |turns|
  {
    files + Landed(turns[..i])
  }

  /** Attempt `i` finds no marker and its create conflicts. */
  predicate ConflictsAt(files: seq<Entry>, turns: seq<Turn>, plan: Plan, i: nat)
    requires i < |turns|
  {
    var now := FilesAt(files, turns, i);
    plan.marked(now) == [] && CreateIn(now, turns[i], plan.pathFor(now), plan.text).1.CreateConflict?
  }

  lemma FilesAtShift(files: seq<Entry>, turns: seq<Turn>, i: nat)
    requires i < |turns|
    ensures FilesAt(files + turns[0].foreign, turns[1..], i) == FilesAt(files, turns, i + 1)
  {
    assert turns[..i + 1][1..] == turns[1..][..i];
    assert turns[..i + 1][0] == turns[0];
    assert files + turns[0].foreign + Landed(turns[1..][..i]) == files + (turns[0].foreign + Landed(turns[1..][..i]));
  }

  lemma CommitStep(files: seq<Entry>, turns: seq<Turn>, plan: Plan, attempts: nat)
    requires |turns| >= attempts > 0
    ensures ConflictsAt(files, turns, plan, 0) ==>
              Commit(files, turns, plan, attempts) == Commit(files + turns[0].foreign, turns[1..], plan, attempts - 1)
    ensures !ConflictsAt(files, turns, plan, 0) ==> !Commit(files, turns, plan, attempts).2.Exhausted?
  {
    assert turns[..0] == [];
    assert FilesAt(files, turns, 0) == files;
  }

  /** A commit call is exhausted exactly when all of its attempts conflict. */
  lemma {:induction false} ExhaustedIffAllConflict(files: seq<Entry>, turns: seq<Turn>, plan: Plan, attempts: nat)
    requires |turns| >= attempts
    ensures Commit(files, turns, plan, attempts).2.Exhausted? <==> forall i :: 0 <= i < attempts ==> ConflictsAt(files, turns, plan, i)
    decreases attempts
  {
    if attempts > 0 {
      CommitStep(files, turns, plan, attempts);
      if ConflictsAt(files, turns, plan, 0) {
        var now := files + turns[0].foreign;
        ExhaustedIffAllConflict(now, turns[1..], plan, attempts - 1);
        forall i | 0 <= i < attempts - 1 ensures ConflictsAt(now, turns[1..], plan, i) <==> ConflictsAt(files, turns, plan, i + 1) {
          FilesAtShift(files, turns, i);
        }
        assert forall i :: 0 < i < attempts ==> (ConflictsAt(files, turns, plan, i) <==> ConflictsAt(now, turns[1..], plan, i - 1));
      }
    }
  }

  /** What a commit call that used `used` turns did: the foreign commits of those turns, and at
      most one file of its own. A created file stands at the path computed from the last
      listing, under the commit the provider answered; any other success names the marked file
      that the last listing showed, with its commit where the listing tells it. */
  ghost predicate Did(files: seq<Entry>, turns: seq<Turn>, plan: Plan, used: nat, after: seq<Entry>, r: CommitResult)
    requires used <= |turns|
  {
    var now := FilesAt(files, turns, used);
    if r.Done? && r.created then
      && after == now + [FileAt(r.path, plan.text)]
      && used > 0 && r.path == plan.pathFor(FilesAt(files, turns, used - 1)) && turns[used - 1].answer == Accept(r.sha)
    else
      && after == now
      && (r.Done? ==> plan.marked(now) != [] && r.path == plan.marked(now)[0].path
                      && r.sha == if plan.marked(now)[0].sha.Some? then plan.marked(now)[0].sha.value else "existing")
  }

  lemma {:induction false} CommitEffect(files: seq<Entry>, turns: seq<Turn>, plan: Plan, attempts: nat)
    requires |turns| >= attempts
    ensures var (after, left, r) := Commit(files, turns, plan, attempts);
      && |turns| - attempts <= |left| <= |turns|
      && left == turns[|turns| - |left|..]
      && Did(files, turns, plan, |turns| - |left|, after, r)
    decreases attempts
  {
    NothingLanded(files, turns);
    if attempts > 0 {
      CommitStep(files, turns, plan, attempts);
      if ConflictsAt(files, turns, plan, 0) {
        var now := files + turns[0].foreign;
        CommitEffect(now, turns[1..], plan, attempts - 1);
        var used := |turns| - 1 - |Commit(now, turns[1..], plan, attempts - 1).1|;
        FilesAtShift(files, turns, used);
        if used > 0 {
          FilesAtShift(files, turns, used - 1);
        }
      } else if plan.marked(files) == [] {
        FirstAttempt(files, turns, plan, attempts);
        assert Commit(files, turns, plan, attempts).1 == turns[1..];
      }
    }
  }

  lemma NothingLanded(files: seq<Entry>, turns: seq<Turn>)
    ensures FilesAt(files, turns, 0) == files
    ensures turns != [] ==> FilesAt(files, turns, 1) == files + turns[0].foreign
  {
    assert turns[..0] == [];
    if turns != [] {
      assert turns[..1][1..] == [];
    }
  }

  lemma FirstAttempt(files: seq<Entry>, turns: seq<Turn>, plan: Plan, attempts: nat)
    requires |turns| >= attempts > 0 && plan.marked(files) == [] && !ConflictsAt(files, turns, plan, 0)
    ensures var (after, left, r) := Commit(files, turns, plan, attempts);
      var now := files + turns[0].foreign;
      && left == turns[1..]
      && (|| (r.Failed? && after == now)
          || (r.Done? && r.created && r.path == plan.pathFor(files) && after == now + [FileAt(r.path, plan.text)]))
  {
    NothingLanded(files, turns);
  }

  // ------------------------------------------------------------------ at most one file

  /** A file created at `path` is one the marker search will find. */
  predicate Visible(job: Job, path: string) {
    Dirname(path) == job.destination.directory && IsMarkdown(Basename(path))
  }

  /** The destination comes from a `.md` template whose number starts the file name, and the
      file name stays in the directory. */
  ghost predicate Sound(job: Job) {
    var t := job.destination.template;
    && job.destination.directory == Dirname(t)
    && WellPlaced(t) && IsMarkdown(t)
    && '/' !in job.slug
    && Carries(job.text, job.decisionId)
  }

  lemma SoundPathsAreVisible(job: Job, files: seq<Entry>)
    requires Sound(job)
    ensures Visible(job, job.NextPath(files))
  {
    var n := NextAdrNumber(job.Names(files));
    RenderedPathHalves(job.destination.template, n, job.slug, job.destination.width);
    RenderedIsMarkdown(job.destination.template, n, job.slug, job.destination.width);
  }

  lemma MarkedAppend(job: Job, a: seq<Entry>, b: seq<Entry>)
    ensures job.MarkedIn(a + b) == job.MarkedIn(a) + job.MarkedIn(b)
  {
    var here := (e: Entry) => e.directory == job.destination.directory;
    var marked := (e: Entry) => job.Marked(e);
    FilterAppend(a, b, here);
    FilterAppend(Listing(a, job.destination.directory), Listing(b, job.destination.directory), marked);
  }

  /** The marker search sees a new file exactly when its path is visible. */
  lemma MarkedSingle(job: Job, path: string, text: string)
    requires Carries(text, job.decisionId)
    ensures job.MarkedIn([FileAt(path, text)]) == if Visible(job, path) then [FileAt(path, text)] else []
  {
    var e := FileAt(path, text);
    var here := (x: Entry) => x.directory == job.destination.directory;
    assert Filter([e][1..], here) == [];
    assert Listing([e], job.destination.directory) == if here(e) then [e] else [];
    if here(e) {
      assert Filter([e][1..], (x: Entry) => job.Marked(x)) == [];
    }
  }

  /** What the retry loop relies on: the search looks at each entry by itself, and it sees
      whatever the loop creates. */
  ghost predicate SeesItsFiles(plan: Plan) {
    && (forall a, b :: plan.marked(a + b) == plan.marked(a) + plan.marked(b))
    && (forall files :: plan.marked([FileAt(plan.pathFor(files), plan.text)])
                     == [FileAt(plan.pathFor(files), plan.text)])
  }

  lemma SoundJobsSeeTheirFiles(job: Job)
    requires Sound(job)
    ensures SeesItsFiles(PlanOf(job))
  {
    var plan := PlanOf(job);
    forall a, b ensures plan.marked(a + b) == plan.marked(a) + plan.marked(b) {
      MarkedAppend(job, a, b);
    }
    forall files ensures plan.marked([FileAt(plan.pathFor(files), plan.text)])
                      == [FileAt(plan.pathFor(files), plan.text)] {
      SoundPathsAreVisible(job, files);
      MarkedSingle(job, job.NextPath(files), job.text);
    }
  }

  /** Foreign commits that carry no marker of this decision. */
  ghost predicate Unmarked(plan: Plan, turns: seq<Turn>) {
    forall i :: 0 <= i < |turns| ==> plan.marked(turns[i].foreign) == []
  }

  /** The directory holds at most one marked file; after a success exactly one, at the path
      that was returned. */
  ghost predicate OneMarked(plan: Plan, after: seq<Entry>, r: CommitResult) {
    && |plan.marked(after)| <= 1
    && (r.Done? ==> |plan.marked(after)| == 1 && plan.marked(after)[0].path == r.path)
  }

  /** Against foreign commits without this marker, one commit call keeps the directory at no
      more than one marked file. */
  lemma CommitKeepsOneMarked(files: seq<Entry>, turns: seq<Turn>, plan: Plan, attempts: nat)
    requires |turns| >= attempts && SeesItsFiles(plan)
    requires |plan.marked(files)| <= 1
    requires Unmarked(plan, turns)
    ensures OneMarked(plan, Commit(files, turns, plan, attempts).0, Commit(files, turns, plan, attempts).2)
  {
    var (after, left, r) := Commit(files, turns, plan, attempts);
    var used := |turns| - |left|;
    CommitEffect(files, turns, plan, attempts);
    MarkedStays(files, turns, plan, used);
    if r.Done? && r.created {
      MarkedStays(files, turns, plan, used - 1);
      CreatedIsMarked(FilesAt(files, turns, used), FilesAt(files, turns, used - 1), plan);
      if attempts > 0 && plan.marked(files) != [] {
        CommitRecovers(files, turns, plan, attempts);
      }
    }
  }

  lemma MarkedStays(files: seq<Entry>, turns: seq<Turn>, plan: Plan, i: nat)
    requires i <= |turns| && SeesItsFiles(plan) && Unmarked(plan, turns)
    ensures plan.marked(FilesAt(files, turns, i)) == plan.marked(files)
  {
    LandedUnmarked(plan, turns[..i]);
  }

  lemma {:induction false} LandedUnmarked(plan: Plan, turns: seq<Turn>)
    requires SeesItsFiles(plan) && Unmarked(plan, turns)
    ensures plan.marked(Landed(turns)) == []
  {
    if turns == [] {
      var none: seq<Entry> := [];
      assert none + none == none;
      assert |plan.marked(none + none)| == |plan.marked(none)| + |plan.marked(none)|;
    } else {
      LandedUnmarked(plan, turns[1..]);
      assert plan.marked(turns[0].foreign) == [];
    }
  }

  lemma CreatedIsMarked(now: seq<Entry>, listed: seq<Entry>, plan: Plan)
    requires SeesItsFiles(plan)
    ensures plan.marked(now + [FileAt(plan.pathFor(listed), plan.text)]) == plan.marked(now) + [FileAt(plan.pathFor(listed), plan.text)]
  {
  }

  /** Recovery: while a marked file is there, a commit call returns it and writes nothing. */
  lemma CommitRecovers(files: seq<Entry>, turns: seq<Turn>, plan: Plan, attempts: nat)
    requires |turns| >= attempts > 0 && plan.marked(files) != []
    ensures var (after, left, r) := Commit(files, turns, plan, attempts);
      && after == files && left == turns && r.Done? && !r.created && r.path == plan.marked(files)[0].path
      && (plan.marked(files)[0].sha.Some? ==> r.sha == plan.marked(files)[0].sha.value)
  {
  }

  /** At most one file per decision in its directory, for every sound job. */
  lemma {:induction false} CommittedOnce(files: seq<Entry>, turns: seq<Turn>, job: Job, attempts: nat)
    requires |turns| >= attempts && Sound(job)
    requires |job.MarkedIn(files)| <= 1
    requires forall i :: 0 <= i < |turns| ==> job.MarkedIn(turns[i].foreign) == []
    ensures var (after, _, r) := Commit(files, turns, PlanOf(job), attempts);
      && |job.MarkedIn(after)| <= 1
      && (r.Done? ==> |job.MarkedIn(after)| == 1 && job.MarkedIn(after)[0].path == r.path)
  {
    SoundJobsSeeTheirFiles(job);
    CommitKeepsOneMarked(files, turns, PlanOf(job), attempts);
  }

  /** Visibility is needed: a file created where the search does not look is not found by the
      next call once its record is lost, which then creates a second file exactly when the path
      it renders is free. */
  lemma InvisibleFilesAreRepeated(files: seq<Entry>, job: Job, first: string, second: string)
    requires job.MarkedIn(files) == [] && Carries(job.text, job.decisionId)
    requires !Visible(job, job.NextPath(files)) && !Exists(files, job.NextPath(files))
    ensures var own := FileAt(job.NextPath(files), job.text);
      var again := Commit(files + [own], [Turn([], Accept(second))], PlanOf(job), 1);
      && Commit(files, [Turn([], Accept(first))], PlanOf(job), 1).0 == files + [own]
      && (again.0 == files + [own] + [FileAt(job.NextPath(files + [own]), job.text)]
          <==> !Exists(files + [own], job.NextPath(files + [own])))
      && (again.0 == files + [own] <==> Exists(files + [own], job.NextPath(files + [own])))
  {
    var own := FileAt(job.NextPath(files), job.text);
    assert files + [] == files;
    assert files + [own] + [] == files + [own];
    MarkedAppend(job, files, [own]);
    MarkedSingle(job, job.NextPath(files), job.text);
    var twice := files + [own] + [FileAt(job.NextPath(files + [own]), job.text)];
    assert |twice| == |files + [own]| + 1;
  }

  lemma ListedNames(files: seq<Entry>, job: Job, e: Entry)
    requires e in Listing(files, job.destination.directory)
    ensures e.name in job.Names(files)
  {
    var listing := Listing(files, job.destination.directory);
    var i :| 0 <= i < |listing| && listing[i] == e;
    MapAt(listing, (x: Entry) => x.name, i);
  }

  /** The committed path is never one of the listed ones, and its number exceeds them all. */
  lemma CommittedPathIsFresh(files: seq<Entry>, job: Job)
    requires Sound(job) && Separated(job.destination.template)
    ensures Basename(job.NextPath(files)) !in job.Names(files)
    ensures forall e :: e in Listing(files, job.destination.directory) ==> e.name != Basename(job.NextPath(files))
    ensures ParseAdrNumber(job.NextPath(files)) == Some(NextAdrNumber(job.Names(files)))
  {
    RenderedPathIsFresh(job.destination.template, job.Names(files), job.slug, job.destination.width);
    ParseRendered(job.destination.template, NextAdrNumber(job.Names(files)), job.slug, job.destination.width);
    var listing := Listing(files, job.destination.directory);
    forall e | e in listing ensures e.name in job.Names(files) {
      ListedNames(files, job, e);
    }
  }

  /** Successive commits into one directory get strictly increasing numbers, as long as the
      earlier file is still listed. */
  lemma LaterCommitsGetLargerNumbers(files: seq<Entry>, job: Job, later: seq<Entry>, next: Job)
    requires Sound(job) && Separated(job.destination.template)
    requires next.destination == job.destination && Sound(next)
    requires exists text, sha :: FileAt(job.NextPath(files), text).(sha := sha) in later
    ensures ParseAdrNumber(next.NextPath(later)).Some? && ParseAdrNumber(job.NextPath(files)).Some?
    ensures ParseAdrNumber(next.NextPath(later)).value > ParseAdrNumber(job.NextPath(files)).value
  {
    CommittedPathIsFresh(files, job);
    CommittedPathIsFresh(later, next);
    var text, sha :| FileAt(job.NextPath(files), text).(sha := sha) in later;
    var e := FileAt(job.NextPath(files), text).(sha := sha);
    SoundPathsAreVisible(job, files);
    FilterMember(later, (x: Entry) => x.directory == job.destination.directory, e);
    ListedNames(later, next, e);
    NumbersIncrease(job.destination.template, NextAdrNumber(job.Names(files)), job.slug, job.destination.width, next.Names(later));
  }

  // ------------------------------------------------------------------ runs of publish calls

  datatype PublishCall = PublishCall(request: PublishRequest, now: int, linkedAt: int, turns: seq<Turn>)

  /** One publish call against the provider behaviour of its own turns. */
  function ApplyCall(s: Shelf, c: PublishCall, ttl: int, maxAttempts: nat): (Shelf, Result<PublishResult, Error>) {
    if |c.turns| < maxAttempts then (s, Err(ProviderFailure))
    else PublishAdr(s.(turns := c.turns), c.request, c.now, c.linkedAt, ttl, maxAttempts)
  }

  function RunCalls(s: Shelf, calls: seq<PublishCall>, ttl: int, maxAttempts: nat): Shelf {
    if calls == [] then s
    else ApplyCall(RunCalls(s, calls[..|calls| - 1], ttl, maxAttempts), calls[|calls| - 1], ttl, maxAttempts).0
  }

  function RecordOf(s: Shelf, id: string): Option<Record> {
    if id in s.records then Some(s.records[id]) else None
  }

  /** The moves one call may make on one decision's record. */
  ghost predicate LegalMove(before: Option<Record>, after: Option<Record>) {
    match before
    case None =>
      after.None? || after.value.body.status in {Pending, Committed, SkippedByPolicy, DeadLettered}
    case Some(a) =>
      && after.Some?
      && after.value.fingerprint == a.fingerprint
      && (after.value == a || (a.body.status in {Pending, DeadLettered} && after.value.body.status in {Committed, DeadLettered}))
  }

  /** The record was stored for this request: its fingerprint, and skipped exactly when its
      policy skips. */
  predicate Holds(record: Record, r: PublishRequest) {
    && record.fingerprint == r.Fingerprint()
    && record.body.status != AlreadyPublished
    && (record.body.status.SkippedByPolicy? <==> !r.policy.PublishesToGithub())
  }

  /** What a call that reaches the files leaves behind for its decision. */
  function FileRecord(records: Table<RecordBody>, r: PublishRequest, done: CommitResult): Record {
    var intent := NewRecord(r, Pending, "");
    match done
    case Failed => if r.Key() in records then records[r.Key()] else intent
    case Exhausted => WithStatus(intent, DeadLettered, DEAD)
    case Done(path, sha, created) => CommittedRecord(intent, path, sha, created)
  }

  lemma SettledRecords(s: Shelf, r: PublishRequest, d: Decision, done: CommitResult, linkedAt: int)
    requires r.Key() in s.records && s.records[r.Key()].fingerprint == r.Fingerprint()
    ensures var (t, answer) := SettleFile(s, r, d, done, linkedAt);
      && t.records == s.records[r.Key() := FileRecord(s.records, r, done)]
      && t.files == s.files
      && (answer.Ok? <==> done.Done?)
      && (answer.Ok? ==> answer.value.record == t.records[r.Key()])
  {
  }

  /** Behind the reservation a publishing call is its commit and what settles it. */
  lemma FileUnfolds(s: Shelf, r: PublishRequest, d: Decision, linkedAt: int, maxAttempts: nat)
    requires |s.turns| >= maxAttempts
    requires r.decision.Some? && Prior(s.records, r).None?
    ensures var reserved := Put(s.records, NewRecord(r, Pending, "")).0;
      var (files, turns, done) := Commit(s.files, s.turns, PlanOf(JobOf(r, d.decisionId)), maxAttempts);
      && PublishFile(s, r, d, linkedAt, maxAttempts)
         == SettleFile(s.(records := reserved, files := files, turns := turns), r, d, done, linkedAt)
      && r.Key() in reserved && reserved[r.Key()].fingerprint == r.Fingerprint()
      && reserved == s.records[r.Key() := reserved[r.Key()]]
      && reserved[r.Key()] == (if r.Key() in s.records then s.records[r.Key()] else NewRecord(r, Pending, ""))
  {
  }

  lemma FileRecordReserved(records: Table<RecordBody>, r: PublishRequest, done: CommitResult)
    requires r.decision.Some? && Prior(records, r).None?
    ensures var reserved := Put(records, NewRecord(r, Pending, "")).0;
      reserved[r.Key() := FileRecord(reserved, r, done)] == records[r.Key() := FileRecord(records, r, done)]
  {
    var reserved := Put(records, NewRecord(r, Pending, "")).0;
    assert FileRecord(reserved, r, done) == FileRecord(records, r, done);
  }

  lemma PublishedRecords(s: Shelf, r: PublishRequest, d: Decision, linkedAt: int, maxAttempts: nat)
    requires |s.turns| >= maxAttempts
    requires r.decision.Some? && Prior(s.records, r).None?
    ensures var (t, answer) := PublishFile(s, r, d, linkedAt, maxAttempts);
      var done := Commit(s.files, s.turns, PlanOf(JobOf(r, d.decisionId)), maxAttempts).2;
      && t.records == s.records[r.Key() := FileRecord(s.records, r, done)]
      && (answer.Ok? <==> done.Done?)
      && (answer.Ok? ==> answer.value.record == t.records[r.Key()])
  {
    FileUnfolds(s, r, d, linkedAt, maxAttempts);
    var reserved := Put(s.records, NewRecord(r, Pending, "")).0;
    var (files, turns, done) := Commit(s.files, s.turns, PlanOf(JobOf(r, d.decisionId)), maxAttempts);
    FileRecordReserved(s.records, r, done);
    SettledRecords(s.(records := reserved, files := files, turns := turns), r, d, done, linkedAt);
  }

  lemma FileRecordMoves(records: Table<RecordBody>, r: PublishRequest, done: CommitResult)
    requires r.policy.PublishesToGithub() && r.decision.Some? && Prior(records, r).None?
    ensures var after := FileRecord(records, r, done);
      && LegalMove(if r.Key() in records then Some(records[r.Key()]) else None, Some(after))
      && Holds(after, r)
      && (done.Done? ==> after.body.status.Committed?)
  {
  }

  /** What an authorised call does to the records. */
  lemma AuthorizedRecords(s: Shelf, r: PublishRequest, d: Decision, linkedAt: int, maxAttempts: nat, t: Shelf)
    requires |s.turns| >= maxAttempts
    requires r.decision.Some? && Prior(s.records, r).None?
    requires r.policy.PublishesToGithub() ==> t == PublishFile(s, r, d, linkedAt, maxAttempts).0
    requires !r.policy.PublishesToGithub() ==> t.records == Put(s.records, NewRecord(r, SkippedByPolicy, SKIPPED)).0
    ensures MovesOne(s.records, t.records, r)
  {
    if r.policy.PublishesToGithub() {
      PublishedRecords(s, r, d, linkedAt, maxAttempts);
      FileRecordMoves(s.records, r, Commit(s.files, s.turns, PlanOf(JobOf(r, d.decisionId)), maxAttempts).2);
    }
  }

  /** What a call can do to the record table: nothing, or one legal move to a record of its
      request. */
  ghost predicate MovesOne(before: Table<RecordBody>, after: Table<RecordBody>, r: PublishRequest) {
    var key := r.Key();
    || after == before
    || (key in after && Holds(after[key], r) && after == before[key := after[key]]
        && LegalMove(if key in before then Some(before[key]) else None, Some(after[key])))
  }

  /** Records move only in calls that authorisation let through, and then by one move. */
  lemma CallMovesOne(s: Shelf, c: PublishCall, ttl: int, maxAttempts: nat)
    ensures var t := ApplyCall(s, c, ttl, maxAttempts).0;
      && MovesOne(s.records, t.records, c.request)
      && (t.records != s.records ==> AuthorizePublication(s.log, c.request, c.now, c.linkedAt, ttl).1.Ok?)
  {
    var r := c.request;
    if |c.turns| >= maxAttempts && Prior(s.records, r).None? {
      var (log, valid) := AuthorizePublication(s.log, r, c.now, c.linkedAt, ttl);
      if valid.Ok? {
        AuthorizedRecords(s.(turns := c.turns, log := log), r, valid.value, c.linkedAt, maxAttempts, ApplyCall(s, c, ttl, maxAttempts).0);
      }
    }
  }

  /** Each call makes a legal move on the presented decision's record and touches no other. */
  lemma CallMovesRecord(s: Shelf, c: PublishCall, ttl: int, maxAttempts: nat, id: string)
    ensures var t := ApplyCall(s, c, ttl, maxAttempts).0;
      && LegalMove(RecordOf(s, id), RecordOf(t, id))
      && (id != c.request.Key() ==> RecordOf(t, id) == RecordOf(s, id))
  {
    CallMovesOne(s, c, ttl, maxAttempts);
    MoveIsLegal(s, ApplyCall(s, c, ttl, maxAttempts).0, c.request, id);
  }

  lemma MoveIsLegal(s: Shelf, t: Shelf, r: PublishRequest, id: string)
    requires MovesOne(s.records, t.records, r)
    ensures LegalMove(RecordOf(s, id), RecordOf(t, id)) && (id != r.Key() ==> RecordOf(t, id) == RecordOf(s, id))
  {
  }

  /** Over every run of calls: a decision's fingerprint never changes, and a satisfied
      publication keeps its record, whatever is presented later. */
  lemma {:induction false} RecordsOverRuns(s: Shelf, calls: seq<PublishCall>, ttl: int, maxAttempts: nat, id: string)
    ensures var t := RunCalls(s, calls, ttl, maxAttempts);
      && (id in s.records ==> id in t.records && t.records[id].fingerprint == s.records[id].fingerprint)
      && (id in s.records && s.records[id].body.status.IsTerminalSuccess() ==> t.records[id] == s.records[id])
  {
    if calls != [] {
      var n := |calls| - 1;
      RecordsOverRuns(s, calls[..n], ttl, maxAttempts, id);
      CallMovesRecord(RunCalls(s, calls[..n], ttl, maxAttempts), calls[n], ttl, maxAttempts, id);
    }
  }

  // ------------------------------------------------------------------ what a successful call stores

  /** An open record of the request's own fingerprint comes from a request that publishes. */
  predicate OpenOnlyForFiles(s: Shelf, r: PublishRequest) {
    r.Key() in s.records && s.records[r.Key()].fingerprint == r.Fingerprint()
      && s.records[r.Key()].body.status in {Pending, DeadLettered}
    ==> r.policy.PublishesToGithub()
  }

  /** The record of a successful call holds what the call answered. */
  ghost predicate Kept(t: Shelf, c: PublishCall, answer: Record) {
    var id := c.request.Key();
    && c.request.decision.Some? && id in t.records
    && t.records[id].fingerprint == c.request.Fingerprint()
    && t.records[id].body.status.IsTerminalSuccess()
    && t.records[id].body.path == answer.body.path
    && t.records[id].body.sha == answer.body.sha
  }

  lemma SkippedRecords(s: Shelf, c: PublishCall, ttl: int, maxAttempts: nat)
    requires !c.request.policy.PublishesToGithub() && Prior(s.records, c.request).None?
    requires ApplyCall(s, c, ttl, maxAttempts).1.Ok?
    ensures var (t, answer) := ApplyCall(s, c, ttl, maxAttempts);
      && t.records == Put(s.records, answer.value.record).0
      && answer.value.record == NewRecord(c.request, SkippedByPolicy, SKIPPED)
      && c.request.decision.Some?
  {
  }

  /** A successful call leaves a satisfied record with the path and commit it returned.
      `PublishedRuns` shows that every run keeps what is asked of the shelf here. */
  lemma CallIsKept(s: Shelf, c: PublishCall, ttl: int, maxAttempts: nat)
    requires OpenOnlyForFiles(s, c.request)
    ensures var (t, answer) := ApplyCall(s, c, ttl, maxAttempts);
      answer.Ok? ==> Kept(t, c, answer.value.record)
  {
    var r := c.request;
    if Prior(s.records, r).None? && ApplyCall(s, c, ttl, maxAttempts).1.Ok? {
      if r.policy.PublishesToGithub() {
        var (log, valid) := AuthorizePublication(s.log, r, c.now, c.linkedAt, ttl);
        var now := s.(turns := c.turns, log := log);
        PublishedRecords(now, r, valid.value, c.linkedAt, maxAttempts);
        FileRecordMoves(s.records, r, Commit(now.files, now.turns, PlanOf(JobOf(r, valid.value.decisionId)), maxAttempts).2);
      } else {
        SkippedRecords(s, c, ttl, maxAttempts);
      }
    }
  }

  /** Once a request is kept, any request under its decision is answered from the record, and
      changes nothing. */
  lemma KeptIsReplayed(s: Shelf, c: PublishCall, answer: Record, again: PublishCall, ttl: int, maxAttempts: nat)
    requires Kept(s, c, answer) && |again.turns| >= maxAttempts
    requires again.request.decision.Some? && again.request.Key() == c.request.Key()
    ensures var (after, reply) := ApplyCall(s, again, ttl, maxAttempts);
      && (if again.request.Fingerprint() == c.request.Fingerprint() then
            reply.Ok? && reply.value.idempotent && reply.value.record.body.status == AlreadyPublished
            && reply.value.record.body.path == answer.body.path && reply.value.record.body.sha == answer.body.sha
          else
            reply == Err(PublicationTargetMismatch))
      && after == s.(turns := again.turns)
  {
  }
}
