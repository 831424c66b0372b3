/** What a publish call is refused for, what the record table keeps whatever is stored in it, and
    what a call finds again once its record is lost. */
module PublicationAnswers {
  import opened Prelude
  import opened Domain
  import opened InsertOnce
  import opened Fingerprints
  import opened Approval
  import opened MutationAnswers
  import opened Publication
  import opened PublicationRuns
  import opened PublicationLaws
  import opened PublicationTraces

  // ------------------------------------------------------------------ refusals

  /** Everything an approving decision is checked for before its record is published. The text
      of the record is not among it. */
  function AuthorityChecks(log: Log, r: PublishRequest, d: Decision, now: int, ttl: int): (checks: seq<Check>)
    ensures |checks| == 4
  {
    [Check(r.repository == d.repository, RepositoryMismatch),
     Check(now <= Deadline(log, d, ttl), Expired),
     Check(UpsertFingerprint(r.repository, r.adr) == d.targetFingerprint, TargetMismatch),
     Check(d.decisionId in log.consumptions, NotAuthorized)]
  }

  /** A request is authorised exactly when its decision approves and passes them all. */
  lemma AuthorizedExactly(log: Log, r: PublishRequest, now: int, failedAt: int, ttl: int)
    ensures AuthorizePublication(log, r, now, failedAt, ttl).1.Ok?
            <==> r.decision.Some? && r.decision.value.approved && AllPass(AuthorityChecks(log, r, r.decision.value, now, ttl))
  {
    if r.decision.Some? && r.decision.value.approved {
      var checks := AuthorityChecks(log, r, r.decision.value, now, ttl);
      if AllPass(checks) {
        assert checks[0].passes && checks[1].passes && checks[2].passes && checks[3].passes;
      }
    }
  }

  /** Only the audit log changes, by one report. */
  ghost predicate ReportedOnly(s: Shelf, t: Shelf, c: PublishCall, e: Error) {
    && |t.log.audit| == |s.log.audit| + 1
    && t == s.(turns := c.turns, log := s.log.(audit := s.log.audit + [t.log.audit[|s.log.audit|]]))
    && ReportsFailure(t.log.audit[|s.log.audit|], c.request.repository, c.request.adr, c.request.decision, c.linkedAt, e)
  }

  /** A call that no earlier record answers is refused for the first check its decision fails.
      The three checks of the decision itself are reported; a missing consumption, or no
      approving decision at all, is refused in silence. Records and files stay. */
  lemma RefusedForTheFirst(s: Shelf, c: PublishCall, d: Decision, ttl: int, maxAttempts: nat, i: nat)
    requires |c.turns| >= maxAttempts && Prior(s.records, c.request).None?
    requires c.request.decision == Some(d) && d.approved
    requires FirstFailure(AuthorityChecks(s.log, c.request, d, c.now, ttl), i)
    ensures var (t, answer) := ApplyCall(s, c, ttl, maxAttempts);
      var e := AuthorityChecks(s.log, c.request, d, c.now, ttl)[i].error;
      && answer == Err(e)
      && (if i == 3 then t == s.(turns := c.turns) else ReportedOnly(s, t, c, e))
  {
    var checks := AuthorityChecks(s.log, c.request, d, c.now, ttl);
    if i > 0 { assert checks[0].passes; }
    if i > 1 { assert checks[1].passes; }
    if i > 2 { assert checks[2].passes; }
  }

  lemma UnapprovedIsNotPublished(s: Shelf, c: PublishCall, ttl: int, maxAttempts: nat)
    requires |c.turns| >= maxAttempts && Prior(s.records, c.request).None?
    requires c.request.decision.None? || !c.request.decision.value.approved
    ensures ApplyCall(s, c, ttl, maxAttempts) == (s.(turns := c.turns), Err(NotAuthorized))
  {
  }

  // ------------------------------------------------------------------ the record table by itself

  datatype RecordOp = Reserving(record: Record) | Finalizing(record: Record)

  function StoreRecord(records: Table<RecordBody>, op: RecordOp): Table<RecordBody> {
    match op
    case Reserving(r) => Put(records, r).0
    case Finalizing(r) => (match Finalized(records, r) case Some(table) => table case None => records)
  }

  function StoreAll(records: Table<RecordBody>, ops: seq<RecordOp>): Table<RecordBody> {
    if ops == [] then records else StoreRecord(StoreAll(records, ops[..|ops| - 1]), ops[|ops| - 1])
  }

  /** Whatever is reserved and finalised, in whatever order: a decision keeps the target of its
      first record, and a store is refused exactly when it names another. */
  lemma {:induction false} TargetsStay(records: Table<RecordBody>, ops: seq<RecordOp>, r: Record)
    requires r.key in records
    ensures var after := StoreAll(records, ops);
      && r.key in after && after[r.key].fingerprint == records[r.key].fingerprint
      && (Finalized(after, r).None? <==> r.fingerprint != records[r.key].fingerprint)
      && (Put(after, r).1.Conflict? <==> r.fingerprint != records[r.key].fingerprint)
      && (Finalized(after, r).Some? ==> Finalized(after, r).value == after[r.key := r])
  {
    if ops != [] {
      TargetsStay(records, ops[..|ops| - 1], r);
    }
  }

  // ------------------------------------------------------------------ recovery

  /** The first call succeeded in the directory, where its file is seen. */
  ghost predicate SeesItself(s: Shelf, c: PublishCall, maxAttempts: nat) {
    && Clear(s, c, maxAttempts)
    && var job := JobOf(c.request, c.request.decision.value.decisionId);
       Sound(job) && job.MarkedIn(c.turns[0].foreign) == []
  }

  lemma MarkedBehind(s: Shelf, c: PublishCall, maxAttempts: nat)
    requires SeesItself(s, c, maxAttempts)
    ensures var job := JobOf(c.request, c.request.decision.value.decisionId);
      var own := FileAt(job.NextPath(s.files), job.text);
      job.MarkedIn(s.files + c.turns[0].foreign + [own]) == [own]
  {
    var job := JobOf(c.request, c.request.decision.value.decisionId);
    var own := FileAt(job.NextPath(s.files), job.text);
    MarkedAppend(job, s.files + c.turns[0].foreign, [own]);
    MarkedAppend(job, s.files, c.turns[0].foreign);
    SoundPathsAreVisible(job, s.files);
    MarkedSingle(job, job.NextPath(s.files), job.text);
  }

  /** Once its record is lost, an authorised repetition of a successful call finds its file
      again and creates none. Its new record names the same path, but the content id that the
      provider lists where the first one named the commit. */
  lemma RecoveryNamesTheContent(s: Shelf, c: PublishCall, again: PublishCall, ttl: int, maxAttempts: nat)
    requires SeesItself(s, c, maxAttempts) && ApplyCall(s, c, ttl, maxAttempts).1.Ok?
    requires again.request == c.request && |again.turns| >= maxAttempts
    requires AuthorizePublication(ApplyCall(s, c, ttl, maxAttempts).0.log, c.request, again.now, again.linkedAt, ttl).1.Ok?
    ensures var (first, told) := ApplyCall(s, c, ttl, maxAttempts);
      var (second, answer) := ApplyCall(first.(records := map[]), again, ttl, maxAttempts);
      var job := JobOf(c.request, c.request.decision.value.decisionId);
      && answer.Ok? && second.files == first.files
      && told.value.record.body.sha == Some(c.turns[0].answer.sha)
      && answer.value.record.body.path == told.value.record.body.path == Some(job.NextPath(s.files))
      && answer.value.record.body.sha == Some(ContentId(job.text))
      && told.value.record.body.detail == "published" && answer.value.record.body.detail == "already present"
  {
    var first := ApplyCall(s, c, ttl, maxAttempts).0;
    var r, d := c.request, c.request.decision.value;
    ClearCallPublishes(s, c, ttl, maxAttempts);
    MarkedBehind(s, c, maxAttempts);
    FirstRecord(s, c, ttl, maxAttempts);
    FoundAgain(first.(records := map[]), again, ttl, maxAttempts);
  }

  lemma FirstRecord(s: Shelf, c: PublishCall, ttl: int, maxAttempts: nat)
    requires Clear(s, c, maxAttempts) && ApplyCall(s, c, ttl, maxAttempts).1.Ok?
    ensures var body := ApplyCall(s, c, ttl, maxAttempts).1.value.record.body;
      && body.path == Some(JobOf(c.request, c.request.decision.value.decisionId).NextPath(s.files))
      && body.sha == Some(c.turns[0].answer.sha) && body.detail == "published"
  {
    var r, d := c.request, c.request.decision.value;
    ClearCallPublishes(s, c, ttl, maxAttempts);
    AuthorizedLogStays(s.log, r, c.now, c.linkedAt, ttl);
    FirstCreates(s.files, c.turns, PlanOf(JobOf(r, d.decisionId)), maxAttempts);
    FileCallLeaves(s, c, d, ttl, maxAttempts);
  }

  /** A call that finds a marked file answers with it. */
  lemma FoundAgain(s: Shelf, c: PublishCall, ttl: int, maxAttempts: nat)
    requires |c.turns| >= maxAttempts >= 1 && c.request.decision.Some? && c.request.policy.PublishesToGithub() && s.records == map[]
    requires AuthorizePublication(s.log, c.request, c.now, c.linkedAt, ttl).1.Ok?
    requires JobOf(c.request, c.request.decision.value.decisionId).MarkedIn(s.files) != []
    requires JobOf(c.request, c.request.decision.value.decisionId).MarkedIn(s.files)[0].sha.Some?
    ensures var (t, answer) := ApplyCall(s, c, ttl, maxAttempts);
      var found := JobOf(c.request, c.request.decision.value.decisionId).MarkedIn(s.files)[0];
      && answer.Ok? && t.files == s.files
      && answer.value.record.body.path == Some(found.path) && answer.value.record.body.sha == found.sha
      && answer.value.record.body.detail == "already present"
  {
    var r, d := c.request, c.request.decision.value;
    AuthorizedLogStays(s.log, r, c.now, c.linkedAt, ttl);
    CommitRecovers(s.files, c.turns, PlanOf(JobOf(r, d.decisionId)), maxAttempts);
    FileCallLeaves(s, c, d, ttl, maxAttempts);
    FilesOfCall(s.(turns := c.turns), r, d, c.linkedAt, maxAttempts);
  }
}
