/** What a publish call leaves in the records and in the audit log, told by its request. */
module PublicationTraces {
  import opened Prelude
  import opened Domain
  import opened InsertOnce
  import opened Approval
  import opened Publication
  import opened PublicationRuns

  /** The record of a request: whose it is, what it published where, and how it went. */
  ghost predicate Describes(record: Record, r: PublishRequest, status: Status, detail: string) {
    && r.decision.Some? && record.key == r.decision.value.decisionId && record.fingerprint == r.Fingerprint()
    && record.body.repositoryKey == r.repository.Key() && record.body.branch == r.destination.branch
    && record.body.adrRecordId == r.adr.adrId && record.body.contentHash == r.adr.contentHash
    && record.body.status == status && record.body.detail == detail
  }

  /** The audit log gains one row that links the decision to its publication. */
  ghost predicate Linked(before: Log, after: Log, r: PublishRequest, at: int, detail: string) {
    && r.decision.Some?
    && after == before.(audit := before.audit
         + [AuditEvent(PublicationLinked, r.repository.Key(), at, Some(r.decision.value.decisionId), Some(r.decision.value.reviewerId),
                       r.Fingerprint(), detail)])
  }

  /** How a commit is told in a row: its path and commit, where there is one to tell. */
  function Told(path: string, sha: string): string {
    "status=committed" + (if path == "" then "" else ";path=" + path) + (if sha == "" then "" else ";commit=" + sha)
  }

  /** What the end of a commit call leaves behind. */
  ghost predicate Settled(s: Shelf, t: Shelf, r: PublishRequest, answer: Result<PublishResult, Error>, done: CommitResult, at: int) {
    && r.decision.Some? && r.Key() in t.records
    && var record := t.records[r.Key()];
    match done
    case Failed => answer == Err(ProviderFailure) && t.log == s.log && t.records == s.records
    case Exhausted =>
      && answer == Err(ConflictExhausted)
      && Describes(record, r, DeadLettered, "commit conflicts exhausted retry budget")
      && record.body.path.None? && record.body.sha.None?
      && Linked(s.log, t.log, r, at, "status=dead_lettered")
    case Done(path, sha, created) =>
      && answer == Ok(PublishResult(record, false))
      && Describes(record, r, Committed, if created then "published" else "already present")
      && record.body.path == Some(path) && record.body.sha == Some(sha)
      && Linked(s.log, t.log, r, at, Told(path, sha))
  }

  lemma RowOfOpenEnd(repository: Repository, d: Decision, record: Record, at: int)
    requires record.body.path.None? && record.body.sha.None?
    ensures var row := LinkRow(repository, d, record, at);
      && row == AuditEvent(PublicationLinked, repository.Key(), at, Some(d.decisionId), Some(d.reviewerId), record.fingerprint, row.detail)
      && (record.body.status == DeadLettered ==> row.detail == "status=dead_lettered")
      && (record.body.status == SkippedByPolicy ==> row.detail == "status=skipped_by_policy")
  {
    assert "status=" + "dead_lettered" == "status=dead_lettered" && "status=" + "skipped_by_policy" == "status=skipped_by_policy";
    var text := record.body.status.Label();
    assert "status=" + text + "" + "" == "status=" + text;
  }

  lemma RowOfCommit(repository: Repository, d: Decision, record: Record, path: string, sha: string, at: int)
    requires record.body.path == Some(path) && record.body.sha == Some(sha) && record.body.status == Committed
    ensures LinkRow(repository, d, record, at)
         == AuditEvent(PublicationLinked, repository.Key(), at, Some(d.decisionId), Some(d.reviewerId), record.fingerprint, Told(path, sha))
  {
    assert "status=" + "committed" == "status=committed";
  }

  lemma SettleLeaves(s: Shelf, r: PublishRequest, d: Decision, done: CommitResult, at: int)
    requires r.decision == Some(d) && r.Key() in s.records && s.records[r.Key()].fingerprint == r.Fingerprint()
    ensures var (t, answer) := SettleFile(s, r, d, done, at);
      Settled(s, t, r, answer, done, at)
  {
    var t := SettleFile(s, r, d, done, at).0;
    match done
    case Failed =>
    case Exhausted => RowOfOpenEnd(r.repository, d, WithStatus(NewRecord(r, Pending, ""), DeadLettered, DEAD), at);
    case Done(path, sha, created) => RowOfCommit(r.repository, d, CommittedRecord(NewRecord(r, Pending, ""), path, sha, created), path, sha, at);
  }

  /** An authorised call that publishes leaves the record and the row of how its commit went. */
  lemma FileCallLeaves(s: Shelf, c: PublishCall, d: Decision, ttl: int, maxAttempts: nat)
    requires |c.turns| >= maxAttempts && c.request.policy.PublishesToGithub()
    requires c.request.decision == Some(d) && Prior(s.records, c.request).None?
    requires AuthorizePublication(s.log, c.request, c.now, c.linkedAt, ttl) == (s.log, Ok(d))
    ensures var (t, answer) := ApplyCall(s, c, ttl, maxAttempts); var r := c.request;
      var done := Commit(s.files, c.turns, PlanOf(JobOf(r, d.decisionId)), maxAttempts).2;
      var reserved := s.(records := Put(s.records, NewRecord(r, Pending, "")).0);
      && Settled(reserved, t, r, answer, done, c.linkedAt)
      && r.Key() in reserved.records
      && (r.Key() !in s.records ==> Describes(reserved.records[r.Key()], r, Pending, ""))
  {
    var now, r := s.(turns := c.turns), c.request;
    FileUnfolds(now, r, d, c.linkedAt, maxAttempts);
    var reserved := Put(s.records, NewRecord(r, Pending, "")).0;
    var (files, turns, done) := Commit(s.files, c.turns, PlanOf(JobOf(r, d.decisionId)), maxAttempts);
    SettleLeaves(now.(records := reserved, files := files, turns := turns), r, d, done, c.linkedAt);
  }

  /** An authorised call that skips records the skip, links it, and leaves the files alone. */
  lemma SkipCallLeaves(s: Shelf, c: PublishCall, d: Decision, ttl: int, maxAttempts: nat)
    requires |c.turns| >= maxAttempts && !c.request.policy.PublishesToGithub()
    requires c.request.decision == Some(d) && c.request.Key() !in s.records
    requires AuthorizePublication(s.log, c.request, c.now, c.linkedAt, ttl) == (s.log, Ok(d))
    ensures var (t, answer) := ApplyCall(s, c, ttl, maxAttempts); var id := d.decisionId;
      && id in t.records && t.records == s.records[id := t.records[id]] && answer == Ok(PublishResult(t.records[id], false))
      && Describes(t.records[id], c.request, SkippedByPolicy, "publication skipped by repository policy livingadr_only")
      && t.records[id].body.path.None? && t.records[id].body.sha.None?
      && Linked(s.log, t.log, c.request, c.linkedAt, "status=skipped_by_policy")
      && t.files == s.files
  {
    SkipsOnly(c.request.policy);
    RowOfOpenEnd(c.request.repository, d, NewRecord(c.request, SkippedByPolicy, SKIPPED), c.linkedAt);
  }

  /** Only one policy skips. */
  lemma SkipsOnly(p: Policy)
    ensures p.PublishesToGithub() <==> p == PublishToGithub || p == PublishToGithubAndLivingAdr
  {
  }
}
