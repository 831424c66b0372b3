/** Publish-back of approved ADRs (publication/models.py, publication/repository.py,
    publication/service.py): the record table, the bounded commit loop with marker recovery,
    and the publication service. */
module Publication {
  import opened Prelude
  import opened Text
  import opened Domain
  import opened InsertOnce
  import opened Fingerprints
  import opened Approval
  import opened Slugging
  import opened Numbering

  // ------------------------------------------------------------------ requests and records

  datatype Policy = LivingAdrOnly | PublishToGithub | PublishToGithubAndLivingAdr {
    predicate PublishesToGithub() {
      !LivingAdrOnly?
    }

    function Label(): string {
      match this
      case LivingAdrOnly => "livingadr_only"
      case PublishToGithub => "publish_to_github"
      case PublishToGithubAndLivingAdr => "publish_to_github_and_livingadr"
    }
  }

  /** `ADRPublicationTarget`. */
  datatype Destination = Destination(branch: string, template: string, directory: string, width: nat)

  /** `_padding_width`: the length of the template's first run of `N`, or 4. */
  function PaddingWidth(template: string): nat {
    var i := TokenStart(template);
    if i == |template| then 4 else |template| - i - |AfterRun(template[i..])|
  }

  /** `docs/adr/NNNN-<slug>.md`. */
  const DEFAULT_TEMPLATE := "docs/adr" + "/" + ("NNNN" + "-<slug>.md")

  /** `resolve_publication_target`, after the configuration's defaults are applied. */
  function ResolveDestination(branch: string, template: string): Destination {
    Destination(branch, template, Dirname(template), PaddingWidth(template))
  }

  datatype PublishRequest = PublishRequest(
    repository: Repository,
    adr: ADRRecord,
    decision: Option<Decision>,
    policy: Policy,
    destination: Destination)
  {
    function Key(): string {
      if decision.Some? then decision.value.decisionId else "no-decision"
    }

    function Target(): Target {
      Publish(repository.Key(), adr.adrId, adr.contentHash, policy.Label(), destination.branch, destination.template, Key())
    }

    function Fingerprint(): string {
      Target().Fingerprint()
    }
  }

  datatype Status = Pending | Committed | SkippedByPolicy | AlreadyPublished | DeadLettered {
    predicate IsTerminalSuccess() {
      Committed? || SkippedByPolicy? || AlreadyPublished?
    }

    function Label(): string {
      match this
      case Pending => "pending"
      case Committed => "committed"
      case SkippedByPolicy => "skipped_by_policy"
      case AlreadyPublished => "already_published"
      case DeadLettered => "dead_lettered"
    }
  }

  datatype RecordBody = RecordBody(
    repositoryKey: string,
    adrRecordId: string,
    contentHash: string,
    branch: string,
    status: Status,
    path: Option<string>,
    sha: Option<string>,
    detail: string)

  /** `PublicationRecord`: keyed by the decision id, compared by the fingerprint. */
  type Record = Row<RecordBody>

  function WithStatus(r: Record, status: Status, detail: string): Record {
    r.(body := r.body.(status := status, detail := detail))
  }

  /** `finalize`: reconcile with the row that is there, then overwrite it. */
  function Finalized(records: Table<RecordBody>, r: Record): Option<Table<RecordBody>> {
    if r.key in records && records[r.key].fingerprint != r.fingerprint then None else Some(records[r.key := r])
  }

  class PublicationRecords {
    var rows: Table<RecordBody>

    constructor ()
      ensures rows == map[]
    {
      rows := map[];
    }

    method Reserve(r: Record) returns (outcome: Outcome<RecordBody>)
      modifies this
      ensures (rows, outcome) == Put(old(rows), r)
    {
      if r.key in rows {
        return Reconcile(rows[r.key], r);
      }
      rows := rows[r.key := r];
      return Inserted(r);
    }

    method Finalize(r: Record) returns (ok: bool)
      modifies this
      ensures match Finalized(old(rows), r)
              case None => !ok && rows == old(rows)
              case Some(table) => ok && rows == table
    {
      if r.key in rows && rows[r.key].fingerprint != r.fingerprint {
        return false;
      }
      rows := rows[r.key := r];
      return true;
    }
  }

  // ------------------------------------------------------------------ the contents port

  /** A listed entry: the provider gives its name beside its path. */
  datatype Entry = Entry(path: string, directory: string, name: string, isFile: bool, text: string, sha: Option<string>)

  /** The id a provider lists for a file, which its content determines. */
  function ContentId(text: string): string {
    "blob:" + text
  }

  function FileAt(path: string, text: string): Entry {
    Entry(path, Dirname(path), Basename(path), true, text, Some(ContentId(text)))
  }

  /** How the provider treats one create request: `foreign` commits land between the listing
      and the create; the create itself is accepted, refused as a conflict (also without a
      visible reason), or breaks with another provider error. */
  datatype Turn = Turn(foreign: seq<Entry>, answer: Answer)

  datatype Answer = Accept(sha: string) | Refuse | Break

  function Listing(files: seq<Entry>, directory: string): seq<Entry> {
    Filter(files, (e: Entry) => e.directory == directory)
  }

  predicate Exists(files: seq<Entry>, path: string) {
    exists e :: e in files && e.path == path
  }

  datatype CreateResult = Created(sha: string) | CreateConflict | CreateFailed

  class ContentsPort {
    var files: seq<Entry>
    var turns: seq<Turn>

    constructor (files: seq<Entry>, turns: seq<Turn>)
      ensures this.files == files && this.turns == turns
    {
      this.files, this.turns := files, turns;
    }

    method ListDirectory(directory: string) returns (listing: seq<Entry>)
      ensures listing == Listing(files, directory)
    {
      listing := Listing(files, directory);
    }

    /** A create without a sha: an existing path conflicts. */
    method CreateFile(path: string, text: string) returns (r: CreateResult)
      requires turns != []
      modifies this
      ensures turns == old(turns)[1..]
      ensures (files, r) == CreateIn(old(files), old(turns)[0], path, text)
    {
      var turn := turns[0];
      turns := turns[1..];
      files := files + turn.foreign;
      match turn.answer
      case Break => return CreateFailed;
      case Refuse => return CreateConflict;
      case Accept(sha) =>
        if Exists(files, path) {
          return CreateConflict;
        }
        files := files + [FileAt(path, text)];
        return Created(sha);
    }
  }

  function CreateIn(files: seq<Entry>, turn: Turn, path: string, text: string): (seq<Entry>, CreateResult) {
    var now := files + turn.foreign;
    match turn.answer
    case Break => (now, CreateFailed)
    case Refuse => (now, CreateConflict)
    case Accept(sha) =>
      if Exists(now, path) then (now, CreateConflict)
      else (now + [FileAt(path, text)], Created(sha))
  }

  // ------------------------------------------------------------------ the committer

  /** What one commit call publishes. */
  datatype Job = Job(destination: Destination, decisionId: string, slug: string, text: string) {
    function Names(files: seq<Entry>): seq<string> {
      Map(Listing(files, destination.directory), (e: Entry) => e.name)
    }

    /** The path the next attempt would commit, from the current listing. */
    function NextPath(files: seq<Entry>): string {
      RenderAdrPath(destination.template, NextAdrNumber(Names(files)), slug, destination.width)
    }

    /** The entries the marker search looks into. */
    predicate Marked(e: Entry) {
      e.isFile && IsMarkdown(e.name) && Carries(e.text, decisionId)
    }

    function MarkedIn(files: seq<Entry>): seq<Entry> {
      Filter(Listing(files, destination.directory), (e: Entry) => Marked(e))
    }
  }

  /** What the retry loop uses of a job: the text, the next path and the marked entries. */
  datatype Plan = Plan(text: string, pathFor: seq<Entry> -> string, marked: seq<Entry> -> seq<Entry>)

  function PlanOf(job: Job): Plan {
    Plan(job.text, (files: seq<Entry>) => job.NextPath(files), (files: seq<Entry>) => job.MarkedIn(files))
  }

  function JobOf(r: PublishRequest, decisionId: string): Job {
    Job(r.destination, decisionId, Slugify(r.adr.title, r.adr.adrId, 80), EmbedMarker(r.adr.markdown, decisionId))
  }

  datatype CommitResult =
    | Done(path: string, sha: string, created: bool)
    | Exhausted
    | Failed

  /** One attempt: recover the marked file, or create the next path; a conflict decides
      nothing. */
  function Attempt(files: seq<Entry>, turns: seq<Turn>, plan: Plan): (seq<Entry>, seq<Turn>, Option<CommitResult>)
    requires turns != []
  {
    var marked := plan.marked(files);
    if marked != [] then
      (files, turns, Some(Done(marked[0].path, match marked[0].sha case Some(s) => s case None => "existing", false)))
    else
      var path := plan.pathFor(files);
      var (now, r) := CreateIn(files, turns[0], path, plan.text);
      match r
      case Created(sha) => (now, turns[1..], Some(Done(path, sha, true)))
      case CreateFailed => (now, turns[1..], Some(Failed))
      case CreateConflict => (now, turns[1..], None)
  }

  /** `commit` with `attempts` attempts left. */
  function Commit(files: seq<Entry>, turns: seq<Turn>, plan: Plan, attempts: nat): (seq<Entry>, seq<Turn>, CommitResult)
    requires |turns| >= attempts
    decreases attempts
  {
    if attempts == 0 then (files, turns, Exhausted)
    else
      var (now, rest, done) := Attempt(files, turns, plan);
      match done
      case Some(r) => (now, rest, r)
      case None => Commit(now, rest, plan, attempts - 1)
  }

  lemma CommitUnfolds(files: seq<Entry>, turns: seq<Turn>, plan: Plan, attempts: nat)
    requires |turns| >= attempts > 0
    ensures var (now, rest, done) := Attempt(files, turns, plan);
      && |rest| >= |turns| - 1
      && Commit(files, turns, plan, attempts) == match done case Some(r) => (now, rest, r) case None => Commit(now, rest, plan, attempts - 1)
  {
  }

  /** `SCMContentsPublicationCommitter`. */
  class Committer {
    const contents: ContentsPort
    const maxAttempts: nat

    constructor (contents: ContentsPort, maxAttempts: nat)
      requires maxAttempts >= 1
      ensures this.contents == contents && this.maxAttempts == maxAttempts
    {
      this.contents, this.maxAttempts := contents, maxAttempts;
    }

    method FindExistingMarker(job: Job, listing: seq<Entry>) returns (found: Option<Entry>)
      ensures var marked := Filter(listing, (e: Entry) => job.Marked(e));
        found == if marked == [] then None else Some(marked[0])
    {
      var marked := (e: Entry) => job.Marked(e);
      for i := 0 to |listing|
        invariant Filter(listing[..i], marked) == []
      {
        FilterAppend(listing[..i], [listing[i]], marked);
        assert listing[..i + 1] == listing[..i] + [listing[i]];
        if job.Marked(listing[i]) {
          FilterAppend(listing[..i + 1], listing[i + 1..], marked);
          assert listing == listing[..i + 1] + listing[i + 1..];
          return Some(listing[i]);
        }
      }
      assert listing[..|listing|] == listing;
      return None;
    }

    /** One look at the directory: the marked entry if there is one, else the next path. */
    method Inspect(job: Job) returns (existing: Option<Entry>, path: string)
      ensures var marked := PlanOf(job).marked(contents.files);
        existing == if marked == [] then None else Some(marked[0])
      ensures existing.None? ==> path == PlanOf(job).pathFor(contents.files)
    {
      var listing := contents.ListDirectory(job.destination.directory);
      existing := FindExistingMarker(job, listing);
      path := "";
      if existing.None? {
        var number := NextAdrNumber(Map(listing, (e: Entry) => e.name));
        path := RenderAdrPath(job.destination.template, number, job.slug, job.destination.width);
      }
    }

    method AttemptJob(job: Job) returns (done: Option<CommitResult>)
      requires contents.turns != []
      modifies contents
      ensures (contents.files, contents.turns, done) == Attempt(old(contents.files), old(contents.turns), PlanOf(job))
      ensures |contents.turns| >= |old(contents.turns)| - 1
    {
      var existing, path := Inspect(job);
      if existing.Some? {
        return Some(Done(existing.value.path, match existing.value.sha case Some(s) => s case None => "existing", false));
      }
      var created := contents.CreateFile(path, job.text);
      match created
      case Created(sha) => return Some(Done(path, sha, true));
      case CreateFailed => return Some(Failed);
      case CreateConflict => return None;
    }

    method CommitJob(job: Job) returns (r: CommitResult)
      requires |contents.turns| >= maxAttempts
      modifies contents
      ensures (contents.files, contents.turns, r) == Commit(old(contents.files), old(contents.turns), PlanOf(job), maxAttempts)
    {
      ghost var plan := PlanOf(job);
      ghost var outcome := Commit(contents.files, contents.turns, plan, maxAttempts);
      for left := maxAttempts downto 0
        invariant |contents.turns| >= left
        invariant outcome == Commit(contents.files, contents.turns, plan, left)
      {
        CommitUnfolds(contents.files, contents.turns, plan, left + 1);
        var done := AttemptJob(job);
        if done.Some? {
          return done.value;
        }
      }
      return Exhausted;
    }
  }

  // ------------------------------------------------------------------ the service

  /** Everything publish-back reads and writes. */
  datatype Shelf = Shelf(log: Log, records: Table<RecordBody>, files: seq<Entry>, turns: seq<Turn>)

  datatype PublishResult = PublishResult(record: Record, idempotent: bool)

  /** `_authorize`: validation (content aside), then proof of consumption. */
  function AuthorizePublication(log: Log, r: PublishRequest, now: int, failedAt: int, ttl: int): (Log, Result<Decision, Error>) {
    if r.decision.None? || !r.decision.value.approved then (log, Err(NotAuthorized))
    else
      var (after, valid) :=
        ValidateForMutation(log, r.decision, r.repository, UpsertFingerprint(r.repository, r.adr), None, now, failedAt, ttl);
      match valid
      case Err(e) => (after, Err(e))
      case Ok(d) => if d.decisionId in after.consumptions then (after, Ok(d)) else (after, Err(NotAuthorized))
  }

  function NewRecord(r: PublishRequest, status: Status, detail: string): Record {
    Row(r.Key(), r.Fingerprint(),
        RecordBody(r.repository.Key(), r.adr.adrId, r.adr.contentHash, r.destination.branch, status, None, None, detail))
  }

  function LinkRow(repository: Repository, d: Decision, record: Record, at: int): AuditEvent {
    var b := record.body;
    AuditEvent(PublicationLinked, repository.Key(), at, Some(d.decisionId), Some(d.reviewerId), record.fingerprint,
               "status=" + b.status.Label()
               + (if b.path.Some? && b.path.value != "" then ";path=" + b.path.value else "")
               + (if b.sha.Some? && b.sha.value != "" then ";commit=" + b.sha.value else ""))
  }

  const SKIPPED := "publication skipped by repository policy livingadr_only"
  const DEAD := "commit conflicts exhausted retry budget"

  function CommittedRecord(intent: Record, path: string, sha: string, created: bool): Record {
    intent.(body := intent.body.(status := Committed, path := Some(path), sha := Some(sha),
                                 detail := if created then "published" else "already present"))
  }

  /** `finalize` and the audit link behind it. */
  function FinishRecord(s: Shelf, r: PublishRequest, d: Decision, record: Record, at: int): Option<Shelf> {
    match Finalized(s.records, record)
    case None => None
    case Some(table) => Some(s.(records := table, log := s.log.Append(LinkRow(r.repository, d, record, at))))
  }

  /** What the end of the commit call means for the record and the caller. */
  function SettleFile(s: Shelf, r: PublishRequest, d: Decision, done: CommitResult, linkedAt: int): (Shelf, Result<PublishResult, Error>) {
    var intent := NewRecord(r, Pending, "");
    match done
    case Failed => (s, Err(ProviderFailure))
    case Exhausted =>
      (match FinishRecord(s, r, d, WithStatus(intent, DeadLettered, DEAD), linkedAt)
       case None => (s, Err(PublicationTargetMismatch))
       case Some(t) => (t, Err(ConflictExhausted)))
    case Done(path, sha, created) =>
      var committed := CommittedRecord(intent, path, sha, created);
      match FinishRecord(s, r, d, committed, linkedAt)
      case None => (s, Err(PublicationTargetMismatch))
      case Some(t) => (t, Ok(PublishResult(committed, false)))
  }

  /** Steps 4 to 6 of `publish`: reserve the intent, commit, finalise. */
  function PublishFile(s: Shelf, r: PublishRequest, d: Decision, linkedAt: int, maxAttempts: nat): (Shelf, Result<PublishResult, Error>)
    requires |s.turns| >= maxAttempts
  {
    var (reserved, outcome) := Put(s.records, NewRecord(r, Pending, ""));
    if outcome.Conflict? then (s, Err(PublicationTargetMismatch))
    else
      var (files, turns, done) := Commit(s.files, s.turns, PlanOf(JobOf(r, d.decisionId)), maxAttempts);
      SettleFile(s.(records := reserved, files := files, turns := turns), r, d, done, linkedAt)
  }

  /** The short cut before authorisation: what a prior record of this decision means. */
  function Prior(records: Table<RecordBody>, r: PublishRequest): Option<Result<PublishResult, Error>> {
    if r.decision.None? || r.Key() !in records then None
    else
      var prior := records[r.Key()];
      if prior.fingerprint != r.Fingerprint() then Some(Err(PublicationTargetMismatch))
      else if prior.body.status.IsTerminalSuccess() then
        Some(Ok(PublishResult(prior.(body := prior.body.(status := AlreadyPublished)), true)))
      else None
  }

  /** `publish`, run to its end. */
  function PublishAdr(s: Shelf, r: PublishRequest, now: int, linkedAt: int, ttl: int, maxAttempts: nat)
    : (Shelf, Result<PublishResult, Error>)
    requires |s.turns| >= maxAttempts
  {
    match Prior(s.records, r)
    case Some(answer) => (s, answer)
    case None =>
      var (log, valid) := AuthorizePublication(s.log, r, now, linkedAt, ttl);
      var after := s.(log := log);
      match valid
      case Err(e) => (after, Err(e))
      case Ok(d) =>
        if r.policy.PublishesToGithub() then PublishFile(after, r, d, linkedAt, maxAttempts)
        else
          var record := NewRecord(r, SkippedByPolicy, SKIPPED);
          var (table, outcome) := Put(after.records, record);
          if outcome.Conflict? then (after, Err(PublicationTargetMismatch))
          else (after.(records := table, log := after.log.Append(LinkRow(r.repository, d, record, linkedAt))),
                Ok(PublishResult(record, false)))
  }

  class PublicationService {
    const audit: AuditRepository
    const records: PublicationRecords
    const committer: Committer
    const ttl: int

    ghost function State(): Shelf
      reads audit, records, committer.contents
    {
      Shelf(audit.State(), records.rows, committer.contents.files, committer.contents.turns)
    }

    constructor (audit: AuditRepository, records: PublicationRecords, committer: Committer, ttl: int)
      ensures this.audit == audit && this.records == records && this.committer == committer && this.ttl == ttl
    {
      this.audit, this.records, this.committer, this.ttl := audit, records, committer, ttl;
    }

    method Authorize(r: PublishRequest, now: int, failedAt: int) returns (valid: Result<Decision, Error>)
      modifies audit
      ensures (audit.State(), valid) == AuthorizePublication(old(audit.State()), r, now, failedAt, ttl)
    {
      if r.decision.None? || !r.decision.value.approved {
        return Err(NotAuthorized);
      }
      valid := RunValidation(audit, r.decision, r.repository, UpsertFingerprint(r.repository, r.adr), None, now, failedAt, ttl);
      if valid.Ok? && audit.State().GetConsumption(valid.value.decisionId).None? {
        return Err(NotAuthorized);
      }
    }

    method PublishToFile(r: PublishRequest, d: Decision, linkedAt: int) returns (result: Result<PublishResult, Error>)
      requires |committer.contents.turns| >= committer.maxAttempts
      modifies audit, records, committer.contents
      ensures (State(), result) == PublishFile(old(State()), r, d, linkedAt, committer.maxAttempts)
    {
      var intent := NewRecord(r, Pending, "");
      var reserved := records.Reserve(intent);
      if reserved.Conflict? {
        return Err(PublicationTargetMismatch);
      }
      var done := committer.CommitJob(JobOf(r, d.decisionId));
      match done
      case Failed => return Err(ProviderFailure);
      case Exhausted =>
        var dead := WithStatus(intent, DeadLettered, DEAD);
        var ok := records.Finalize(dead);
        if !ok {
          return Err(PublicationTargetMismatch);
        }
        audit.RecordAuditEvent(LinkRow(r.repository, d, dead, linkedAt));
        return Err(ConflictExhausted);
      case Done(path, sha, created) =>
        var committed := CommittedRecord(intent, path, sha, created);
        var ok := records.Finalize(committed);
        if !ok {
          return Err(PublicationTargetMismatch);
        }
        audit.RecordAuditEvent(LinkRow(r.repository, d, committed, linkedAt));
        return Ok(PublishResult(committed, false));
    }

    method PublishOne(r: PublishRequest, now: int, linkedAt: int) returns (result: Result<PublishResult, Error>)
      requires |committer.contents.turns| >= committer.maxAttempts
      modifies audit, records, committer.contents
      ensures (State(), result) == PublishAdr(old(State()), r, now, linkedAt, ttl, committer.maxAttempts)
    {
      if r.decision.Some? && r.Key() in records.rows {
        var prior := records.rows[r.Key()];
        if prior.fingerprint != r.Fingerprint() {
          return Err(PublicationTargetMismatch);
        }
        if prior.body.status.IsTerminalSuccess() {
          return Ok(PublishResult(prior.(body := prior.body.(status := AlreadyPublished)), true));
        }
      }
      var valid := Authorize(r, now, linkedAt);
      if valid.Err? {
        return Err(valid.error);
      }
      if !r.policy.PublishesToGithub() {
        var record := NewRecord(r, SkippedByPolicy, SKIPPED);
        var reserved := records.Reserve(record);
        if reserved.Conflict? {
          return Err(PublicationTargetMismatch);
        }
        audit.RecordAuditEvent(LinkRow(r.repository, valid.value, record, linkedAt));
        return Ok(PublishResult(record, false));
      }
      result := PublishToFile(r, valid.value, linkedAt);
    }
  }
}
