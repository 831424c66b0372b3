/** Laws of single publish calls: the two moves a call makes on its record, when a dead letter
    is retried, which text reaches the repository, what is forgotten with a lost record, and that
    the default template meets what the file theorems ask for. */
module PublicationLaws {
  import opened Prelude
  import opened Text
  import opened Hashing
  import opened Domain
  import opened InsertOnce
  import opened Fingerprints
  import opened Approval
  import opened Numbering
  import opened Publication
  import opened PublicationRuns
  import Slugging
  import Pp = PublicationProtocol
  import SystemRuns

  // ------------------------------------------------------------------ reserve, then finalise

  /** One store operation on one record: a reservation makes an absent record pending (or
      skipped), a finalisation closes one that is pending or dead-lettered. */
  ghost predicate LegalStep(before: Option<Record>, after: Option<Record>) {
    || after == before
    || (before.None? && after.Some? && after.value.body.status in {Pending, SkippedByPolicy})
    || (before.Some? && after.Some? && after.value.fingerprint == before.value.fingerprint
        && before.value.body.status in {Pending, DeadLettered} && after.value.body.status in {Committed, DeadLettered})
  }

  ghost predicate AllConflict(s: Shelf, c: PublishCall, d: Decision, maxAttempts: nat)
    requires |c.turns| >= maxAttempts
  {
    forall i :: 0 <= i < maxAttempts ==> ConflictsAt(s.files, c.turns, PlanOf(JobOf(c.request, d.decisionId)), i)
  }

  /** The record behind the reservation of a publishing call. */
  function Reserved(s: Shelf, r: PublishRequest): Record {
    if r.Key() in s.records then s.records[r.Key()] else NewRecord(r, Pending, "")
  }

  /** An authorised call that publishes makes two steps on its record. The first makes an absent
      record pending and leaves any other as it is; the second dead-letters exactly when every
      attempt conflicts, commits exactly when an attempt succeeds, and is not made when the
      provider breaks. */
  lemma ReserveThenFinalize(s: Shelf, c: PublishCall, d: Decision, ttl: int, maxAttempts: nat)
    requires |c.turns| >= maxAttempts && c.request.policy.PublishesToGithub()
    requires c.request.decision.Some? && Prior(s.records, c.request).None?
    requires AuthorizePublication(s.log, c.request, c.now, c.linkedAt, ttl) == (s.log, Ok(d))
    ensures var (t, answer) := ApplyCall(s, c, ttl, maxAttempts); var id := c.request.Key();
      && id in t.records
      && LegalStep(RecordOf(s, id), Some(Reserved(s, c.request)))
      && LegalStep(Some(Reserved(s, c.request)), Some(t.records[id]))
      && (answer.Ok? ==> t.records[id].body.status == Committed)
      && (AllConflict(s, c, d, maxAttempts) ==> t.records[id].body.status == DeadLettered && answer == Err(ConflictExhausted))
      && (answer.Err? && !AllConflict(s, c, d, maxAttempts) ==> t.records[id] == Reserved(s, c.request) && answer == Err(ProviderFailure))
  {
    var now := s.(turns := c.turns);
    PublishedRecords(now, c.request, d, c.linkedAt, maxAttempts);
    FileRecordMoves(s.records, c.request, Commit(now.files, now.turns, PlanOf(JobOf(c.request, d.decisionId)), maxAttempts).2);
    ExhaustedIffAllConflict(s.files, c.turns, PlanOf(JobOf(c.request, d.decisionId)), maxAttempts);
    AnswerOfFile(now, c.request, d, c.linkedAt, maxAttempts);
  }

  lemma AnswerOfFile(s: Shelf, r: PublishRequest, d: Decision, linkedAt: int, maxAttempts: nat)
    requires |s.turns| >= maxAttempts && r.decision.Some? && Prior(s.records, r).None?
    ensures var (t, answer) := PublishFile(s, r, d, linkedAt, maxAttempts);
      var done := Commit(s.files, s.turns, PlanOf(JobOf(r, d.decisionId)), maxAttempts).2;
      && (done.Exhausted? ==> answer == Err(ConflictExhausted))
      && (done.Failed? ==> answer == Err(ProviderFailure))
  {
    FileUnfolds(s, r, d, linkedAt, maxAttempts);
    var reserved := Put(s.records, NewRecord(r, Pending, "")).0;
    var (files, turns, done) := Commit(s.files, s.turns, PlanOf(JobOf(r, d.decisionId)), maxAttempts);
    AnswerOfSettling(s.(records := reserved, files := files, turns := turns), r, d, done, linkedAt);
  }

  lemma AnswerOfSettling(s: Shelf, r: PublishRequest, d: Decision, done: CommitResult, linkedAt: int)
    requires r.Key() in s.records && s.records[r.Key()].fingerprint == r.Fingerprint()
    ensures var answer := SettleFile(s, r, d, done, linkedAt).1;
      && (done.Exhausted? ==> answer == Err(ConflictExhausted))
      && (done.Failed? ==> answer == Err(ProviderFailure))
  {
  }

  lemma OtherCallSteps(s: Shelf, c: PublishCall, ttl: int, maxAttempts: nat)
    requires c.request.decision.None? || |c.turns| < maxAttempts || !c.request.policy.PublishesToGithub()
             || Prior(s.records, c.request).Some? || AuthorizePublication(s.log, c.request, c.now, c.linkedAt, ttl).1.Err?
    ensures var t := ApplyCall(s, c, ttl, maxAttempts).0;
      t.records == s.records || t.records == Put(s.records, NewRecord(c.request, SkippedByPolicy, SKIPPED)).0
  {
  }

  lemma AuthorizedLogStays(log: Log, r: PublishRequest, now: int, failedAt: int, ttl: int)
    ensures var (after, valid) := AuthorizePublication(log, r, now, failedAt, ttl); valid.Ok? ==> after == log && r.decision == Some(valid.value)
  {
  }

  /** Every call, whatever it presents, moves each record by at most two legal steps: absent to
      pending or skipped, pending or dead-lettered to committed or dead-lettered. */
  lemma CallTakesLegalSteps(s: Shelf, c: PublishCall, ttl: int, maxAttempts: nat, id: string) returns (between: Option<Record>)
    ensures LegalStep(RecordOf(s, id), between)
    ensures LegalStep(between, RecordOf(ApplyCall(s, c, ttl, maxAttempts).0, id))
  {
    var r := c.request;
    var (log, valid) := AuthorizePublication(s.log, r, c.now, c.linkedAt, ttl);
    AuthorizedLogStays(s.log, r, c.now, c.linkedAt, ttl);
    between := RecordOf(s, id);
    if r.decision.None? || |c.turns| < maxAttempts || !r.policy.PublishesToGithub() || Prior(s.records, r).Some? || valid.Err? {
      OtherCallSteps(s, c, ttl, maxAttempts);
    } else if id == r.Key() {
      ReserveThenFinalize(s, c, valid.value, ttl, maxAttempts);
      between := Some(Reserved(s, r));
    } else {
      CallMovesRecord(s, c, ttl, maxAttempts, id);
    }
  }

  // ------------------------------------------------------------------ a first attempt that succeeds

  /** The first attempt of a publishing call can create its file. */
  ghost predicate Clear(s: Shelf, c: PublishCall, maxAttempts: nat) {
    var r := c.request;
    && r.decision.Some? && r.policy.PublishesToGithub() && Prior(s.records, r).None?
    && |c.turns| >= maxAttempts >= 1 && c.turns[0].answer.Accept?
    && var job := JobOf(r, r.decision.value.decisionId);
    && job.MarkedIn(s.files) == []
    && !Exists(s.files + c.turns[0].foreign, job.NextPath(s.files))
  }

  lemma FirstCreates(files: seq<Entry>, turns: seq<Turn>, plan: Plan, attempts: nat)
    requires |turns| >= attempts >= 1 && turns[0].answer.Accept?
    requires plan.marked(files) == [] && !Exists(files + turns[0].foreign, plan.pathFor(files))
    ensures var (after, left, done) := Commit(files, turns, plan, attempts);
      && done.Done? && done.created && done.path == plan.pathFor(files) && done.sha == turns[0].answer.sha
      && after == files + turns[0].foreign + [FileAt(plan.pathFor(files), plan.text)]
  {
  }

  /** Without an earlier record a publishing call is its authorisation and what follows it. */
  lemma CallUnfolds(s: Shelf, c: PublishCall, ttl: int, maxAttempts: nat)
    requires |c.turns| >= maxAttempts && c.request.policy.PublishesToGithub() && Prior(s.records, c.request).None?
    ensures var (log, valid) := AuthorizePublication(s.log, c.request, c.now, c.linkedAt, ttl);
      var now := s.(turns := c.turns, log := log);
      ApplyCall(s, c, ttl, maxAttempts)
      == match valid
         case Err(e) => (now, Err(e))
         case Ok(d) => PublishFile(now, c.request, d, c.linkedAt, maxAttempts)
  {
  }

  /** A clear call creates its file exactly when it is authorised. */
  lemma ClearCallPublishes(s: Shelf, c: PublishCall, ttl: int, maxAttempts: nat)
    requires Clear(s, c, maxAttempts)
    ensures var (t, answer) := ApplyCall(s, c, ttl, maxAttempts);
      var job := JobOf(c.request, c.request.decision.value.decisionId);
      && (answer.Ok? <==> AuthorizePublication(s.log, c.request, c.now, c.linkedAt, ttl).1.Ok?)
      && (answer.Ok? ==> t.files == s.files + c.turns[0].foreign + [FileAt(job.NextPath(s.files), job.text)])
  {
    var r := c.request;
    var (log, valid) := AuthorizePublication(s.log, r, c.now, c.linkedAt, ttl);
    CallUnfolds(s, c, ttl, maxAttempts);
    AuthorizedLogStays(s.log, r, c.now, c.linkedAt, ttl);
    if valid.Ok? {
      var now := s.(turns := c.turns, log := log);
      var plan := PlanOf(JobOf(r, valid.value.decisionId));
      assert plan.marked(s.files) == [] && plan.pathFor(s.files) == JobOf(r, valid.value.decisionId).NextPath(s.files);
      FirstCreates(s.files, c.turns, plan, maxAttempts);
      PublishedRecords(now, r, valid.value, c.linkedAt, maxAttempts);
      FilesOfCall(now, r, valid.value, c.linkedAt, maxAttempts);
    }
  }

  lemma FilesOfCall(s: Shelf, r: PublishRequest, d: Decision, linkedAt: int, maxAttempts: nat)
    requires |s.turns| >= maxAttempts && r.decision.Some? && Prior(s.records, r).None?
    ensures PublishFile(s, r, d, linkedAt, maxAttempts).0.files
         == Commit(s.files, s.turns, PlanOf(JobOf(r, d.decisionId)), maxAttempts).0
  {
    FileUnfolds(s, r, d, linkedAt, maxAttempts);
    var reserved := Put(s.records, NewRecord(r, Pending, "")).0;
    var (files, turns, done) := Commit(s.files, s.turns, PlanOf(JobOf(r, d.decisionId)), maxAttempts);
    SettledRecords(s.(records := reserved, files := files, turns := turns), r, d, done, linkedAt);
  }

  /** The request is what its decision was minted and consumed for. */
  ghost predicate Entitled(s: Shelf, r: PublishRequest) {
    && r.decision.Some? && r.decision.value.approved
    && r.decision.value.repository == r.repository
    && r.decision.value.targetFingerprint == UpsertFingerprint(r.repository, r.adr)
    && r.decision.value.decisionId in s.log.consumptions && r.decision.value.decisionId in s.log.decisions
  }

  /** A dead-lettered publication, retried by an entitled request that the directory lets
      through, succeeds exactly while its decision is in time; after that it is refused and
      stays dead-lettered. */
  lemma DeadLetterRetriedInTime(s: Shelf, c: PublishCall, ttl: int, maxAttempts: nat)
    requires Clear(s, c, maxAttempts) && Entitled(s, c.request)
    requires c.request.Key() in s.records && s.records[c.request.Key()].body.status == DeadLettered
    ensures var (t, answer) := ApplyCall(s, c, ttl, maxAttempts); var id := c.request.Key();
      && (answer.Ok? <==> c.now <= s.log.decisions[id].ExpiresAt())
      && id in t.records
      && t.records[id].body.status == if c.now <= s.log.decisions[id].ExpiresAt() then Committed else DeadLettered
  {
    var r := c.request;
    ClearCallPublishes(s, c, ttl, maxAttempts);
    var (log, valid) := AuthorizePublication(s.log, r, c.now, c.linkedAt, ttl);
    if valid.Ok? {
      PublishedRecords(s.(turns := c.turns, log := log), r, valid.value, c.linkedAt, maxAttempts);
    }
  }

  // ------------------------------------------------------------------ the text that is published

  /** The same request with another text in its record. */
  function WithText(c: PublishCall, text: string): PublishCall {
    c.(request := c.request.(adr := c.request.adr.(markdown := text)))
  }

  /** Publication validates the content hash field, not the text: a clear call that succeeds
      would succeed, at the same path, with any text in the record. */
  lemma TextIsNotChecked(s: Shelf, c: PublishCall, text: string, ttl: int, maxAttempts: nat)
    requires Clear(s, c, maxAttempts) && ApplyCall(s, c, ttl, maxAttempts).1.Ok?
    ensures var (t, answer) := ApplyCall(s, WithText(c, text), ttl, maxAttempts);
      var id := c.request.decision.value.decisionId;
      answer.Ok? && t.files == s.files + c.turns[0].foreign
                               + [FileAt(JobOf(c.request, id).NextPath(s.files), EmbedMarker(text, id))]
  {
    var other := WithText(c, text);
    ClearCallPublishes(s, c, ttl, maxAttempts);
    assert other.request.Fingerprint() == c.request.Fingerprint();
    assert UpsertFingerprint(other.request.repository, other.request.adr) == UpsertFingerprint(c.request.repository, c.request.adr);
    var id := c.request.decision.value.decisionId;
    assert JobOf(other.request, id) == JobOf(c.request, id).(text := EmbedMarker(text, id));
    TextLeavesTheSearch(JobOf(c.request, id), EmbedMarker(text, id), s.files);
    ClearCallPublishes(s, other, ttl, maxAttempts);
  }

  lemma TextLeavesTheSearch(job: Job, text: string, files: seq<Entry>)
    ensures job.(text := text).MarkedIn(files) == job.MarkedIn(files)
    ensures job.(text := text).NextPath(files) == job.NextPath(files)
  {
    SameMarks(Listing(files, job.destination.directory), job, job.(text := text));
  }

  lemma {:induction false} SameMarks(entries: seq<Entry>, job: Job, other: Job)
    requires other.decisionId == job.decisionId
    ensures Filter(entries, (e: Entry) => other.Marked(e)) == Filter(entries, (e: Entry) => job.Marked(e))
  {
    if entries != [] {
      SameMarks(entries[1..], job, other);
    }
  }

  /** What a caller can check: the published text is the reviewed one, up to line endings,
      exactly when its canonical hash is the one the decision carries. */
  lemma PublishedTextIsReviewed(r: PublishRequest, d: Decision, reviewed: string)
    requires CanonicalHash(reviewed) == d.contentHash
    ensures ScanLineEndings(r.adr.markdown) == ScanLineEndings(reviewed) <==> CanonicalHash(r.adr.markdown) == d.contentHash
  {
    CanonicalHashEqual(r.adr.markdown, reviewed);
  }

  // ------------------------------------------------------------------ another directory

  /** The same request for another destination. */
  function Toward(c: PublishCall, d: Destination): PublishCall {
    c.(request := c.request.(destination := d))
  }

  /** The search looks into one directory, and only the record remembers the destination: once
      the record is lost, the same decision publishes a second marked file wherever the first
      one is not seen. */
  lemma OtherDirectoryAfterLoss(s: Shelf, c: PublishCall, d: Destination, ttl: int, maxAttempts: nat)
    requires Clear(s, c, maxAttempts) && ApplyCall(s, c, ttl, maxAttempts).1.Ok?
    requires Clear(ApplyCall(s, c, ttl, maxAttempts).0.(records := map[]), Toward(c, d), maxAttempts)
    ensures var first := ApplyCall(s, c, ttl, maxAttempts).0;
      var (second, answer) := ApplyCall(first.(records := map[]), Toward(c, d), ttl, maxAttempts);
      var id, foreign := c.request.decision.value.decisionId, c.turns[0].foreign;
      && answer.Ok?
      && first.files == s.files + foreign + [FileAt(JobOf(c.request, id).NextPath(s.files), JobOf(c.request, id).text)]
      && second.files == first.files + foreign + [FileAt(JobOf(Toward(c, d).request, id).NextPath(first.files), JobOf(c.request, id).text)]
      && Carries(JobOf(c.request, id).text, id)
  {
    var first := ApplyCall(s, c, ttl, maxAttempts).0;
    ClearCallPublishes(s, c, ttl, maxAttempts);
    LinkedLog(s, c, ttl, maxAttempts);
    ClearCallPublishes(first.(records := map[]), Toward(c, d), ttl, maxAttempts);
    EmbeddedCarries(c.request.adr.markdown, c.request.decision.value.decisionId);
  }

  /** A call leaves minted and consumption tables alone. */
  lemma LinkedLog(s: Shelf, c: PublishCall, ttl: int, maxAttempts: nat)
    ensures var t := ApplyCall(s, c, ttl, maxAttempts).0;
      t.log.decisions == s.log.decisions && t.log.consumptions == s.log.consumptions
  {
    SystemRuns.PublishedLog(s, c, ttl, maxAttempts);
  }

  // ------------------------------------------------------------------ the default template

  lemma {:induction false} TokenBehind(head: string, tail: string)
    requires 'N' !in head
    ensures TokenStart(head + tail) == |head| + TokenStart(tail)
  {
    if head == "" {
      assert head + tail == tail;
    } else {
      assert (head + tail)[1..] == head[1..] + tail;
      TokenBehind(head[1..], tail);
    }
  }

  lemma AfterOneN(s: string)
    ensures AfterRun("N" + s) == AfterRun(s)
  {
    assert ("N" + s)[1..] == s;
  }

  lemma AfterFourN(s: string)
    requires s != "" && s[0] != 'N'
    ensures AfterRun("NNNN" + s) == s
  {
    AfterOneN("NNN" + s);
    AfterOneN("NN" + s);
    AfterOneN("N" + s);
    AfterOneN(s);
    assert "NNNN" + s == "N" + ("NNN" + s);
    assert "NNN" + s == "N" + ("NN" + s);
    assert "NN" + s == "N" + ("N" + s);
  }

  lemma NoSlugIn(head: string)
    requires '<' !in head
    ensures !Contains(head, SLUG_TOKEN)
  {
    ContainsAt(head, SLUG_TOKEN);
    assert SLUG_TOKEN[0] == '<';
    forall i | 0 <= i <= |head| ensures !(SLUG_TOKEN <= head[i..]) {
      PrefixElements(SLUG_TOKEN, head[i..]);
      assert i < |head| ==> head[i..][0] == head[i];
    }
  }

  ghost predicate Template(directory: string, tail: string) {
    && directory != "" && directory[|directory| - 1] != '/' && 'N' !in directory && '<' !in directory
    && tail != "" && (tail[0] == '-' || tail[0] == '.') && '/' !in tail && EndsWith(tail, ".md")
  }

  lemma NumberOfTemplate(head: string, tail: string)
    requires head != "" && head[|head| - 1] == '/' && 'N' !in head && '<' !in head
    requires tail != "" && (tail[0] == '-' || tail[0] == '.') && '/' !in tail
    ensures var t := head + ("NNNN" + tail); WellPlaced(t) && Separated(t) && PaddingWidth(t) == 4
  {
    var name := "NNNN" + tail;
    var t := head + name;
    NameStartAt(head, name);
    TokenBehind(head, name);
    AfterFourN(tail);
    NoSlugIn(head);
    assert t[..|head|] == head && t[|head|..] == name;
  }

  lemma HalvesOfTemplate(directory: string, tail: string)
    requires Template(directory, tail)
    ensures var t := directory + "/" + ("NNNN" + tail); Dirname(t) == directory && IsMarkdown(t)
  {
    var head, name := directory + "/", "NNNN" + tail;
    HalvesAt(head, name);
    assert TrimSlashes(head) == TrimSlashes(directory) == directory by { assert head[..|head| - 1] == directory; }
    var t := head + name;
    assert t[|t| - 3..] == tail[|tail| - 3..];
  }

  /** A directory, four places for the number, and a Markdown tail. */
  lemma TemplateIsSound(directory: string, tail: string)
    requires Template(directory, tail)
    ensures var t := directory + "/" + ("NNNN" + tail);
      && WellPlaced(t) && Separated(t) && IsMarkdown(t) && Dirname(t) == directory && PaddingWidth(t) == 4
  {
    assert (directory + "/")[|directory|] == '/';
    NumberOfTemplate(directory + "/", tail);
    HalvesOfTemplate(directory, tail);
  }

  /** The configuration's default destination meets what the file theorems ask of one. */
  lemma DefaultTemplateIsSound(branch: string)
    ensures var d := ResolveDestination(branch, DEFAULT_TEMPLATE);
      Pp.SoundTemplate(d.template) && Separated(d.template) && d.directory == "docs/adr" && d.width == 4
  {
    var directory, tail := "docs/adr", "-<slug>.md";
    assert tail[|tail| - 3..] == ".md";
    TemplateIsSound(directory, tail);
  }

  // ------------------------------------------------------------------ the file a request gets

  /** Rendering keeps the directory and renders the name. */
  lemma RendersBehind(head: string, name: string, number: nat, slug: string, width: nat)
    requires WellPlaced(head + name) && '/' !in name && (head == "" || head[|head| - 1] == '/')
    ensures RenderAdrPath(head + name, number, slug, width)
         == head + (Number(number, width) + ReplaceAll(AfterRun(name), SLUG_TOKEN, slug))
  {
    RenderWellPlaced(head + name, number, slug, width);
    NameStartAt(head, name);
    assert (head + name)[..|head|] == head && (head + name)[|head|..] == name;
  }

  /** A template of this form renders to the directory, the padded number, a dash, the slug and
      the ending. */
  lemma TemplateRenders(directory: string, number: nat, slug: string, width: nat)
    requires Template(directory, "-" + SLUG_TOKEN + ".md")
    ensures RenderAdrPath(directory + "/" + ("NNNN" + ("-" + SLUG_TOKEN + ".md")), number, slug, width)
         == directory + "/" + Number(number, width) + "-" + slug + ".md"
  {
    var head, tail := directory + "/", "-" + SLUG_TOKEN + ".md";
    assert WellPlaced(head + ("NNNN" + tail)) by { TemplateIsSound(directory, tail); }
    RendersBehind(head, "NNNN" + tail, number, slug, width);
    TailRenders(slug);
    Concatenated(head, Number(number, width), slug);
  }

  lemma Concatenated(head: string, digits: string, slug: string)
    ensures head + (digits + ("-" + slug + ".md")) == head + digits + "-" + slug + ".md"
  {
  }

  lemma TailRenders(slug: string)
    ensures ReplaceAll(AfterRun("NNNN" + ("-" + SLUG_TOKEN + ".md")), SLUG_TOKEN, slug) == "-" + slug + ".md"
  {
    AfterFourN("-" + SLUG_TOKEN + ".md");
    ReplaceBetween("-", ".md", slug);
  }

  lemma DefaultTail()
    ensures DEFAULT_TEMPLATE == "docs/adr" + "/" + ("NNNN" + ("-" + SLUG_TOKEN + ".md"))
    ensures Template("docs/adr", "-" + SLUG_TOKEN + ".md")
  {
    var tail := "-" + SLUG_TOKEN + ".md";
    assert tail == "-<slug>.md";
    assert tail[|tail| - 3..] == ".md";
  }

  /** The name of a file behind its number: the words of the title with hyphens between them, at
      most 80 characters of them; the ADR id only when the title has no usable character. */
  function NameBehindNumber(title: string, adrId: string): string {
    var words := Slugging.Hyphenated(Slugging.Words(title));
    if Slugging.Words(title) == [] then (if adrId == "" then "adr" else "adr-" + adrId)
    else if |words| <= 80 then words
    else words[..if words[79] == '-' then 79 else 80]
  }

  lemma SlugOfRequest(r: PublishRequest, decisionId: string)
    ensures JobOf(r, decisionId).slug == NameBehindNumber(r.adr.title, r.adr.adrId)
    ensures JobOf(r, decisionId).destination == r.destination && JobOf(r, decisionId).decisionId == decisionId
    ensures JobOf(r, decisionId).text == EmbedMarker(r.adr.markdown, decisionId)
  {
    Slugging.SlugIsTitleWords(r.adr.title, r.adr.adrId, 80);
  }

  /** With the default template, an authorised call that can create its file creates it under
      docs/adr: the number after the highest listed one, at least four digits wide, and the
      title's words. The text is the record's, behind the marker line. */
  lemma ClearCallNamesTheFile(s: Shelf, c: PublishCall, branch: string, ttl: int, maxAttempts: nat)
    requires Clear(s, c, maxAttempts) && c.request.destination == ResolveDestination(branch, DEFAULT_TEMPLATE)
    requires ApplyCall(s, c, ttl, maxAttempts).1.Ok?
    ensures var r := c.request; var listed := Map(Listing(s.files, "docs/adr"), (e: Entry) => e.name);
      var name := NameBehindNumber(r.adr.title, r.adr.adrId);
      var path := "docs/adr" + "/" + Number(NextAdrNumber(listed), 4) + "-" + name + ".md";
      ApplyCall(s, c, ttl, maxAttempts).0.files
      == s.files + c.turns[0].foreign + [FileAt(path, EmbedMarker(r.adr.markdown, r.decision.value.decisionId))]
  {
    var r := c.request;
    var job := JobOf(r, r.decision.value.decisionId);
    ClearCallPublishes(s, c, ttl, maxAttempts);
    DefaultTemplateIsSound(branch);
    SlugOfRequest(r, r.decision.value.decisionId);
    DefaultTail();
    TemplateRenders("docs/adr", NextAdrNumber(job.Names(s.files)), job.slug, 4);
    assert job.Names(s.files) == Map(Listing(s.files, "docs/adr"), (e: Entry) => e.name);
  }

  // ------------------------------------------------------------------ the width of the number

  lemma {:induction false} AfterNs(ns: string, tail: string)
    requires (forall i :: 0 <= i < |ns| ==> ns[i] == 'N') && (tail == "" || tail[0] != 'N')
    ensures AfterRun(ns + tail) == tail
  {
    if ns == "" {
      assert ns + tail == tail;
    } else {
      assert (ns + tail)[1..] == ns[1..] + tail;
      AfterNs(ns[1..], tail);
    }
  }

  /** Numbers are as wide as the first run of `N` in the template, and four digits wide when it
      has none. */
  lemma PaddingCounts(branch: string, head: string, ns: string, tail: string)
    requires 'N' !in head && (forall i :: 0 <= i < |ns| ==> ns[i] == 'N') && (tail == "" || tail[0] != 'N')
    requires ns == "" ==> tail == ""
    ensures ResolveDestination(branch, head + (ns + tail)).width == if ns == "" then 4 else |ns|
  {
    TokenBehind(head, ns + tail);
    AfterNs(ns, tail);
    assert (head + (ns + tail))[|head|..] == ns + tail;
  }
}
