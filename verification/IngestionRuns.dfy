/** What holds of every run of webhooks and replays against one store, by processes that may
    stop in the middle of an operation and are configured with a provider or without one. */
module IngestionRuns {
  import opened Prelude
  import opened Ingestion

  datatype Op =
    | Webhook(id: string, filtered: Filtered, provider: bool, answers: Answers, stop: Stop)
    | Retry(id: string, answers: Answers, stop: Stop)

  const START := System(EMPTY, [])

  function Apply(s: System, op: Op, maxRetries: int): System {
    match op
    case Webhook(id, f, provider, a, stop) => Process(s, provider, id, f, a, stop).0
    case Retry(id, a, stop) => Replay(s, id, a, maxRetries, stop).0
  }

  function Run(s: System, ops: seq<Op>, maxRetries: int): System {
    if ops == [] then s else Apply(Run(s, ops[..|ops| - 1], maxRetries), ops[|ops| - 1], maxRetries)
  }

  lemma RunExtends(s: System, ops: seq<Op>, op: Op, maxRetries: int)
    ensures Run(s, ops + [op], maxRetries) == Apply(Run(s, ops, maxRetries), op, maxRetries)
  {
    assert (ops + [op])[..|ops|] == ops;
  }

  // ------------------------------------------------------------------ invariants

  /** The retry budget: what a status says about category and count. */
  ghost predicate WithinBudget(d: Delivery, maxRetries: int) {
    && (d.status.Retryable? ==> d.category in RETRYABLE_CATEGORIES && d.retries < maxRetries)
    && (d.status.DeadLetter? ==> d.category !in RETRYABLE_CATEGORIES || d.retries >= maxRetries)
  }

  /** An accepted or replayed delivery with an envelope has its evidence. */
  ghost predicate Evidenced(s: Store, id: string) {
    id in s.deliveries && id in s.envelopes && s.deliveries[id].status in {Accepted, Replayed} ==>
      s.envelopes[id].prKey in s.evidence
  }

  ghost predicate Keyed(s: Store) {
    && (forall id :: id in s.deliveries ==> s.deliveries[id].deliveryId == id)
    && (forall k :: k in s.evidence ==> s.evidence[k].prKey == k)
  }

  ghost predicate Inv(s: System, maxRetries: int) {
    && Keyed(s.store)
    && (forall id :: id in s.store.deliveries ==> WithinBudget(s.store.deliveries[id], maxRetries))
  }

  /** A build touches the evidence table only, adds to it at most the envelope's key, and
      answers with what is stored there. */
  lemma BuildAddsOneKey(s: System, e: Envelope, a: Answers, stop: Stop)
    requires Keyed(s.store)
    ensures var (t, built) := Build(s, e, a, stop);
      && t.store.deliveries == s.store.deliveries && t.store.envelopes == s.store.envelopes
      && Keyed(t.store)
      && (t.store.evidence == s.store.evidence ||
          (e.prKey !in s.store.evidence && t.store.evidence.Keys == s.store.evidence.Keys + {e.prKey}
           && forall k :: k in s.store.evidence ==> t.store.evidence[k] == s.store.evidence[k]))
      && (built.Have? ==> built.evidence.prKey == e.prKey && e.prKey in t.store.evidence && t.store.evidence[e.prKey] == built.evidence)
      && s.fetched <= t.fetched
  {
  }

  lemma AcceptedKeeps(s: System, id: string, f: Filtered, a: Answers, stop: Stop, maxRetries: int)
    requires Inv(s, maxRetries) && maxRetries >= 1 && f.Accept? && id !in s.store.deliveries
    ensures Inv(AcceptWithEvidence(s, id, f.repository, f.payload, a, stop).0, maxRetries)
  {
    var envelope := EnvelopeFor(id, f.repository, f.payload);
    BuildAddsOneKey(s.(store := s.store.WithEnvelope(id, envelope)), envelope, a, stop);
  }

  lemma StepKeeps(s: System, op: Op, maxRetries: int)
    requires Inv(s, maxRetries) && maxRetries >= 1
    ensures Inv(Apply(s, op, maxRetries), maxRetries)
  {
    match op
    case Webhook(id, f, provider, a, stop) =>
      if id !in s.store.deliveries && f.Accept? && provider {
        AcceptedKeeps(s, id, f, a, stop, maxRetries);
      }
    case Retry(id, a, stop) =>
      if id in s.store.envelopes {
        BuildAddsOneKey(s, s.store.envelopes[id], a, stop);
      }
  }

  lemma {:induction false} RunKeeps(s: System, ops: seq<Op>, maxRetries: int)
    requires Inv(s, maxRetries) && maxRetries >= 1
    ensures Inv(Run(s, ops, maxRetries), maxRetries)
  {
    if ops != [] {
      var n := |ops| - 1;
      RunKeeps(s, ops[..n], maxRetries);
      StepKeeps(Run(s, ops[..n], maxRetries), ops[n], maxRetries);
    }
  }

  /** In every run, with a budget of at least one: a retryable delivery has a retryable
      category and budget left, and a dead-lettered one a poison category or none left. */
  lemma {:induction false} EveryDelivery(ops: seq<Op>, maxRetries: int, id: string)
    requires maxRetries >= 1
    requires id in Run(START, ops, maxRetries).store.deliveries
    ensures WithinBudget(Run(START, ops, maxRetries).store.deliveries[id], maxRetries)
  {
    RunKeeps(START, ops, maxRetries);
  }

  /** A process without a provider accepts a delivery whose envelope an interrupted process
      has left, while the pull request has no evidence yet. */
  predicate AcceptsUnprovided(s: System, op: Op) {
    && op.Webhook? && op.filtered.Accept? && !op.provider && op.stop != BeforeDelivery
    && op.id !in s.store.deliveries
    && op.id in s.store.envelopes && s.store.envelopes[op.id].prKey !in s.store.evidence
  }

  lemma AcceptedEvidence(s: System, id: string, f: Filtered, a: Answers, stop: Stop, other: string)
    requires Keyed(s.store) && f.Accept? && id !in s.store.deliveries && Evidenced(s.store, other)
    ensures Evidenced(AcceptWithEvidence(s, id, f.repository, f.payload, a, stop).0.store, other)
  {
    var envelope := EnvelopeFor(id, f.repository, f.payload);
    BuildAddsOneKey(s.(store := s.store.WithEnvelope(id, envelope)), envelope, a, stop);
  }

  /** The one operation after which an accepted delivery with an envelope lacks its evidence. */
  lemma EvidenceLostExactly(s: System, op: Op, maxRetries: int, id: string)
    requires Keyed(s.store) && Evidenced(s.store, id)
    ensures Evidenced(Apply(s, op, maxRetries).store, id) <==> !(op.id == id && AcceptsUnprovided(s, op))
  {
    match op
    case Webhook(x, f, provider, a, stop) =>
      if x !in s.store.deliveries && f.Accept? && provider {
        AcceptedEvidence(s, x, f, a, stop, id);
      }
    case Retry(x, a, stop) =>
      if x in s.store.envelopes {
        BuildAddsOneKey(s, s.store.envelopes[x], a, stop);
      }
  }

  lemma TakeTake(ops: seq<Op>, n: nat)
    requires n <= |ops|
    ensures forall i :: 0 <= i <= n ==> ops[..n][..i] == ops[..i]
  {
  }

  /** A delivery has its evidence at every moment of a run. */
  ghost predicate AlwaysEvidenced(ops: seq<Op>, maxRetries: int, id: string) {
    forall i :: 0 <= i <= |ops| ==> Evidenced(Run(START, ops[..i], maxRetries).store, id)
  }

  /** No operation of a run accepts the delivery without a provider over a left envelope. */
  ghost predicate NeverUnprovided(ops: seq<Op>, maxRetries: int, id: string) {
    forall i :: 0 <= i < |ops| ==> !(ops[i].id == id && AcceptsUnprovided(Run(START, ops[..i], maxRetries), ops[i]))
  }

  /** Whenever a delivery with an envelope is accepted or replayed, its pull request has
      evidence: throughout a run, exactly when no operation of the run is that one. */
  lemma {:induction false} AcceptedHasEvidence(ops: seq<Op>, maxRetries: int, id: string)
    ensures AlwaysEvidenced(ops, maxRetries, id) <==> NeverUnprovided(ops, maxRetries, id)
  {
    if ops != [] {
      var n := |ops| - 1;
      AcceptedHasEvidence(ops[..n], maxRetries, id);
      TakeTake(ops, n);
      assert ops[..|ops|] == ops;
      RunGrows(START, ops[..n], maxRetries);
      assert AlwaysEvidenced(ops[..n], maxRetries, id) ==> Evidenced(Run(START, ops[..n][..n], maxRetries).store, id);
      if Evidenced(Run(START, ops[..n], maxRetries).store, id) {
        EvidenceLostExactly(Run(START, ops[..n], maxRetries), ops[n], maxRetries, id);
      }
    }
  }

  /** It happens: every webhook that the filter accepts, stopped behind its envelope and sent
      again to a process without a provider, ends accepted without evidence. */
  lemma EvidenceIsLost(id: string, f: Filtered, a: Answers, maxRetries: int)
    requires f.Accept?
    ensures var left, again := Webhook(id, f, true, a, AfterEnvelope), Webhook(id, f, false, a, Never);
      var s := Run(START, [left, again], maxRetries).store;
      && AcceptsUnprovided(Run(START, [left], maxRetries), again)
      && id in s.deliveries && s.deliveries[id].status.Accepted?
      && id in s.envelopes && s.envelopes[id].prKey !in s.evidence
  {
    var left, again := Webhook(id, f, true, a, AfterEnvelope), Webhook(id, f, false, a, Never);
    RunExtends(START, [], left, maxRetries);
    RunExtends(START, [left], again, maxRetries);
    assert [] + [left] == [left] && [left] + [again] == [left, again];
  }

  /** Without a budget the pipeline, which counts against its own default, stores a retryable
      delivery that is already over budget. */
  lemma NoBudgetBreaks(id: string, f: Filtered, why: string, maxRetries: int)
    requires f.Accept? && maxRetries <= 0
    ensures var failing := Failure(Transient, why);
      var s := Run(START, [Webhook(id, f, true, Answers(Err(failing), Err(failing), Err(failing)), Never)], maxRetries);
      id in s.store.deliveries && !WithinBudget(s.store.deliveries[id], maxRetries)
  {
    var failing := Failure(Transient, why);
    RunExtends(START, [], Webhook(id, f, true, Answers(Err(failing), Err(failing), Err(failing)), Never), maxRetries);
  }

  ghost predicate AlwaysWithinBudget(maxRetries: int) {
    forall ops, id :: id in Run(START, ops, maxRetries).store.deliveries ==>
      WithinBudget(Run(START, ops, maxRetries).store.deliveries[id], maxRetries)
  }

  /** Statuses agree with the retry budget in every run exactly when the budget is at least one. */
  lemma {:induction false} BudgetHoldsExactly(maxRetries: int)
    ensures AlwaysWithinBudget(maxRetries) <==> maxRetries >= 1
  {
    if maxRetries >= 1 {
      forall ops, id | id in Run(START, ops, maxRetries).store.deliveries
        ensures WithinBudget(Run(START, ops, maxRetries).store.deliveries[id], maxRetries) {
        EveryDelivery(ops, maxRetries, id);
      }
    } else {
      NoBudgetBreaks("", Accept(Domain.Repository("", "", "", ""), Payload(0, None)), "", maxRetries);
    }
  }

  // ------------------------------------------------------------------ what never changes

  /** What later states keep of earlier ones. */
  ghost predicate Grows(s: System, t: System) {
    && (forall k :: k in s.store.evidence ==> k in t.store.evidence && t.store.evidence[k] == s.store.evidence[k])
    && (forall id :: id in s.store.deliveries ==>
          id in t.store.deliveries && t.store.deliveries[id].retries >= s.store.deliveries[id].retries)
    && (forall id :: id in s.store.deliveries && id in s.store.envelopes ==>
          id in t.store.envelopes && t.store.envelopes[id] == s.store.envelopes[id])
    && s.fetched <= t.fetched
  }

  lemma WebhookGrows(s: System, op: Op, maxRetries: int)
    requires Keyed(s.store) && op.Webhook? && op.id !in s.store.deliveries
    ensures Grows(s, Apply(s, op, maxRetries)) && Keyed(Apply(s, op, maxRetries).store)
  {
    var t := Apply(s, op, maxRetries);
    if op.filtered.Accept? && op.provider {
      var envelope := EnvelopeFor(op.id, op.filtered.repository, op.filtered.payload);
      var noted := s.(store := s.store.WithEnvelope(op.id, envelope));
      var built := Build(noted, envelope, op.answers, op.stop).0;
      BuildAddsOneKey(noted, envelope, op.answers, op.stop);
      assert t == noted || t.(store := t.store.(deliveries := s.store.deliveries)) == built;
      assert forall id :: id in s.store.deliveries ==> id in t.store.deliveries && t.store.deliveries[id] == s.store.deliveries[id];
    }
  }

  lemma RetryGrows(s: System, op: Op, maxRetries: int)
    requires Keyed(s.store) && op.Retry? && op.id in s.store.deliveries && op.id in s.store.envelopes
    ensures Grows(s, Apply(s, op, maxRetries)) && Keyed(Apply(s, op, maxRetries).store)
  {
    var t := Apply(s, op, maxRetries);
    var built := Build(s, s.store.envelopes[op.id], op.answers, op.stop).0;
    BuildAddsOneKey(s, s.store.envelopes[op.id], op.answers, op.stop);
    assert t.(store := t.store.(deliveries := s.store.deliveries)) == built;
  }

  lemma StepGrows(s: System, op: Op, maxRetries: int)
    requires Keyed(s.store)
    ensures Grows(s, Apply(s, op, maxRetries)) && Keyed(Apply(s, op, maxRetries).store)
  {
    match op
    case Webhook(id, _, _, _, _) => if id !in s.store.deliveries { WebhookGrows(s, op, maxRetries); }
    case Retry(id, _, _) => if id in s.store.deliveries && id in s.store.envelopes { RetryGrows(s, op, maxRetries); }
  }

  /** Over every run: evidence is never replaced, retry counts never go down, deliveries and
      the envelopes of known deliveries stay. */
  lemma {:induction false} RunGrows(s: System, ops: seq<Op>, maxRetries: int)
    requires Keyed(s.store)
    ensures Grows(s, Run(s, ops, maxRetries)) && Keyed(Run(s, ops, maxRetries).store)
  {
    if ops != [] {
      var n := |ops| - 1;
      RunGrows(s, ops[..n], maxRetries);
      StepGrows(Run(s, ops[..n], maxRetries), ops[n], maxRetries);
    }
  }

  /** A webhook whose delivery id is known changes nothing, however much later it arrives. */
  lemma DuplicatesChangeNothing(s: System, ops: seq<Op>, maxRetries: int, again: Op)
    requires Keyed(s.store) && again.Webhook? && again.id in s.store.deliveries
    ensures Run(s, ops + [again], maxRetries) == Run(s, ops, maxRetries)
    ensures Process(Run(s, ops, maxRetries), again.provider, again.id, again.filtered, again.answers, again.stop).1.Duplicate?
  {
    RunGrows(s, ops, maxRetries);
    RunExtends(s, ops, again, maxRetries);
  }

  /** Two answers with evidence for the same pull request, anywhere in a run and for whichever
      deliveries, carry the same evidence. */
  lemma AnswersAgree(s: System, first: Op, ops: seq<Op>, second: Op, maxRetries: int)
    requires Keyed(s.store) && first.Retry? && second.Retry?
    requires var r := Replay(s, first.id, first.answers, maxRetries, first.stop).1; r.Result? && r.evidence.Some?
    requires var t := Run(Apply(s, first, maxRetries), ops, maxRetries);
      var q := Replay(t, second.id, second.answers, maxRetries, second.stop).1; q.Result? && q.evidence.Some?
    ensures var r := Replay(s, first.id, first.answers, maxRetries, first.stop).1.evidence.value;
      var t := Run(Apply(s, first, maxRetries), ops, maxRetries);
      var q := Replay(t, second.id, second.answers, maxRetries, second.stop).1.evidence.value;
      r.prKey == q.prKey ==> r == q
  {
    StepGrows(s, first, maxRetries);
    RunGrows(Apply(s, first, maxRetries), ops, maxRetries);
    AnswerIsStored(s, first, maxRetries);
    var t := Run(Apply(s, first, maxRetries), ops, maxRetries);
    StepGrows(t, second, maxRetries);
    AnswerIsStored(t, second, maxRetries);
  }

  lemma AnswerIsStored(s: System, op: Op, maxRetries: int)
    requires Keyed(s.store) && op.Retry?
    ensures var r := Replay(s, op.id, op.answers, maxRetries, op.stop).1;
      r.Result? && r.evidence.Some? ==>
        var e := r.evidence.value; var t := Apply(s, op, maxRetries);
        e.prKey in t.store.evidence && t.store.evidence[e.prKey] == e
  {
  }

  // ------------------------------------------------------------------ one fetch per pull request

  function KeyOf(f: Fetch): string {
    PrKey(f.repository, f.payload)
  }

  function FetchedKeys(s: System): seq<string> {
    Map(s.fetched, KeyOf)
  }

  /** Each key with evidence was fetched once, and no other key was. */
  ghost predicate FetchedOnce(s: System) {
    forall k :: multiset(FetchedKeys(s))[k] == if k in s.store.evidence then 1 else 0
  }

  /** Envelopes carry the key of what they are addressed to. */
  ghost predicate Addressed(s: Store) {
    forall id :: id in s.envelopes ==> s.envelopes[id] == EnvelopeFor(id, s.envelopes[id].repository, s.envelopes[id].payload)
  }

  lemma BuildLeavesEnvelopes(s: System, e: Envelope, a: Answers, stop: Stop)
    ensures Build(s, e, a, stop).0.store.envelopes == s.store.envelopes
  {
  }

  lemma StepAddresses(s: System, op: Op, maxRetries: int)
    requires Addressed(s.store)
    ensures Addressed(Apply(s, op, maxRetries).store)
  {
    match op
    case Webhook(id, f, provider, a, stop) =>
      if id !in s.store.deliveries && f.Accept? && provider {
        var envelope := EnvelopeFor(id, f.repository, f.payload);
        BuildLeavesEnvelopes(s.(store := s.store.WithEnvelope(id, envelope)), envelope, a, stop);
        assert Apply(s, op, maxRetries).store.envelopes == s.store.envelopes[id := envelope];
      }
    case Retry(id, a, stop) =>
      if id in s.store.envelopes {
        BuildLeavesEnvelopes(s, s.store.envelopes[id], a, stop);
        assert Apply(s, op, maxRetries).store.envelopes == s.store.envelopes;
      }
  }

  lemma BuildFetchesOnce(s: System, e: Envelope, a: Answers, stop: Stop)
    requires FetchedOnce(s) && stop != AfterFetch && e.prKey == PrKey(e.repository, e.payload)
    ensures FetchedOnce(Build(s, e, a, stop).0)
  {
    var t := Build(s, e, a, stop).0;
    if t.fetched != s.fetched {
      var f := t.fetched[|s.fetched|];
      assert t.fetched == s.fetched + [f];
      MapAppend(s.fetched, [f], KeyOf);
      assert Map([f], KeyOf) == [e.prKey];
      assert multiset(FetchedKeys(t)) == multiset(FetchedKeys(s)) + multiset{e.prKey};
    }
  }

  lemma StepFetchesOnce(s: System, op: Op, maxRetries: int)
    requires FetchedOnce(s) && Addressed(s.store) && op.stop != AfterFetch
    ensures FetchedOnce(Apply(s, op, maxRetries))
  {
    match op
    case Webhook(id, f, _, a, stop) =>
      if f.Accept? {
        var envelope := EnvelopeFor(id, f.repository, f.payload);
        var noted := s.(store := s.store.WithEnvelope(id, envelope));
        assert FetchedOnce(noted);
        BuildFetchesOnce(noted, envelope, a, stop);
        assert FetchedOnce(Build(noted, envelope, a, stop).0);
      }
    case Retry(id, a, stop) =>
      if id in s.store.envelopes {
        BuildFetchesOnce(s, s.store.envelopes[id], a, stop);
        assert FetchedOnce(Build(s, s.store.envelopes[id], a, stop).0);
      }
  }

  lemma {:induction false} RunAddresses(ops: seq<Op>, maxRetries: int)
    ensures Addressed(Run(START, ops, maxRetries).store)
  {
    if ops != [] {
      var n := |ops| - 1;
      RunAddresses(ops[..n], maxRetries);
      StepAddresses(Run(START, ops[..n], maxRetries), ops[n], maxRetries);
    }
  }

  /** A run in which no process stops between a completed fetch and its storage completes at
      most one fetch per pull request, and has evidence for exactly those it fetched. */
  lemma {:induction false} OneFetchPerPullRequest(ops: seq<Op>, maxRetries: int)
    requires forall op :: op in ops ==> op.stop != AfterFetch
    ensures FetchedOnce(Run(START, ops, maxRetries))
  {
    if ops != [] {
      var n := |ops| - 1;
      OneFetchPerPullRequest(ops[..n], maxRetries);
      RunAddresses(ops[..n], maxRetries);
      StepFetchesOnce(Run(START, ops[..n], maxRetries), ops[n], maxRetries);
    }
  }

  /** The assumption is needed: a stop after the fetch is followed by a second fetch. */
  lemma StopAfterFetchRefetches(id: string, f: Filtered, a: Answers)
    requires f.Accept? && a.Fails().None?
    ensures var fetch := Fetch(f.repository, f.payload, a.pull.value, a.files.value, a.diff.value);
      Run(START, [Webhook(id, f, true, a, AfterFetch), Webhook(id, f, true, a, Never)], 1).fetched == [fetch, fetch]
  {
    RunExtends(START, [], Webhook(id, f, true, a, AfterFetch), 1);
    RunExtends(START, [Webhook(id, f, true, a, AfterFetch)], Webhook(id, f, true, a, Never), 1);
    assert [Webhook(id, f, true, a, AfterFetch)] + [Webhook(id, f, true, a, Never)] == [Webhook(id, f, true, a, AfterFetch), Webhook(id, f, true, a, Never)];
    assert [] + [Webhook(id, f, true, a, AfterFetch)] == [Webhook(id, f, true, a, AfterFetch)];
  }

  // ------------------------------------------------------------------ failing replays

  predicate FailsRetryably(op: Op) {
    op.stop == Never && op.answers.Fails().Some? && op.answers.Fails().value.category in RETRYABLE_CATEGORIES
  }

  /** How many replays of `id` a run holds. */
  function Replays(ops: seq<Op>, id: string): nat {
    if ops == [] then 0
    else Replays(ops[..|ops| - 1], id) + if ops[|ops| - 1].Retry? && ops[|ops| - 1].id == id then 1 else 0
  }

  /** An operation that is not a replay of `id` leaves that delivery alone. */
  lemma OthersLeaveIt(s: System, op: Op, maxRetries: int, id: string)
    requires Keyed(s.store) && id in s.store.deliveries
    requires op.Retry? ==> op.id != id
    ensures Apply(s, op, maxRetries).store.deliveries[id] == s.store.deliveries[id]
  {
  }

  /** One failing replay: the count goes up by one, and the new count decides the status. */
  lemma FailingReplay(s: System, op: Op, maxRetries: int)
    requires Keyed(s.store) && op.Retry? && op.id in s.store.deliveries && op.id in s.store.envelopes
    requires FailsRetryably(op) && s.store.envelopes[op.id].prKey !in s.store.evidence
    ensures var d := s.store.deliveries[op.id]; var t := Apply(s, op, maxRetries).store;
      && op.id in t.deliveries && t.deliveries[op.id].retries == d.retries + 1
      && t.deliveries[op.id].status == if d.retries + 1 < maxRetries then Retryable else DeadLetter
  {
  }

  /** As long as no fetch for its pull request succeeds, whatever else happens in the store, a
      delivery replayed with retryable failures counts exactly its replays, is retryable while
      the count is below the budget, and dead-lettered from then on. */
  lemma {:induction false} FailingReplaysCount(s: System, ops: seq<Op>, maxRetries: int, id: string)
    requires Keyed(s.store) && id in s.store.deliveries && id in s.store.envelopes
    requires forall op :: op in ops && op.Retry? && op.id == id ==> FailsRetryably(op)
    requires s.store.envelopes[id].prKey !in Run(s, ops, maxRetries).store.evidence
    ensures var n := Replays(ops, id); var d := s.store.deliveries[id]; var t := Run(s, ops, maxRetries).store;
      && id in t.deliveries
      && t.deliveries[id].retries == d.retries + n
      && (n == 0 ==> t.deliveries[id].status == d.status)
      && (n > 0 ==> t.deliveries[id].status == if d.retries + n < maxRetries then Retryable else DeadLetter)
  {
    if ops != [] {
      var n := |ops| - 1;
      var before := Run(s, ops[..n], maxRetries);
      RunGrows(s, ops[..n], maxRetries);
      StepGrows(before, ops[n], maxRetries);
      FailingReplaysCount(s, ops[..n], maxRetries, id);
      if ops[n].Retry? && ops[n].id == id {
        FailingReplay(before, ops[n], maxRetries);
      } else {
        OthersLeaveIt(before, ops[n], maxRetries, id);
      }
    }
  }

  /** A delivery first stored as retryable is dead-lettered on failing replay number
      `maxRetries`, not before, and stays there. */
  lemma DeadLetteredAtTheBudget(s: System, ops: seq<Op>, maxRetries: int, id: string)
    requires Keyed(s.store) && id in s.store.deliveries && id in s.store.envelopes && maxRetries >= 1
    requires s.store.deliveries[id].status == Retryable && s.store.deliveries[id].retries == 0
    requires forall op :: op in ops && op.Retry? && op.id == id ==> FailsRetryably(op)
    requires s.store.envelopes[id].prKey !in Run(s, ops, maxRetries).store.evidence
    ensures id in Run(s, ops, maxRetries).store.deliveries
    ensures Run(s, ops, maxRetries).store.deliveries[id].status == if Replays(ops, id) >= maxRetries then DeadLetter else Retryable
  {
    FailingReplaysCount(s, ops, maxRetries, id);
  }

  /** Once some delivery of the pull request got its evidence, replaying any other one that
      has an envelope, dead-lettered or not, succeeds from the store without a fetch. */
  lemma {:induction false} EvidenceRecoversDeadLetters(s: System, ops: seq<Op>, maxRetries: int, id: string, a: Answers)
    requires Keyed(s.store) && id in s.store.deliveries && id in s.store.envelopes
    requires s.store.envelopes[id].prKey in s.store.evidence
    ensures var t := Run(s, ops, maxRetries); var key := s.store.envelopes[id].prKey;
      var (u, r) := Replay(t, id, a, maxRetries, Never);
      && r.Result? && r.reused && r.delivery.status == Replayed
      && r.evidence == Some(s.store.evidence[key])
      && u.fetched == t.fetched && u.store.evidence == t.store.evidence
  {
    RunGrows(s, ops, maxRetries);
  }
}
