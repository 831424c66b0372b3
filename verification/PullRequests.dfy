/** Pull requests and their keys: what a key identifies, whose evidence a delivery gets over
    every run, and what one webhook or replay answers and stores. */
module PullRequests {
  import opened Prelude
  import opened Ingestion
  import opened IngestionRuns
  import Numbering

  // ------------------------------------------------------------------ what a key identifies

  /** The merge commit as keys name it. */
  function Sha(p: Payload): string {
    if p.mergeSha.None? || p.mergeSha == Some("") then "unknown" else p.mergeSha.value
  }

  /** One pull request: same repository key, number and merge commit. */
  ghost predicate SamePullRequest(r: Domain.Repository, p: Payload, s: Domain.Repository, q: Payload) {
    r.Key() == s.Key() && p.prNumber == q.prNumber && Sha(p) == Sha(q)
  }

  lemma LastColon(x: string, s: string, y: string, t: string)
    requires ':' !in s && ':' !in t
    ensures x + ":" + s == y + ":" + t <==> x == y && s == t
  {
    var u, v := x + ":" + s, y + ":" + t;
    if u == v {
      assert u[|x|] == ':' && v[|y|] == ':';
      assert |x| == |y|;
      assert u[..|x|] == x && v[..|y|] == y && u[|x| + 1..] == s && v[|y| + 1..] == t;
    }
  }

  lemma DigitsHaveNoColon(n: nat)
    ensures ':' !in Numbering.Decimal(n)
  {
    Numbering.ValueOfDecimal(n);
  }

  lemma KeyParts(r: Domain.Repository, p: Payload)
    ensures PrKey(r, p) == ("github:" + r.Key()) + ":" + Numbering.Decimal(p.prNumber) + ":" + Sha(p)
  {
  }

  /** With merge commits free of colons a key names exactly one pull request. */
  lemma KeyIdentifies(r: Domain.Repository, p: Payload, s: Domain.Repository, q: Payload)
    requires ':' !in Sha(p) && ':' !in Sha(q)
    ensures PrKey(r, p) == PrKey(s, q) <==> SamePullRequest(r, p, s, q)
  {
    var x, y := "github:" + r.Key(), "github:" + s.Key();
    var m, n := Numbering.Decimal(p.prNumber), Numbering.Decimal(q.prNumber);
    KeyParts(r, p);
    KeyParts(s, q);
    LastColon(x + ":" + m, Sha(p), y + ":" + n, Sha(q));
    DigitsHaveNoColon(p.prNumber);
    DigitsHaveNoColon(q.prNumber);
    LastColon(x, m, y, n);
    Numbering.ValueOfDecimal(p.prNumber);
    Numbering.ValueOfDecimal(q.prNumber);
    assert x[7..] == r.Key() && y[7..] == s.Key();
  }

  /** A merge commit with a colon could be read in two ways. */
  lemma ColonsCollide(r: Domain.Repository)
    ensures var s, p, q := r.(repo := r.repo + ":1"), Payload(1, Some("2:s")), Payload(2, Some("s"));
      PrKey(r, p) == PrKey(s, q) && !SamePullRequest(r, p, s, q)
  {
    var s := r.(repo := r.repo + ":1");
    assert s.Key() == r.Key() + ":1";
    KeyParts(r, Payload(1, Some("2:s")));
    KeyParts(s, Payload(2, Some("s")));
    assert Numbering.Decimal(1) == "1" && Numbering.Decimal(2) == "2";
    assert ("github:" + r.Key()) + ":" + "1" + ":" + "2:s" == ("github:" + s.Key()) + ":" + "2" + ":" + "s";
  }

  // ------------------------------------------------------------------ whose evidence a delivery gets

  /** An envelope of a run was made from an accepted webhook of its delivery. */
  ghost predicate FromWebhook(e: Envelope, id: string, ops: seq<Op>) {
    e == EnvelopeFor(id, e.repository, e.payload)
    && exists op :: op in ops && op.Webhook? && op.id == id && op.filtered == Accept(e.repository, e.payload)
  }

  /** Evidence holds what one completed fetch brought, for a pull request of that key. */
  ghost predicate FromFetch(e: Evidence, fetched: seq<Fetch>) {
    exists f :: f in fetched && e.prKey == PrKey(f.repository, f.payload) && e.repository == f.repository
                && e.prNumber == f.pull.number && e.title == f.pull.title && e.files == f.files && e.diff == f.diff
  }

  ghost predicate Sourced(s: System, ops: seq<Op>) {
    && (forall id :: id in s.store.envelopes ==> FromWebhook(s.store.envelopes[id], id, ops))
    && (forall k :: k in s.store.evidence ==> s.store.evidence[k].prKey == k && FromFetch(s.store.evidence[k], s.fetched))
  }

  lemma BuildSources(s: System, e: Envelope, a: Answers, stop: Stop)
    requires e.prKey == PrKey(e.repository, e.payload)
    requires forall k :: k in s.store.evidence ==> s.store.evidence[k].prKey == k && FromFetch(s.store.evidence[k], s.fetched)
    ensures var t := Build(s, e, a, stop).0;
      && t.store.envelopes == s.store.envelopes
      && forall k :: k in t.store.evidence ==> t.store.evidence[k].prKey == k && FromFetch(t.store.evidence[k], t.fetched)
  {
    var t := Build(s, e, a, stop).0;
    assert s.fetched <= t.fetched;
    if t.fetched != s.fetched {
      var f := Fetch(e.repository, e.payload, a.pull.value, a.files.value, a.diff.value);
      assert t.fetched == s.fetched + [f] && f in t.fetched;
      forall k | k in t.store.evidence ensures t.store.evidence[k].prKey == k && FromFetch(t.store.evidence[k], t.fetched) {
        if k in s.store.evidence {
          assert FromFetch(s.store.evidence[k], s.fetched);
        }
      }
    }
  }

  lemma MoreOps(e: Envelope, id: string, ops: seq<Op>, op: Op)
    requires FromWebhook(e, id, ops)
    ensures FromWebhook(e, id, ops + [op])
  {
    var o :| o in ops && o.Webhook? && o.id == id && o.filtered == Accept(e.repository, e.payload);
    assert o in ops + [op];
  }

  lemma WebhookSources(s: System, ops: seq<Op>, op: Op, maxRetries: int)
    requires Sourced(s, ops) && op.Webhook?
    ensures Sourced(Apply(s, op, maxRetries), ops + [op])
  {
    var t := Apply(s, op, maxRetries);
    assert op in ops + [op];
    forall id | id in s.store.envelopes ensures FromWebhook(s.store.envelopes[id], id, ops + [op]) {
      MoreOps(s.store.envelopes[id], id, ops, op);
    }
    if op.id !in s.store.deliveries && op.filtered.Accept? && op.provider {
      var envelope := EnvelopeFor(op.id, op.filtered.repository, op.filtered.payload);
      var noted := s.(store := s.store.WithEnvelope(op.id, envelope));
      assert FromWebhook(envelope, op.id, ops + [op]);
      BuildSources(noted, envelope, op.answers, op.stop);
      assert t.store.envelopes == noted.store.envelopes;
    }
  }

  lemma RetrySources(s: System, ops: seq<Op>, op: Op, maxRetries: int)
    requires Sourced(s, ops) && op.Retry?
    ensures Sourced(Apply(s, op, maxRetries), ops + [op])
  {
    forall id | id in s.store.envelopes ensures FromWebhook(s.store.envelopes[id], id, ops + [op]) {
      MoreOps(s.store.envelopes[id], id, ops, op);
    }
    if op.id in s.store.envelopes {
      BuildSources(s, s.store.envelopes[op.id], op.answers, op.stop);
    }
  }

  lemma {:induction false} EverythingIsSourced(ops: seq<Op>, maxRetries: int)
    ensures Sourced(Run(START, ops, maxRetries), ops)
  {
    if ops != [] {
      var n := |ops| - 1;
      EverythingIsSourced(ops[..n], maxRetries);
      assert ops == ops[..n] + [ops[n]];
      if ops[n].Webhook? {
        WebhookSources(Run(START, ops[..n], maxRetries), ops[..n], ops[n], maxRetries);
      } else {
        RetrySources(Run(START, ops[..n], maxRetries), ops[..n], ops[n], maxRetries);
      }
    }
  }

  /** Merge commits are hexadecimal; all that is needed is that they hold no colon. */
  ghost predicate PlainShas(ops: seq<Op>) {
    forall op :: op in ops && op.Webhook? && op.filtered.Accept? ==> ':' !in Sha(op.filtered.payload)
  }

  ghost predicate PlainFetches(fetched: seq<Fetch>) {
    forall f :: f in fetched ==> ':' !in Sha(f.payload)
  }

  /** Only pull requests of webhooks are ever fetched. */
  lemma {:induction false} FetchesAreAsked(ops: seq<Op>, maxRetries: int)
    requires PlainShas(ops)
    ensures PlainFetches(Run(START, ops, maxRetries).fetched)
  {
    if ops != [] {
      var n := |ops| - 1;
      var s, op := Run(START, ops[..n], maxRetries), ops[n];
      FetchesAreAsked(ops[..n], maxRetries);
      EverythingIsSourced(ops[..n], maxRetries);
      assert ops == ops[..n] + [op];
      if op.Webhook? && op.filtered.Accept? {
        var envelope := EnvelopeFor(op.id, op.filtered.repository, op.filtered.payload);
        BuildAsks(s.(store := s.store.WithEnvelope(op.id, envelope)), envelope, op.answers, op.stop);
      } else if op.Retry? && op.id in s.store.envelopes {
        assert FromWebhook(s.store.envelopes[op.id], op.id, ops[..n]);
        BuildAsks(s, s.store.envelopes[op.id], op.answers, op.stop);
      }
    }
  }

  lemma BuildAsks(s: System, e: Envelope, a: Answers, stop: Stop)
    ensures var t := Build(s, e, a, stop).0;
      t.fetched == s.fetched || exists f :: t.fetched == s.fetched + [f] && f.repository == e.repository && f.payload == e.payload
  {
  }

  /** In every run the evidence under a delivery's key was fetched for its own pull request: the
      repository, number and merge commit of its webhook. */
  lemma {:induction false} EvidenceIsItsOwn(ops: seq<Op>, maxRetries: int, id: string)
    requires PlainShas(ops)
    requires var s := Run(START, ops, maxRetries).store; id in s.envelopes && s.envelopes[id].prKey in s.evidence
    ensures var s := Run(START, ops, maxRetries);
      var mine, evidence := s.store.envelopes[id], s.store.evidence[s.store.envelopes[id].prKey];
      && (exists op :: op in ops && op.Webhook? && op.id == id && op.filtered == Accept(mine.repository, mine.payload))
      && (exists f :: f in s.fetched && SamePullRequest(f.repository, f.payload, mine.repository, mine.payload)
                      && evidence.repository == f.repository && evidence.prNumber == f.pull.number
                      && evidence.title == f.pull.title && evidence.files == f.files && evidence.diff == f.diff)
  {
    EverythingIsSourced(ops, maxRetries);
    FetchesAreAsked(ops, maxRetries);
    var s := Run(START, ops, maxRetries);
    var mine := s.store.envelopes[id];
    var evidence := s.store.evidence[mine.prKey];
    assert FromWebhook(mine, id, ops) && FromFetch(evidence, s.fetched);
    var f :| f in s.fetched && evidence.prKey == PrKey(f.repository, f.payload) && evidence.repository == f.repository
      && evidence.prNumber == f.pull.number && evidence.title == f.pull.title && evidence.files == f.files && evidence.diff == f.diff;
    KeyIdentifies(f.repository, f.payload, mine.repository, mine.payload);
  }

  /** Two deliveries share evidence exactly when they are of one pull request. */
  lemma {:induction false} SharedExactly(ops: seq<Op>, maxRetries: int, a: string, b: string)
    requires PlainShas(ops)
    requires var s := Run(START, ops, maxRetries).store;
      && a in s.envelopes && s.envelopes[a].prKey in s.evidence
      && b in s.envelopes && s.envelopes[b].prKey in s.evidence
    ensures var s := Run(START, ops, maxRetries).store; var x, y := s.envelopes[a], s.envelopes[b];
      s.evidence[x.prKey] == s.evidence[y.prKey] <==> SamePullRequest(x.repository, x.payload, y.repository, y.payload)
  {
    EverythingIsSourced(ops, maxRetries);
    var s := Run(START, ops, maxRetries).store;
    assert FromWebhook(s.envelopes[a], a, ops) && FromWebhook(s.envelopes[b], b, ops);
    KeyIdentifies(s.envelopes[a].repository, s.envelopes[a].payload, s.envelopes[b].repository, s.envelopes[b].payload);
  }

  // ------------------------------------------------------------------ what one webhook answers

  /** Whether a failed fetch is worth another try. */
  predicate Transitory(c: Category) {
    c == RateLimited || c == Transient
  }

  /** Known deliveries, and those the filter refuses: answered at once, without a fetch. */
  lemma UnfetchedAnswers(s: System, provider: bool, id: string, f: Filtered, a: Answers)
    requires id in s.store.deliveries || !f.Accept? || !provider
    ensures var (t, r) := Process(s, provider, id, f, a, Never);
      && t.fetched == s.fetched && t.store.evidence == s.store.evidence && t.store.envelopes == s.store.envelopes
      && (id in s.store.deliveries ==> t == s && r == Duplicate(s.store.deliveries[id].status))
      && (id !in s.store.deliveries ==>
            && id in t.store.deliveries
            && t.store.deliveries == s.store.deliveries[id := t.store.deliveries[id]]
            && var d := t.store.deliveries[id];
            && d.deliveryId == id && d.retries == 0 && d.prKey.None?
            && (f.Accept? ==> r == Processed(202) && d.status == Accepted && d.category == NoError
                              && d.repositoryKey == Some(f.repository.Key()) && d.prNumber == Some(f.payload.prNumber))
            && (f.Skip? ==> r == Processed(200) && d.status == Skipped && d.category == f.category && d.detail == f.detail
                            && d.repositoryKey.None? && d.prNumber.None?)
            && (f.Reject? ==> r == Processed(422) && d.status == Rejected && d.category == f.category && d.detail == f.detail
                              && d.repositoryKey == f.repositoryKey && d.prNumber.None?))
  {
  }

  /** An accepted delivery with a provider: accepted when its pull request has evidence or all
      three fetches succeed, and then it has; otherwise the first failing fetch decides status
      and answer, and there is no evidence. */
  lemma FetchedAnswers(s: System, id: string, f: Filtered, a: Answers)
    requires id !in s.store.deliveries && f.Accept?
    ensures var (t, r) := Process(s, true, id, f, a, Never);
      var key := PrKey(f.repository, f.payload);
      var failure := if a.pull.Err? then Some(a.pull.error) else if a.files.Err? then Some(a.files.error)
                     else if a.diff.Err? then Some(a.diff.error) else None;
      && t.store.envelopes == s.store.envelopes[id := EnvelopeFor(id, f.repository, f.payload)]
      && id in t.store.deliveries && t.store.deliveries == s.store.deliveries[id := t.store.deliveries[id]]
      && var d := t.store.deliveries[id];
      && d.deliveryId == id && d.repositoryKey == Some(f.repository.Key()) && d.prKey == Some(key)
      && d.prNumber == Some(f.payload.prNumber) && d.retries == 0
      && (key in s.store.evidence || failure.None? ==>
            && r == AcceptedWith(key) && d.status == Accepted && d.category == NoError && key in t.store.evidence
            && |t.fetched| == |s.fetched| + (if key in s.store.evidence then 0 else 1)
            && t.store.evidence == s.store.evidence[key := t.store.evidence[key]]
            && (key !in s.store.evidence ==> t.store.evidence[key].sourceDeliveryId == id))
      && (key !in s.store.evidence && failure.Some? ==>
            && t.store.evidence == s.store.evidence && t.fetched == s.fetched
            && d.category == failure.value.category && d.detail == failure.value.detail
            && d.status == (if Transitory(d.category) then Retryable else DeadLetter)
            && r == FetchFailed(if Transitory(d.category) then 503 else 502, d.category))
  {
  }

  // ------------------------------------------------------------------ what one replay answers

  /** A replay of a delivery with an envelope: from the evidence that is there, uncounted; or by
      fetching, counted, with the outcome the count and the first failing fetch decide. All else
      of the delivery stays. */
  lemma ReplayAnswers(s: System, id: string, a: Answers, maxRetries: int)
    requires id in s.store.deliveries && id in s.store.envelopes
    ensures var (t, r) := Replay(s, id, a, maxRetries, Never);
      var d, key := s.store.deliveries[id], s.store.envelopes[id].prKey;
      && r.Result? && t.store.envelopes == s.store.envelopes
      && r.reused == (key in s.store.evidence)
      && (r.evidence.Some? <==> key in s.store.evidence || a.Fails().None?)
      && (r.evidence.Some? ==> r.delivery.status == Replayed && r.delivery.category == NoError && r.delivery.detail == d.detail)
      && (key in s.store.evidence ==> r.evidence == Some(s.store.evidence[key]) && r.delivery.retries == d.retries
                                      && r.delivery.prKey == d.prKey && t.fetched == s.fetched)
      && (key !in s.store.evidence ==> r.delivery.retries == d.retries + 1)
      && (key !in s.store.evidence && r.evidence.Some? ==> r.delivery.prKey == Some(key) && |t.fetched| == |s.fetched| + 1)
      && (r.evidence.None? ==>
            && r.delivery.category == a.Fails().value.category && r.delivery.detail == a.Fails().value.detail
            && r.delivery.prKey == d.prKey && t.fetched == s.fetched && t.store.evidence == s.store.evidence
            && r.delivery.status == (if Transitory(r.delivery.category) && d.retries + 1 < maxRetries then Retryable else DeadLetter))
      && r.delivery.deliveryId == d.deliveryId && r.delivery.repositoryKey == d.repositoryKey && r.delivery.prNumber == d.prNumber
      && (d.deliveryId == id ==> t.store.deliveries == s.store.deliveries[id := r.delivery])
  {
  }

  /** A replay without the delivery, or without an envelope, changes nothing and says which. */
  lemma NothingToReplay(s: System, id: string, a: Answers, maxRetries: int, stop: Stop)
    requires id !in s.store.deliveries || id !in s.store.envelopes
    ensures Replay(s, id, a, maxRetries, stop)
         == (s, if id in s.store.deliveries then NotReprocessable(s.store.deliveries[id]) else Missing)
  {
  }
}
