/** Webhook ingestion and replay (core/ingestion.py, persistence/ingestion_store.py,
    workflow/ingestion.py, workflow/replay.py). Parsing the payload is left out: a webhook
    arrives with its filter decision. What the provider answers is an input. */
module Ingestion {
  import opened Prelude
  import Domain
  import Numbering

  // ------------------------------------------------------------------ delivery records

  datatype Status = Accepted | Skipped | Rejected | Retryable | DeadLetter | Replayed

  datatype Category =
    | NoError
    | UnconfiguredRepository
    | NotPullRequest
    | NotMerged
    | MalformedPayload
    | RateLimited
    | PermissionDenied
    | ResourceNotFound
    | Transient
    | Unknown

  const RETRYABLE_CATEGORIES := {RateLimited, Transient}
  const DEFAULT_MAX_RETRIES := 3

  datatype Delivery = Delivery(
    deliveryId: string,
    status: Status,
    category: Category,
    repositoryKey: Option<string>,
    prKey: Option<string>,
    prNumber: Option<nat>,
    retries: nat,
    detail: string)

  function ClassifyFailure(category: Category, retries: nat, maxRetries: int): Status {
    if category in RETRYABLE_CATEGORIES && retries < maxRetries then Retryable else DeadLetter
  }

  datatype Payload = Payload(prNumber: nat, mergeSha: Option<string>)

  /** `FilterResult`: only an accepted delivery of a configured repository has a payload. */
  datatype Filtered =
    | Accept(repository: Domain.Repository, payload: Payload)
    | Skip(category: Category, detail: string)
    | Reject(category: Category, repositoryKey: Option<string>, detail: string)

  /** `SCMEventEnvelope`: what a fetch is addressed to, under the key that names it. */
  datatype Envelope = Envelope(deliveryId: string, repository: Domain.Repository, payload: Payload, prKey: string)

  /** `CandidateEvidence`. */
  datatype Evidence = Evidence(
    repository: Domain.Repository,
    prKey: string,
    sourceDeliveryId: string,
    prNumber: nat,
    title: string,
    files: seq<string>,
    diff: string)

  /** `build_normalized_pr_key`. */
  function PrKey(repository: Domain.Repository, payload: Payload): string {
    "github:" + repository.Key() + ":" + Numbering.Decimal(payload.prNumber) + ":"
    + (if payload.mergeSha.Some? && payload.mergeSha.value != "" then payload.mergeSha.value else "unknown")
  }

  /** `normalize_to_scm_event`. */
  function EnvelopeFor(id: string, repository: Domain.Repository, payload: Payload): Envelope {
    Envelope(id, repository, payload, PrKey(repository, payload))
  }

  // ------------------------------------------------------------------ the store

  datatype Store = Store(deliveries: map<string, Delivery>, evidence: map<string, Evidence>, envelopes: map<string, Envelope>) {
    function WithDelivery(d: Delivery): Store {
      this.(deliveries := deliveries[d.deliveryId := d])
    }

    function WithEnvelope(id: string, e: Envelope): Store {
      this.(envelopes := envelopes[id := e])
    }

    /** First write wins. */
    function WithEvidence(e: Evidence): Store {
      if e.prKey in evidence then this else this.(evidence := evidence[e.prKey := e])
    }
  }

  const EMPTY := Store(map[], map[], map[])

  /** `InMemoryIngestionStore`. */
  class IngestionStore {
    var deliveries: map<string, Delivery>
    var evidence: map<string, Evidence>
    var envelopes: map<string, Envelope>

    function State(): Store
      reads this
    {
      Store(deliveries, evidence, envelopes)
    }

    constructor ()
      ensures State() == EMPTY
    {
      deliveries, evidence, envelopes := map[], map[], map[];
    }

    method UpsertDelivery(d: Delivery)
      modifies this
      ensures State() == old(State()).WithDelivery(d)
    {
      deliveries := deliveries[d.deliveryId := d];
    }

    method PutEnvelope(id: string, e: Envelope)
      modifies this
      ensures State() == old(State()).WithEnvelope(id, e)
    {
      envelopes := envelopes[id := e];
    }

    method PutEvidence(e: Evidence) returns (stored: Evidence)
      modifies this
      ensures State() == old(State()).WithEvidence(e)
      ensures e.prKey in evidence && stored == evidence[e.prKey]
      ensures e.prKey in old(evidence) ==> stored == old(evidence)[e.prKey]
    {
      if e.prKey !in evidence {
        evidence := evidence[e.prKey := e];
      }
      stored := evidence[e.prKey];
    }
  }

  // ------------------------------------------------------------------ the provider

  datatype Failure = Failure(category: Category, detail: string)

  datatype Pull = Pull(number: nat, title: string)

  /** What the provider answers to the three fetches of one build. */
  datatype Answers = Answers(pull: Result<Pull, Failure>, files: Result<seq<string>, Failure>, diff: Result<string, Failure>) {
    /** The first fetch that fails ends the build. */
    function Fails(): Option<Failure> {
      if pull.Err? then Some(pull.error)
      else if files.Err? then Some(files.error)
      else if diff.Err? then Some(diff.error)
      else None
    }
  }

  /** Where a process may stop in the middle of an operation. */
  datatype Stop = Never | AfterEnvelope | AfterFetch | BeforeDelivery

  /** A completed fetch: what was asked for, and what came back. */
  datatype Fetch = Fetch(repository: Domain.Repository, payload: Payload, pull: Pull, files: seq<string>, diff: string)

  function EvidenceFrom(e: Envelope, pull: Pull, files: seq<string>, diff: string): Evidence {
    Evidence(e.repository, e.prKey, e.deliveryId, pull.number, pull.title, files, diff)
  }

  /** The durable store, and the provider fetches that ever completed. */
  datatype System = System(store: Store, fetched: seq<Fetch>)

  datatype Built = Have(evidence: Evidence) | Failed(failure: Failure) | Stopped

  /** `EvidenceBuilder.build`. */
  function Build(s: System, e: Envelope, a: Answers, stop: Stop): (System, Built) {
    if e.prKey in s.store.evidence then (s, Have(s.store.evidence[e.prKey]))
    else if a.Fails().Some? then (s, Failed(a.Fails().value))
    else
      var fetched := s.(fetched := s.fetched + [Fetch(e.repository, e.payload, a.pull.value, a.files.value, a.diff.value)]);
      if stop == AfterFetch then (fetched, Stopped)
      else
        var made := EvidenceFrom(e, a.pull.value, a.files.value, a.diff.value);
        (fetched.(store := s.store.WithEvidence(made)), Have(made))
  }

  class Provider {
    var answers: Answers
    var fetched: seq<Fetch>

    constructor (answers: Answers)
      ensures this.answers == answers && fetched == []
    {
      this.answers, fetched := answers, [];
    }
  }

  class EvidenceBuilder {
    const store: IngestionStore
    const provider: Provider

    function State(): System
      reads store, provider
    {
      System(store.State(), provider.fetched)
    }

    constructor (store: IngestionStore, provider: Provider)
      ensures this.store == store && this.provider == provider
    {
      this.store, this.provider := store, provider;
    }

    method BuildEvidence(e: Envelope) returns (r: Built)
      modifies store, provider`fetched
      ensures (State(), r) == Build(old(State()), e, provider.answers, Never)
    {
      if e.prKey in store.evidence {
        return Have(store.evidence[e.prKey]);
      }
      var pull := provider.answers.pull;
      if pull.Err? {
        return Failed(pull.error);
      }
      var files := provider.answers.files;
      if files.Err? {
        return Failed(files.error);
      }
      var diff := provider.answers.diff;
      if diff.Err? {
        return Failed(diff.error);
      }
      provider.fetched := provider.fetched + [Fetch(e.repository, e.payload, pull.value, files.value, diff.value)];
      var stored := store.PutEvidence(EvidenceFrom(e, pull.value, files.value, diff.value));
      return Have(stored);
    }
  }

  // ------------------------------------------------------------------ the pipeline

  datatype Response =
    | Duplicate(prior: Status)
    | Processed(code: nat)
    | FetchFailed(code: nat, category: Category)
    | AcceptedWith(prKey: string)
    | Died

  function FilteredDelivery(id: string, f: Filtered): Delivery {
    match f
    case Accept(repository, payload) => Delivery(id, Accepted, NoError, Some(repository.Key()), None, Some(payload.prNumber), 0, "")
    case Skip(category, detail) => Delivery(id, Skipped, category, None, None, None, 0, detail)
    case Reject(category, key, detail) => Delivery(id, Rejected, category, key, None, None, 0, detail)
  }

  function ResponseCode(f: Filtered): nat {
    match f
    case Accept(_, _) => 202
    case Skip(_, _) => 200
    case Reject(_, _, _) => 422
  }

  function FetchedDelivery(id: string, repository: Domain.Repository, payload: Payload, built: Built): Delivery
    requires !built.Stopped?
  {
    var key := PrKey(repository, payload);
    match built
    case Have(_) => Delivery(id, Accepted, NoError, Some(repository.Key()), Some(key), Some(payload.prNumber), 0, "")
    case Failed(f) =>
      Delivery(id, ClassifyFailure(f.category, 0, DEFAULT_MAX_RETRIES), f.category, Some(repository.Key()), Some(key),
               Some(payload.prNumber), 0, f.detail)
  }

  /** `_accept_with_evidence`. */
  function AcceptWithEvidence(s: System, id: string, repository: Domain.Repository, payload: Payload, a: Answers, stop: Stop)
    : (System, Response)
  {
    var envelope := EnvelopeFor(id, repository, payload);
    var noted := s.(store := s.store.WithEnvelope(id, envelope));
    if stop == AfterEnvelope then (noted, Died)
    else
      var (t, built) := Build(noted, envelope, a, stop);
      if built.Stopped? || stop == BeforeDelivery then (t, Died)
      else
        var d := FetchedDelivery(id, repository, payload, built);
        (t.(store := t.store.WithDelivery(d)),
         if built.Have? then AcceptedWith(envelope.prKey)
         else FetchFailed(if d.status.Retryable? then 503 else 502, d.category))
  }

  /** `IngestionPipeline.process`; `provider` says whether the pipeline has one. */
  function Process(s: System, provider: bool, id: string, f: Filtered, a: Answers, stop: Stop): (System, Response) {
    if id in s.store.deliveries then (s, Duplicate(s.store.deliveries[id].status))
    else if f.Accept? && provider then AcceptWithEvidence(s, id, f.repository, f.payload, a, stop)
    else if stop == BeforeDelivery then (s, Died)
    else (s.(store := s.store.WithDelivery(FilteredDelivery(id, f))), Processed(ResponseCode(f)))
  }

  class IngestionPipeline {
    const store: IngestionStore
    const builder: Option<EvidenceBuilder>

    constructor (store: IngestionStore, builder: Option<EvidenceBuilder>)
      requires builder.Some? ==> builder.value.store == store
      ensures this.store == store && this.builder == builder
    {
      this.store, this.builder := store, builder;
    }

    method AcceptDelivery(b: EvidenceBuilder, id: string, repository: Domain.Repository, payload: Payload) returns (r: Response)
      requires b.store == store
      modifies store, b.provider`fetched
      ensures (b.State(), r) == AcceptWithEvidence(old(b.State()), id, repository, payload, b.provider.answers, Never)
    {
      var envelope := EnvelopeFor(id, repository, payload);
      store.PutEnvelope(id, envelope);
      var built := b.BuildEvidence(envelope);
      var d := FetchedDelivery(id, repository, payload, built);
      store.UpsertDelivery(d);
      match built
      case Have(_) => return AcceptedWith(envelope.prKey);
      case Failed(_) => return FetchFailed(if d.status.Retryable? then 503 else 502, d.category);
    }

    method ProcessWebhook(id: string, f: Filtered) returns (r: Response)
      requires builder.Some? ==> builder.value.store == store
      modifies store
      modifies if builder.Some? then {builder.value.provider} else {}
      ensures builder.Some? ==>
                (builder.value.State(), r)
                == Process(old(builder.value.State()), true, id, f, old(builder.value.provider.answers), Never)
      ensures builder.None? ==>
                forall fetched, a :: (System(store.State(), fetched), r) == Process(System(old(store.State()), fetched), false, id, f, a, Never)
    {
      if id in store.deliveries {
        return Duplicate(store.deliveries[id].status);
      }
      if f.Accept? && builder.Some? {
        r := AcceptDelivery(builder.value, id, f.repository, f.payload);
        return;
      }
      store.UpsertDelivery(FilteredDelivery(id, f));
      return Processed(ResponseCode(f));
    }
  }

  // ------------------------------------------------------------------ replay

  /** `ReplayResult`. */
  datatype ReplayResult =
    | Missing
    | NotReprocessable(delivery: Delivery)
    | Result(delivery: Delivery, evidence: Option<Evidence>, reused: bool)
    | Interrupted

  function Reused(d: Delivery): Delivery {
    d.(status := Replayed, category := NoError)
  }

  function RetryFailed(d: Delivery, f: Failure, maxRetries: int): Delivery {
    d.(status := ClassifyFailure(f.category, d.retries + 1, maxRetries), category := f.category, retries := d.retries + 1, detail := f.detail)
  }

  function RetrySucceeded(d: Delivery, key: string): Delivery {
    d.(status := Replayed, category := NoError, retries := d.retries + 1, prKey := Some(key))
  }

  /** `replay_delivery`. */
  function Replay(s: System, id: string, a: Answers, maxRetries: int, stop: Stop): (System, ReplayResult) {
    if id !in s.store.deliveries then (s, Missing)
    else
      var d := s.store.deliveries[id];
      if id !in s.store.envelopes then (s, NotReprocessable(d))
      else
        var e := s.store.envelopes[id];
        var existing := e.prKey in s.store.evidence;
        var (t, built) := Build(s, e, a, stop);
        if built.Stopped? || stop == BeforeDelivery then (t, Interrupted)
        else
          var updated := if existing then Reused(d)
                         else if built.Have? then RetrySucceeded(d, e.prKey)
                         else RetryFailed(d, built.failure, maxRetries);
          (t.(store := t.store.WithDelivery(updated)),
           Result(updated, if built.Have? then Some(built.evidence) else None, existing))
  }

  class ReplayService {
    const builder: EvidenceBuilder
    const maxRetries: int

    constructor (builder: EvidenceBuilder, maxRetries: int)
      ensures this.builder == builder && this.maxRetries == maxRetries
    {
      this.builder, this.maxRetries := builder, maxRetries;
    }

    method ReplayDelivery(id: string) returns (r: ReplayResult)
      modifies builder.store, builder.provider`fetched
      ensures (builder.State(), r) == Replay(old(builder.State()), id, builder.provider.answers, maxRetries, Never)
    {
      var store := builder.store;
      if id !in store.deliveries {
        return Missing;
      }
      var d := store.deliveries[id];
      if id !in store.envelopes {
        return NotReprocessable(d);
      }
      var e := store.envelopes[id];
      if e.prKey in store.evidence {
        var reused := Reused(d);
        store.UpsertDelivery(reused);
        return Result(reused, Some(store.evidence[e.prKey]), true);
      }
      var built := builder.BuildEvidence(e);
      match built
      case Failed(f) =>
        var failed := RetryFailed(d, f, maxRetries);
        store.UpsertDelivery(failed);
        return Result(failed, None, false);
      case Have(evidence) =>
        var done := RetrySucceeded(d, e.prKey);
        store.UpsertDelivery(done);
        return Result(done, Some(evidence), false);
    }
  }
}
