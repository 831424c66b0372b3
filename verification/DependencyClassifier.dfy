/** The deterministic dependency classifier (workflow/dependency_classifier.py): one change or
    one no-ADR outcome for every ecosystem with recognised files. */
module DependencyClassifier {
  import opened Prelude
  import opened Sorting
  import opened DependencyEvidence

  // ------------------------------------------------------------------ records

  datatype Operation = AllAdded | AllRemoved | AllVersionChanged | Mixed {
    function Label(): string {
      match this
      case AllAdded => "added"
      case AllRemoved => "removed"
      case AllVersionChanged => "version_changed"
      case Mixed => "mixed"
    }

    function Confidence(): real {
      match this
      case AllAdded => 0.80
      case AllRemoved => 0.80
      case AllVersionChanged => 0.75
      case Mixed => 0.70
    }
  }

  datatype Change = Change(
    id: string,
    operation: Operation,
    ecosystem: Ecosystem,
    paths: seq<string>,
    evidenceIds: seq<string>,
    confidence: real,
    reason: string)

  datatype Outcome = Outcome(
    id: string,
    reason: string,
    confidence: real,
    paths: seq<string>,
    evidenceIds: seq<string>)

  datatype Classification = Classification(changes: seq<Change>, outcomes: seq<Outcome>, evidence: seq<Evidence>)

  // ------------------------------------------------------------------ judging one ecosystem

  function ToOperation(o: Observed): Option<Operation> {
    match o
    case Added => Some(AllAdded)
    case Removed => Some(AllRemoved)
    case VersionChanged => Some(AllVersionChanged)
    case _ => None
  }

  function Manifests(files: seq<Recognized>): seq<Recognized> {
    Filter(files, (r: Recognized) => r.found.kind.Manifest?)
  }

  /** `_aggregate_operation`. */
  function Aggregate(manifests: seq<Recognized>): Option<Operation> {
    if manifests == [] || (exists m :: m in manifests && ToOperation(m.observed).None?) then None
    else if forall m :: m in manifests ==> m.observed == manifests[0].observed then ToOperation(manifests[0].observed)
    else Some(Mixed)
  }

  lemma OneElement<T>(s: set<T>, x: T, y: T)
    requires |s| == 1 && x in s && y in s
    ensures x == y
  {
    assert |s - {x}| == 0;
    assert y !in s - {x};
  }

  method AggregateOperation(manifests: seq<Recognized>) returns (operation: Option<Operation>)
    ensures operation == Aggregate(manifests)
  {
    var operations: set<Operation> := {};
    for i := 0 to |manifests|
      invariant i > 0 ==> operations != {}
      invariant forall k :: 0 <= k < i ==> ToOperation(manifests[k].observed).Some?
      invariant forall op :: op in operations <==> exists k :: 0 <= k < i && ToOperation(manifests[k].observed) == Some(op)
    {
      var mapped := ToOperation(manifests[i].observed);
      if mapped.None? {
        assert manifests[i] in manifests;
        return None;
      }
      operations := operations + {mapped.value};
    }
    if operations == {} {
      return None;
    }
    var op :| op in operations;
    if |operations| == 1 {
      forall m | m in manifests ensures m.observed == manifests[0].observed {
        OneElement(operations, ToOperation(m.observed).value, ToOperation(manifests[0].observed).value);
      }
      return Some(op);
    }
    assert (forall m :: m in manifests ==> m.observed == manifests[0].observed) ==> operations == {op};
    return Some(Mixed);
  }

  datatype Verdict = Draft(operation: Operation) | Suppress(reason: string, confidence: real)

  /** What becomes of the recognised files of one ecosystem. */
  function Judge(files: seq<Recognized>, threshold: real): Verdict {
    if Manifests(files) == [] then Suppress("lockfile_only_churn", 0.30)
    else
      match Aggregate(Manifests(files))
      case None => Suppress("malformed_evidence", 0.40)
      case Some(op) => if op.Confidence() < threshold then Suppress("low_confidence", op.Confidence()) else Draft(op)
  }

  predicate HasLockfile(files: seq<Recognized>) {
    exists r :: r in files && r.found.kind.Lockfile?
  }

  function ReasonCode(op: Operation, hasLockfile: bool): string {
    if hasLockfile then "manifest_lockfile_pair"
    else
      match op
      case AllAdded => "direct_manifest_add"
      case AllRemoved => "direct_manifest_remove"
      case AllVersionChanged => "direct_manifest_version_change"
      case Mixed => "manifest_mixed_operations"
  }

  // ------------------------------------------------------------------ building the records

  function Paths(files: seq<Recognized>): seq<string> {
    Map(files, (r: Recognized) => r.path)
  }

  function SourcePaths(files: seq<Recognized>): seq<string> {
    Sort(Paths(files), LexLe)
  }

  /** `evidence_by_path`: a later record replaces an earlier one of the same path. */
  function ByPath(evidence: seq<Evidence>): map<string, Evidence> {
    if evidence == [] then map[]
    else
      var e := evidence[|evidence| - 1];
      ByPath(evidence[..|evidence| - 1])[e.path := e]
  }

  function EvidenceIds(paths: seq<string>, known: map<string, Evidence>): seq<string> {
    if paths == [] then []
    else EvidenceIds(paths[..|paths| - 1], known)
         + (if paths[|paths| - 1] in known then [known[paths[|paths| - 1]].id] else [])
  }

  function JoinColon(parts: seq<string>): string {
    if parts == [] then "" else if |parts| == 1 then parts[0] else parts[0] + ":" + JoinColon(parts[1..])
  }

  function ChangeFor(source: Source, e: Ecosystem, files: seq<Recognized>, op: Operation, known: map<string, Evidence>): Change {
    var paths := SourcePaths(files);
    Change(
      Digest([source.repositoryKey, source.prKey, "dependency", op.Label(), "", JoinColon(Sort(paths, LexLe))]),
      op, e, paths, EvidenceIds(paths, known), op.Confidence(), ReasonCode(op, HasLockfile(files)))
  }

  function OutcomeFor(source: Source, files: seq<Recognized>, reason: string, confidence: real, known: map<string, Evidence>): Outcome {
    var paths := SourcePaths(files);
    Outcome(
      Digest([source.repositoryKey, source.prKey, "dependency", reason, JoinColon(Sort(paths, LexLe))]),
      reason, confidence, paths, EvidenceIds(paths, known))
  }

  function Group(files: seq<Recognized>, e: Ecosystem): seq<Recognized> {
    Filter(files, (r: Recognized) => r.found.ecosystem == e)
  }

  /** The ecosystems in the order of their labels. */
  const ORDER: seq<Ecosystem> := [Dotnet, Go, Jvm, Npm, Python, Ruby, Rust]

  datatype Tally = Tally(changes: seq<Change>, outcomes: seq<Outcome>)

  function Tallied(t: Tally, source: Source, e: Ecosystem, files: seq<Recognized>, known: map<string, Evidence>, threshold: real): Tally {
    if files == [] then t
    else
      match Judge(files, threshold)
      case Draft(op) => t.(changes := t.changes + [ChangeFor(source, e, files, op, known)])
      case Suppress(reason, confidence) => t.(outcomes := t.outcomes + [OutcomeFor(source, files, reason, confidence, known)])
  }

  function TallyAll(source: Source, ecosystems: seq<Ecosystem>, files: seq<Recognized>, known: map<string, Evidence>, threshold: real): Tally {
    if ecosystems == [] then Tally([], [])
    else
      var e := ecosystems[|ecosystems| - 1];
      Tallied(TallyAll(source, ecosystems[..|ecosystems| - 1], files, known, threshold), source, e, Group(files, e), known, threshold)
  }

  predicate ChangeLe(a: Change, b: Change) {
    if a.ecosystem == b.ecosystem then LexLe(a.id, b.id) else LexLe(a.ecosystem.Label(), b.ecosystem.Label())
  }

  predicate OutcomeLe(a: Outcome, b: Outcome) {
    if a.reason == b.reason then LexLe(a.id, b.id) else LexLe(a.reason, b.reason)
  }

  /** `classify`. */
  function Classify(c: Candidate, threshold: real): Classification {
    var files := Recognize(c.files);
    var evidence := EvidenceOf(c.source, files);
    var t := TallyAll(c.source, ORDER, files, ByPath(evidence), threshold);
    Classification(Sort(t.changes, ChangeLe), Sort(t.outcomes, OutcomeLe), evidence)
  }

  /** The grouping loop: a dictionary from ecosystem to its files, in order. */
  method GroupFiles(files: seq<Recognized>) returns (groups: map<Ecosystem, seq<Recognized>>)
    ensures forall e :: (e in groups <==> Group(files, e) != []) && (e in groups ==> groups[e] == Group(files, e))
  {
    groups := map[];
    for i := 0 to |files|
      invariant forall e :: (e in groups <==> Group(files[..i], e) != []) && (e in groups ==> groups[e] == Group(files[..i], e))
    {
      var item := files[i];
      assert files[..i + 1] == files[..i] + [item];
      forall e ensures Group(files[..i + 1], e) == Group(files[..i], e) + if item.found.ecosystem == e then [item] else [] {
        FilterAppend(files[..i], [item], (r: Recognized) => r.found.ecosystem == e);
        FilterOne(item, (r: Recognized) => r.found.ecosystem == e);
      }
      var before := if item.found.ecosystem in groups then groups[item.found.ecosystem] else [];
      groups := groups[item.found.ecosystem := before + [item]];
    }
    assert files[..|files|] == files;
  }

  method ClassifyCandidate(c: Candidate, threshold: real) returns (r: Classification)
    ensures r == Classify(c, threshold)
  {
    var evidence := BuildEvidence(c);
    var files := RecognizeFiles(c.files);
    var t := TallyEcosystems(c.source, files, ByPath(evidence), threshold);
    r := Classification(Sort(t.changes, ChangeLe), Sort(t.outcomes, OutcomeLe), evidence);
  }

  /** The loop over the groups, in the order of their labels. */
  method TallyEcosystems(source: Source, files: seq<Recognized>, known: map<string, Evidence>, threshold: real) returns (t: Tally)
    ensures t == TallyAll(source, ORDER, files, known, threshold)
  {
    var groups := GroupFiles(files);
    t := Tally([], []);
    for i := 0 to |ORDER|
      invariant t == TallyAll(source, ORDER[..i], files, known, threshold)
    {
      var e := ORDER[i];
      assert ORDER[..i + 1][..i] == ORDER[..i];
      if e in groups {
        t := TallyGroup(t, source, e, groups[e], known, threshold);
      }
    }
    assert ORDER[..|ORDER|] == ORDER;
  }

  method TallyGroup(t: Tally, source: Source, e: Ecosystem, files: seq<Recognized>, known: map<string, Evidence>, threshold: real)
    returns (u: Tally)
    requires files != []
    ensures u == Tallied(t, source, e, files, known, threshold)
  {
    var manifests := Manifests(files);
    if manifests == [] {
      return t.(outcomes := t.outcomes + [OutcomeFor(source, files, "lockfile_only_churn", 0.30, known)]);
    }
    var operation := AggregateOperation(manifests);
    if operation.None? {
      return t.(outcomes := t.outcomes + [OutcomeFor(source, files, "malformed_evidence", 0.40, known)]);
    }
    var confidence := operation.value.Confidence();
    if confidence < threshold {
      return t.(outcomes := t.outcomes + [OutcomeFor(source, files, "low_confidence", confidence, known)]);
    }
    return t.(changes := t.changes + [ChangeFor(source, e, files, operation.value, known)]);
  }
}
