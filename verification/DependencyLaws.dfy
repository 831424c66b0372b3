/** What the dependency classifier guarantees about its records, for every set of changed
    files. */
module DependencyLaws {
  import opened Prelude
  import opened Sorting
  import opened DependencyEvidence
  import opened DependencyClassifier

  // ------------------------------------------------------------------ the input's order

  /** The whole result is the same for every order of changed files with distinct names. */
  lemma ClassifyForgetsOrder(c: Candidate, files: seq<ChangedFile>, threshold: real)
    requires multiset(c.files) == multiset(files) && DistinctNames(c.files)
    ensures Classify(c.(files := files), threshold) == Classify(c, threshold)
  {
    RecognizeForgetsOrder(c.files, files);
  }

  // ------------------------------------------------------------------ which ecosystems are drafted

  /** The operation of one manifest. */
  predicate Did(o: Observed, op: Operation) {
    (o == Added && op == AllAdded) || (o == Removed && op == AllRemoved) || (o == VersionChanged && op == AllVersionChanged)
  }

  /** `op` is what the manifests among `files` did: there is one, all of them are known, and it
      is mixed exactly when two of them differ. */
  ghost predicate IsOperationOf(op: Operation, files: seq<Recognized>) {
    && (exists m :: m in files && m.found.kind.Manifest?)
    && (forall m :: m in files && m.found.kind.Manifest? ==> m.observed in {Added, Removed, VersionChanged})
    && (op.Mixed? <==> exists m, n :: m in files && n in files && m.found.kind.Manifest? && n.found.kind.Manifest? && m.observed != n.observed)
    && (!op.Mixed? ==> forall m :: m in files && m.found.kind.Manifest? ==> Did(m.observed, op))
  }

  lemma ManifestsOf(files: seq<Recognized>)
    ensures forall m :: m in Manifests(files) <==> m in files && m.found.kind.Manifest?
    ensures Manifests(files) == [] <==> !(exists m :: m in files && m.found.kind.Manifest?)
  {
    forall m ensures m in Manifests(files) <==> m in files && m.found.kind.Manifest? {
      FilterMember(files, (r: Recognized) => r.found.kind.Manifest?, m);
    }
    if Manifests(files) != [] {
      assert Manifests(files)[0] in Manifests(files);
    }
  }

  lemma AggregateMeans(files: seq<Recognized>)
    ensures Aggregate(Manifests(files)).Some? ==> IsOperationOf(Aggregate(Manifests(files)).value, files)
    ensures Aggregate(Manifests(files)).None? ==> forall op :: !IsOperationOf(op, files)
  {
    var manifests := Manifests(files);
    ManifestsOf(files);
    if manifests != [] {
      assert manifests[0] in manifests;
    }
  }

  lemma OperationIsUnique(a: Operation, b: Operation, files: seq<Recognized>)
    requires IsOperationOf(a, files) && IsOperationOf(b, files)
    ensures a == b
  {
    var m :| m in files && m.found.kind.Manifest?;
    if !a.Mixed? {
      assert Did(m.observed, a);
      assert Did(m.observed, b);
    }
  }

  /** Drafting needs a manifest, known operations on all manifests, and the threshold met. */
  ghost predicate MeetsTheBar(files: seq<Recognized>, threshold: real) {
    exists op: Operation :: IsOperationOf(op, files) && op.Confidence() >= threshold
  }

  lemma JudgeExactly(files: seq<Recognized>, threshold: real)
    ensures Judge(files, threshold).Draft? <==> MeetsTheBar(files, threshold)
    ensures Judge(files, threshold).Draft? ==> IsOperationOf(Judge(files, threshold).operation, files)
  {
    ManifestsOf(files);
    AggregateMeans(files);
    if MeetsTheBar(files, threshold) {
      var op :| IsOperationOf(op, files) && op.Confidence() >= threshold;
      assert Aggregate(Manifests(files)).Some?;
      OperationIsUnique(op, Aggregate(Manifests(files)).value, files);
    }
  }

  // ------------------------------------------------------------------ one record per ecosystem

  ghost predicate Distinctly(ecosystems: seq<Ecosystem>) {
    forall i, j :: 0 <= i < j < |ecosystems| ==> ecosystems[i] != ecosystems[j]
  }

  /** The change record of one ecosystem, if it is drafted. */
  function Drafted(source: Source, files: seq<Recognized>, known: map<string, Evidence>, threshold: real, e: Ecosystem): seq<Change> {
    var group := Group(files, e);
    if group != [] && Judge(group, threshold).Draft? then [ChangeFor(source, e, group, Judge(group, threshold).operation, known)] else []
  }

  function DraftedIn(source: Source, files: seq<Recognized>, known: map<string, Evidence>, threshold: real): Ecosystem -> seq<Change> {
    (e: Ecosystem) => Drafted(source, files, known, threshold, e)
  }

  function AllDrafted(ecosystems: seq<Ecosystem>, drafted: Ecosystem -> seq<Change>): seq<Change> {
    if ecosystems == [] then []
    else AllDrafted(ecosystems[..|ecosystems| - 1], drafted) + drafted(ecosystems[|ecosystems| - 1])
  }

  lemma {:induction false} TallyDrafts(source: Source, ecosystems: seq<Ecosystem>, files: seq<Recognized>,
                                       known: map<string, Evidence>, threshold: real)
    ensures TallyAll(source, ecosystems, files, known, threshold).changes
         == AllDrafted(ecosystems, DraftedIn(source, files, known, threshold))
  {
    if ecosystems != [] {
      var n := |ecosystems| - 1;
      var e := ecosystems[n];
      var t := TallyAll(source, ecosystems[..n], files, known, threshold);
      TallyDrafts(source, ecosystems[..n], files, known, threshold);
      assert Tallied(t, source, e, Group(files, e), known, threshold).changes == t.changes + Drafted(source, files, known, threshold, e);
    }
  }

  /** Of the drafts of distinct ecosystems, those of `e` are its own. */
  lemma {:induction false} DraftsOf(ecosystems: seq<Ecosystem>, drafted: Ecosystem -> seq<Change>, e: Ecosystem)
    requires Distinctly(ecosystems)
    requires forall f :: |drafted(f)| <= 1 && forall c :: c in drafted(f) ==> c.ecosystem == f
    ensures Filter(AllDrafted(ecosystems, drafted), (c: Change) => c.ecosystem == e) == if e in ecosystems then drafted(e) else []
  {
    if ecosystems != [] {
      var n := |ecosystems| - 1;
      var f := ecosystems[n];
      var mine := (c: Change) => c.ecosystem == e;
      DraftsOf(ecosystems[..n], drafted, e);
      assert ecosystems == ecosystems[..n] + [f];
      FilterAppend(AllDrafted(ecosystems[..n], drafted), drafted(f), mine);
      if drafted(f) != [] {
        assert drafted(f) == [drafted(f)[0]];
        FilterOne(drafted(f)[0], mine);
      }
    }
  }

  /** The changes are those of the drafted ecosystems, one each. */
  lemma TallyChanges(source: Source, files: seq<Recognized>, known: map<string, Evidence>, threshold: real, e: Ecosystem)
    ensures Filter(TallyAll(source, ORDER, files, known, threshold).changes, (c: Change) => c.ecosystem == e)
         == Drafted(source, files, known, threshold, e)
  {
    OrderIsComplete(e);
    TallyDrafts(source, ORDER, files, known, threshold);
    DraftsOf(ORDER, DraftedIn(source, files, known, threshold), e);
  }

  lemma OrderIsComplete(e: Ecosystem)
    ensures e in ORDER && Distinctly(ORDER)
  {
    assert ORDER[0] == Dotnet && ORDER[1] == Go && ORDER[2] == Jvm && ORDER[3] == Npm
        && ORDER[4] == Python && ORDER[5] == Ruby && ORDER[6] == Rust;
  }

  /** The records of an ecosystem in the sorted result are its draft. */
  lemma SortedDrafts(c: Candidate, threshold: real, e: Ecosystem, r: Change)
    ensures var files := Recognize(c.files);
      r in Classify(c, threshold).changes && r.ecosystem == e
      <==> r in Drafted(c.source, files, ByPath(EvidenceOf(c.source, files)), threshold, e)
  {
    var files := Recognize(c.files);
    var known := ByPath(EvidenceOf(c.source, files));
    var t := TallyAll(c.source, ORDER, files, known, threshold);
    TallyChanges(c.source, files, known, threshold, e);
    SortElements(t.changes, ChangeLe);
    FilterMember(t.changes, (x: Change) => x.ecosystem == e, r);
  }

  lemma DraftedExactly(source: Source, files: seq<Recognized>, known: map<string, Evidence>, threshold: real, e: Ecosystem)
    ensures var group := Group(files, e); var drafted := Drafted(source, files, known, threshold, e);
      && |drafted| == (if MeetsTheBar(group, threshold) then 1 else 0)
      && forall r :: r in drafted ==>
           IsOperationOf(r.operation, group) && r.confidence == r.operation.Confidence() >= threshold
           && multiset(r.paths) == multiset(Paths(group))
  {
    JudgeExactly(Group(files, e), threshold);
    SortElements(Paths(Group(files, e)), LexLe);
  }

  /** An ecosystem is drafted exactly when it meets the bar; then it has one change record,
      which covers all its files and states what its manifests did. */
  lemma ChangesExactly(c: Candidate, threshold: real, e: Ecosystem)
    ensures var files := Group(Recognize(c.files), e);
      var mine := set r | r in Classify(c, threshold).changes && r.ecosystem == e;
      && (mine != {} <==> MeetsTheBar(files, threshold))
      && (forall a, b :: a in mine && b in mine ==> a == b)
      && (forall r :: r in mine ==>
            IsOperationOf(r.operation, files) && r.confidence == r.operation.Confidence() >= threshold
            && multiset(r.paths) == multiset(Paths(files)))
  {
    var recognized := Recognize(c.files);
    var known := ByPath(EvidenceOf(c.source, recognized));
    var drafted := Drafted(c.source, recognized, known, threshold, e);
    var mine := set r | r in Classify(c, threshold).changes && r.ecosystem == e;
    forall r ensures r in mine <==> r in drafted {
      SortedDrafts(c, threshold, e, r);
    }
    DraftedExactly(c.source, recognized, known, threshold, e);
    if drafted != [] {
      assert drafted[0] in mine;
    }
  }

  function Present(files: seq<Recognized>, ecosystems: seq<Ecosystem>): nat {
    if ecosystems == [] then 0
    else Present(files, ecosystems[..|ecosystems| - 1]) + if Group(files, ecosystems[|ecosystems| - 1]) != [] then 1 else 0
  }

  lemma {:induction false} TallyCounts(source: Source, ecosystems: seq<Ecosystem>, files: seq<Recognized>,
                                       known: map<string, Evidence>, threshold: real)
    ensures var t := TallyAll(source, ecosystems, files, known, threshold);
      |t.changes| + |t.outcomes| == Present(files, ecosystems)
  {
    if ecosystems != [] {
      TallyCounts(source, ecosystems[..|ecosystems| - 1], files, known, threshold);
    }
  }

  /** There are as many records as ecosystems with recognised files. */
  lemma OneRecordPerEcosystem(c: Candidate, threshold: real)
    ensures var r := Classify(c, threshold);
      |r.changes| + |r.outcomes| == Present(Recognize(c.files), ORDER)
  {
    var recognized := Recognize(c.files);
    var t := TallyAll(c.source, ORDER, recognized, ByPath(EvidenceOf(c.source, recognized)), threshold);
    TallyCounts(c.source, ORDER, recognized, ByPath(EvidenceOf(c.source, recognized)), threshold);
    SortElements(t.changes, ChangeLe);
    SortElements(t.outcomes, OutcomeLe);
  }

  // ------------------------------------------------------------------ every file in one record

  /** All paths of a list of records, with multiplicity. */
  function Bag<T>(records: seq<T>, paths: T -> seq<string>): multiset<string> {
    if records == [] then multiset{} else multiset(paths(records[0])) + Bag(records[1..], paths)
  }

  lemma {:induction false} BagAppend<T>(a: seq<T>, b: seq<T>, paths: T -> seq<string>)
    ensures Bag(a + b, paths) == Bag(a, paths) + Bag(b, paths)
  {
    if a == [] {
      assert a + b == b;
    } else {
      assert (a + b)[1..] == a[1..] + b;
      BagAppend(a[1..], b, paths);
    }
  }

  lemma {:induction false} BagInsert<T>(x: T, s: seq<T>, le: (T, T) -> bool, paths: T -> seq<string>)
    ensures Bag(Insert(x, s, le), paths) == multiset(paths(x)) + Bag(s, paths)
  {
    if s == [] || le(x, s[0]) {
      assert Insert(x, s, le)[1..] == s;
    } else {
      BagInsert(x, s[1..], le, paths);
      assert Insert(x, s, le)[1..] == Insert(x, s[1..], le);
    }
  }

  lemma {:induction false} BagSort<T>(s: seq<T>, le: (T, T) -> bool, paths: T -> seq<string>)
    ensures Bag(Sort(s, le), paths) == Bag(s, paths)
  {
    if s != [] {
      BagSort(s[1..], le, paths);
      BagInsert(s[0], Sort(s[1..], le), le, paths);
    }
  }

  function ChangePaths(c: Change): seq<string> {
    c.paths
  }

  function OutcomePaths(o: Outcome): seq<string> {
    o.paths
  }

  function BagOf(t: Tally): multiset<string> {
    Bag(t.changes, ChangePaths) + Bag(t.outcomes, OutcomePaths)
  }

  lemma OneMoreChange(t: Tally, c: Change)
    ensures BagOf(t.(changes := t.changes + [c])) == BagOf(t) + multiset(c.paths)
  {
    BagAppend(t.changes, [c], ChangePaths);
    assert [c][1..] == [];
  }

  lemma OneMoreOutcome(t: Tally, o: Outcome)
    ensures BagOf(t.(outcomes := t.outcomes + [o])) == BagOf(t) + multiset(o.paths)
  {
    BagAppend(t.outcomes, [o], OutcomePaths);
    assert [o][1..] == [];
  }

  lemma TalliedBag(t: Tally, source: Source, e: Ecosystem, files: seq<Recognized>, known: map<string, Evidence>, threshold: real)
    ensures BagOf(Tallied(t, source, e, files, known, threshold)) == BagOf(t) + multiset(Paths(files))
  {
    if files != [] {
      SortElements(Paths(files), LexLe);
      match Judge(files, threshold)
      case Draft(op) => OneMoreChange(t, ChangeFor(source, e, files, op, known));
      case Suppress(reason, confidence) => OneMoreOutcome(t, OutcomeFor(source, files, reason, confidence, known));
    }
  }

  /** The files of some ecosystems. */
  function GroupsOf(files: seq<Recognized>, ecosystems: seq<Ecosystem>): seq<Recognized> {
    Filter(files, (r: Recognized) => r.found.ecosystem in ecosystems)
  }

  lemma {:induction false} GroupsSplit(files: seq<Recognized>, some: seq<Ecosystem>, e: Ecosystem)
    requires e !in some
    ensures multiset(GroupsOf(files, some + [e])) == multiset(GroupsOf(files, some)) + multiset(Group(files, e))
  {
    if files != [] {
      GroupsSplit(files[1..], some, e);
    }
  }

  lemma {:induction false} TallyBag(source: Source, ecosystems: seq<Ecosystem>, files: seq<Recognized>,
                                    known: map<string, Evidence>, threshold: real)
    requires Distinctly(ecosystems)
    ensures BagOf(TallyAll(source, ecosystems, files, known, threshold)) == multiset(Paths(GroupsOf(files, ecosystems)))
  {
    if ecosystems == [] {
      NoGroups(files);
    } else {
      var n := |ecosystems| - 1;
      var e := ecosystems[n];
      var some := ecosystems[..n];
      TallyBag(source, some, files, known, threshold);
      TalliedBag(TallyAll(source, some, files, known, threshold), source, e, Group(files, e), known, threshold);
      assert ecosystems == some + [e];
      GroupsSplit(files, some, e);
      MapAppend(GroupsOf(files, some), Group(files, e), (r: Recognized) => r.path);
      MapElements(GroupsOf(files, ecosystems), GroupsOf(files, some) + Group(files, e), (r: Recognized) => r.path);
    }
  }

  lemma {:induction false} NoGroups(files: seq<Recognized>)
    ensures GroupsOf(files, []) == []
  {
    if files != [] {
      NoGroups(files[1..]);
    }
  }

  lemma {:induction false} AllGroups(files: seq<Recognized>)
    ensures GroupsOf(files, ORDER) == files
  {
    if files != [] {
      OrderIsComplete(files[0].found.ecosystem);
      AllGroups(files[1..]);
      assert files == [files[0]] + files[1..];
    }
  }

  /** Every recognised file is in exactly one record, once, and records name nothing else: the
      paths of all records together are the paths of the recognised files. */
  lemma EveryFileInOneRecord(c: Candidate, threshold: real)
    ensures var r := Classify(c, threshold);
      Bag(r.changes, ChangePaths) + Bag(r.outcomes, OutcomePaths) == multiset(Paths(Recognize(c.files)))
  {
    var files := Recognize(c.files);
    var known := ByPath(EvidenceOf(c.source, files));
    var t := TallyAll(c.source, ORDER, files, known, threshold);
    OrderIsComplete(Python);
    TallyBag(c.source, ORDER, files, known, threshold);
    AllGroups(files);
    BagSort(t.changes, ChangeLe, ChangePaths);
    BagSort(t.outcomes, OutcomeLe, OutcomePaths);
  }

  // ------------------------------------------------------------------ evidence

  /** The kind of a recognised file is told by its path. */
  ghost predicate KindByPath(files: seq<Recognized>, kindOf: string -> Kind) {
    forall r :: r in files ==> r.found.kind == kindOf(r.path)
  }

  function KindOf(path: string): Kind {
    match MatchFile(path)
    case Some(m) => m.kind
    case None => Manifest
  }

  lemma RecognizedByPath(files: seq<ChangedFile>)
    ensures KindByPath(Recognize(files), KindOf)
  {
    SortElements(Collect(files), PathLe);
    forall r | r in Recognize(files) ensures r.found.kind == KindOf(r.path) {
      var f := CollectSource(files, r);
    }
  }

  lemma {:induction false} ByPathFinds(source: Source, files: seq<Recognized>, path: string, kindOf: string -> Kind)
    requires KindByPath(files, kindOf)
    requires path in Paths(files)
    ensures var known := ByPath(EvidenceOf(source, files));
      path in known && known[path].id == EvidenceId(source, path, kindOf(path))
  {
    var n := |files| - 1;
    var last := files[n];
    assert last in files;
    assert files == files[..n] + [last];
    MapAppend(files[..n], [last], (r: Recognized) => r.path);
    var before := EvidenceOf(source, files[..n]);
    var all := EvidenceOf(source, files);
    assert all[|all| - 1] == EvidenceFor(source, last) && all[..|all| - 1] == before;
    if last.path != path {
      assert Map([last], (r: Recognized) => r.path) == [last.path];
      ByPathFinds(source, files[..n], path, kindOf);
    }
  }

  lemma {:induction false} IdsOf(source: Source, files: seq<Recognized>, paths: seq<string>, kindOf: string -> Kind)
    requires KindByPath(files, kindOf) && forall p :: p in paths ==> p in Paths(files)
    ensures var ids := EvidenceIds(paths, ByPath(EvidenceOf(source, files)));
      && |ids| == |paths|
      && forall i :: 0 <= i < |paths| ==> ids[i] == EvidenceId(source, paths[i], kindOf(paths[i]))
  {
    if paths != [] {
      var n := |paths| - 1;
      IdsOf(source, files, paths[..n], kindOf);
      assert paths[n] in paths;
      ByPathFinds(source, files, paths[n], kindOf);
    }
  }

  lemma GroupPaths(files: seq<Recognized>, e: Ecosystem, p: string)
    requires p in Paths(Group(files, e))
    ensures p in Paths(files)
  {
    var group := Group(files, e);
    var path := (r: Recognized) => r.path;
    PathSource(group, p);
    var r :| r in group && r.path == p;
    FilterMember(files, (x: Recognized) => x.found.ecosystem == e, r);
    var i :| 0 <= i < |files| && files[i] == r;
    MapAt(files, path, i);
  }

  lemma {:induction false} PathSource(files: seq<Recognized>, p: string)
    requires p in Paths(files)
    ensures exists r :: r in files && r.path == p
  {
    if files[0].path == p {
      assert files[0] in files;
    } else {
      PathSource(files[1..], p);
    }
  }

  /** A change cites, in the order of its paths, the evidence record of each of its files. */
  lemma ChangesCiteTheirEvidence(c: Candidate, threshold: real, change: Change)
    requires change in Classify(c, threshold).changes
    ensures |change.evidenceIds| == |change.paths|
    ensures forall i :: 0 <= i < |change.paths| ==> change.evidenceIds[i] == EvidenceId(c.source, change.paths[i], KindOf(change.paths[i]))
  {
    var files := Recognize(c.files);
    var known := ByPath(EvidenceOf(c.source, files));
    var e := change.ecosystem;
    var t := TallyAll(c.source, ORDER, files, known, threshold);
    SortElements(t.changes, ChangeLe);
    OrderIsComplete(e);
    TallyChanges(c.source, files, known, threshold, e);
    FilterMember(t.changes, (x: Change) => x.ecosystem == e, change);
    assert change.paths == SourcePaths(Group(files, e)) && change.evidenceIds == EvidenceIds(change.paths, known);
    RecognizedByPath(c.files);
    SortElements(Paths(Group(files, e)), LexLe);
    forall p | p in change.paths ensures p in Paths(files) {
      GroupPaths(files, e, p);
    }
    IdsOf(c.source, files, change.paths, KindOf);
  }
}
