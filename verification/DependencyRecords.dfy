/** What the dependency classifier reads and writes, record by record: which file names it knows,
    what it observes of a file, and what evidence, changes and outcomes say. */
module DependencyRecords {
  import opened Prelude
  import opened Text
  import opened Hashing
  import opened Sorting
  import opened DependencyEvidence
  import opened DependencyClassifier
  import opened DependencyLaws
  import Fingerprints

  // ------------------------------------------------------------------ known names

  /** The manifests of each ecosystem. */
  predicate IsManifest(name: string, e: Ecosystem) {
    match e
    case Python => name == "pyproject.toml" || name == "setup.py" || name == "setup.cfg" || name == "Pipfile"
                   || (StartsWith(name, "requirements") && EndsWith(name, ".txt"))
    case Npm => name == "package.json"
    case Go => name == "go.mod"
    case Rust => name == "Cargo.toml"
    case Jvm => name == "pom.xml" || name == "build.gradle" || name == "build.gradle.kts"
    case Ruby => name == "Gemfile"
    case Dotnet => EndsWith(name, ".csproj")
  }

  /** The lockfiles of each ecosystem. */
  predicate IsLockfile(name: string, e: Ecosystem) {
    match e
    case Python => name == "poetry.lock" || name == "uv.lock" || name == "Pipfile.lock"
    case Npm => name == "package-lock.json" || name == "pnpm-lock.yaml" || name == "yarn.lock"
    case Go => name == "go.sum"
    case Rust => name == "Cargo.lock"
    case Jvm => name == "gradle.lockfile"
    case Ruby => name == "Gemfile.lock"
    case Dotnet => name == "packages.lock.json"
  }

  lemma ManifestTable(name: string)
    ensures name in MANIFESTS ==> IsManifest(name, MANIFESTS[name]) && !EndsWith(name, ".csproj") && !StartsWith(name, "requirements")
    ensures forall e :: IsManifest(name, e) && !EndsWith(name, ".csproj") && !StartsWith(name, "requirements") ==>
              name in MANIFESTS && MANIFESTS[name] == e
  {
    PrefixElements("requirements", name);
    assert "requirements"[0] == 'r' && (name in MANIFESTS ==> name[0] != 'r');
  }

  lemma LockfileTable(name: string)
    ensures name in LOCKFILES ==> IsLockfile(name, LOCKFILES[name]) && !EndsWith(name, ".csproj") && !StartsWith(name, "requirements")
    ensures forall e :: IsLockfile(name, e) ==> name in LOCKFILES && LOCKFILES[name] == e
  {
    PrefixElements("requirements", name);
    assert "requirements"[0] == 'r' && (name in LOCKFILES ==> name[0] != 'r');
  }

  lemma TablesApart(name: string)
    ensures !(name in MANIFESTS && name in LOCKFILES)
  {
  }

  /** A file is recognised by its last path component, exactly for the known names. */
  lemma RecognizedExactly(directory: string, separator: char, name: string, e: Ecosystem)
    requires separator == '/' || separator == '\\'
    requires '/' !in name && '\\' !in name
    ensures MatchFile(directory + [separator] + name) == Some(FileMatch(e, Manifest)) <==> IsManifest(name, e)
    ensures MatchFile(directory + [separator] + name) == Some(FileMatch(e, Lockfile)) <==> IsLockfile(name, e)
    ensures MatchFile(name) == MatchFile(directory + [separator] + name)
  {
    LastComponentOf(directory, separator, name);
    ManifestTable(name);
    LockfileTable(name);
    TablesApart(name);
    EndingsApart(name);
  }

  lemma EndingsApart(name: string)
    ensures !(EndsWith(name, ".txt") && EndsWith(name, ".csproj"))
  {
    if EndsWith(name, ".txt") {
      assert name[|name| - 4..][3] == name[|name| - 1] == 't';
    }
    if EndsWith(name, ".csproj") {
      assert name[|name| - 7..][6] == name[|name| - 1] == 'j';
    }
  }

  // ------------------------------------------------------------------ what is observed of a file

  /** Whether a status, in any case, says added, or removed. */
  predicate SaysAdded(status: string) {
    LowerText(status) == "added"
  }

  predicate SaysRemoved(status: string) {
    LowerText(status) == "removed" || LowerText(status) == "deleted"
  }

  /** A lockfile only churns. A manifest is added or removed when its status says so, and where
      the status does not, the changed lines tell: only added ones, only removed ones, or both. */
  lemma ObservedExactly(m: FileMatch, f: ChangedFile)
    ensures InferOperation(m, f) == LockfileChurn <==> m.kind == Lockfile
    ensures m.kind == Manifest ==>
      var silent := !SaysAdded(f.status) && !SaysRemoved(f.status); var o := InferOperation(m, f);
      && (o == Added <==> SaysAdded(f.status) || (silent && f.additions > 0 && f.deletions == 0))
      && (o == Removed <==> SaysRemoved(f.status) || (silent && f.additions == 0 && f.deletions > 0))
      && (o == VersionChanged <==> silent && f.additions > 0 && f.deletions > 0)
  {
    assert |"added"| == 5 && |"removed"| == 7 && |"deleted"| == 7;
  }

  ghost predicate Reads(f: ChangedFile, r: Recognized) {
    && MatchFile(f.filename) == Some(r.found) && r.path == f.filename
    && r.observed == InferOperation(r.found, f) && r.additions == f.additions && r.deletions == f.deletions
  }

  /** The recognised files are the changed files with known names, each with what is observed of
      it. */
  lemma {:induction false} RecognizedSays(files: seq<ChangedFile>, r: Recognized)
    ensures r in Recognize(files) <==> exists f :: f in files && Reads(f, r)
  {
    SortElements(Collect(files), PathLe);
    CollectSays(files, r);
  }

  lemma ReadsExactly(f: ChangedFile, r: Recognized)
    ensures RecognizeOne(f) == Some(r) <==> Reads(f, r)
  {
  }

  lemma {:induction false} CollectSays(files: seq<ChangedFile>, r: Recognized)
    ensures r in Collect(files) <==> exists f :: f in files && Reads(f, r)
  {
    if files != [] {
      var n := |files| - 1;
      CollectSays(files[..n], r);
      ReadsExactly(files[n], r);
      assert files == files[..n] + [files[n]];
      assert r in Collect(files) <==> r in Collect(files[..n]) || RecognizeOne(files[n]) == Some(r);
    }
  }

  // ------------------------------------------------------------------ evidence

  /** The hash of bar-free parts identifies them. */
  lemma DigestIdentifies(a: seq<string>, b: seq<string>)
    requires |a| == |b| > 0 && (forall p :: p in a ==> '|' !in p) && (forall p :: p in b ==> '|' !in p)
    ensures Digest(a) == Digest(b) <==> a == b
  {
    Sha256Injective(Join(a), Join(b));
    JoinEqual(a, b);
    FieldsPipeFree(a);
    FieldsPipeFree(b);
  }

  ghost predicate BarFree(c: Source) {
    '|' !in c.repositoryKey && '|' !in c.prKey
  }

  lemma KindsDiffer(k: Kind, l: Kind)
    ensures k.Label() == l.Label() <==> k == l
    ensures '|' !in k.Label()
  {
    assert "dependency_manifest"[11] == 'm' && "dependency_lockfile"[11] == 'l';
  }

  /** An evidence id identifies repository, pull request, path and kind. */
  lemma EvidenceIdentifies(c: Source, path: string, kind: Kind, d: Source, other: string, otherKind: Kind)
    requires BarFree(c) && BarFree(d) && '|' !in path && '|' !in other
    ensures EvidenceId(c, path, kind) == EvidenceId(d, other, otherKind)
            <==> c.repositoryKey == d.repositoryKey && c.prKey == d.prKey && path == other && kind == otherKind
  {
    KindsDiffer(kind, otherKind);
    KindsDiffer(otherKind, kind);
    var a, b := [c.repositoryKey, c.prKey, path, kind.Label()], [d.repositoryKey, d.prKey, other, otherKind.Label()];
    DigestIdentifies(a, b);
    assert a == b <==> a[0] == b[0] && a[1] == b[1] && a[2] == b[2] && a[3] == b[3];
  }

  /** The exact text that is hashed for an evidence id. */
  lemma EvidencePreimage(c: Source, path: string, kind: Kind)
    ensures EvidenceId(c, path, kind)
         == Sha256(c.repositoryKey + "|" + c.prKey + "|" + path + "|"
                   + if kind == Manifest then "dependency_manifest" else "dependency_lockfile")
  {
    Fingerprints.JoinFour(c.repositoryKey, c.prKey, path, kind.Label());
  }

  /** An evidence record quotes its file: path, kind, what was observed, and where in the diff. */
  lemma {:induction false} EvidenceSays(c: Source, recognized: seq<Recognized>, i: nat)
    requires i < |recognized|
    ensures |EvidenceOf(c, recognized)| == |recognized|
    ensures var e, r := EvidenceOf(c, recognized)[i], recognized[i];
      && e.path == r.path && e.kind == r.found.kind && e.observed == r.observed
      && e.hunkRef == c.diffHandle + "#" + r.path && e.id == EvidenceId(c, r.path, r.found.kind)
      && e.immutableHash
         == Digest([c.repositoryKey, c.prKey, r.path, if r.found.kind == Manifest then "dependency_manifest" else "dependency_lockfile", "", ""])
  {
    var n := |recognized| - 1;
    if i < n {
      EvidenceSays(c, recognized[..n], i);
    } else if n > 0 {
      EvidenceSays(c, recognized[..n], 0);
    }
  }

  // ------------------------------------------------------------------ changes

  /** How sure a change is. */
  ghost predicate Certainty(op: Operation, confidence: real) {
    && (op == AllAdded || op == AllRemoved ==> confidence == 0.80)
    && (op == AllVersionChanged ==> confidence == 0.75)
    && (op == Mixed ==> confidence == 0.70)
  }

  /** Why a change is reported: manifest and lockfile together, or what the manifests did. */
  ghost predicate Because(op: Operation, files: seq<Recognized>, reason: string) {
    if exists r :: r in files && r.found.kind == Lockfile then reason == "manifest_lockfile_pair"
    else
      && (op == AllAdded ==> reason == "direct_manifest_add")
      && (op == AllRemoved ==> reason == "direct_manifest_remove")
      && (op == AllVersionChanged ==> reason == "direct_manifest_version_change")
      && (op == Mixed ==> reason == "manifest_mixed_operations")
  }

  ghost predicate Alphabetical(paths: seq<string>) {
    forall i, j :: 0 <= i < j < |paths| ==> LexLe(paths[i], paths[j])
  }

  lemma PathsInOrder(files: seq<Recognized>)
    ensures Alphabetical(SourcePaths(files)) && multiset(SourcePaths(files)) == multiset(Paths(files))
  {
    LexPreorder();
    SortSorted(Paths(files), LexLe);
    SortElements(Paths(files), LexLe);
  }

  /** A change says what its ecosystem's files did, how sure that is, why it is reported, and of
      which files in order. */
  lemma ChangeSays(c: Candidate, threshold: real, change: Change)
    requires change in Classify(c, threshold).changes
    ensures var files := Group(Recognize(c.files), change.ecosystem);
      && files != [] && IsOperationOf(change.operation, files)
      && Certainty(change.operation, change.confidence) && change.confidence >= threshold
      && Because(change.operation, files, change.reason)
      && Alphabetical(change.paths) && multiset(change.paths) == multiset(Paths(files))
  {
    var files := Recognize(c.files);
    var known := ByPath(EvidenceOf(c.source, files));
    var e := change.ecosystem;
    ChangesExactly(c, threshold, e);
    assert change in set r | r in Classify(c, threshold).changes && r.ecosystem == e;
    SortedDrafts(c, threshold, e, change);
    assert change in Drafted(c.source, files, known, threshold, e);
    PathsInOrder(Group(files, e));
  }

  // ------------------------------------------------------------------ outcomes

  /** Why an ecosystem has no change: only lockfiles, a manifest whose operation is unknown, or a
      change too unsure for the threshold. */
  ghost predicate Suppressed(files: seq<Recognized>, threshold: real, reason: string, confidence: real) {
    if forall r :: r in files ==> r.found.kind == Lockfile then
      reason == "lockfile_only_churn" && confidence == 0.30
    else if exists r :: r in files && r.found.kind == Manifest && (r.observed == Unknown || r.observed == LockfileChurn) then
      reason == "malformed_evidence" && confidence == 0.40
    else
      reason == "low_confidence" && confidence < threshold && exists op :: IsOperationOf(op, files) && Certainty(op, confidence)
  }

  lemma JudgeSuppresses(files: seq<Recognized>, threshold: real)
    requires files != [] && Judge(files, threshold).Suppress?
    ensures Suppressed(files, threshold, Judge(files, threshold).reason, Judge(files, threshold).confidence)
  {
    var manifests := Manifests(files);
    ManifestsOf(files);
    AggregateMeans(files);
    if manifests != [] {
      assert manifests[0] in manifests;
      if Aggregate(manifests).Some? {
        assert IsOperationOf(Aggregate(manifests).value, files);
      }
    }
  }

  /** The outcome record of one ecosystem, when it has files and no change. */
  ghost predicate OutcomeOf(c: Candidate, threshold: real, e: Ecosystem, o: Outcome) {
    var files := Group(Recognize(c.files), e);
    && files != [] && !MeetsTheBar(files, threshold)
    && Suppressed(files, threshold, o.reason, o.confidence)
    && Alphabetical(o.paths) && multiset(o.paths) == multiset(Paths(files))
  }

  lemma OneMoreEcosystem(t: Tally, source: Source, e: Ecosystem, files: seq<Recognized>, known: map<string, Evidence>, threshold: real, o: Outcome)
    ensures o in Tallied(t, source, e, Group(files, e), known, threshold).outcomes
            <==> o in t.outcomes || SuppressedAs(source, e, files, known, threshold, o)
  {
  }

  lemma {:induction false} TallyOutcomes(source: Source, ecosystems: seq<Ecosystem>, files: seq<Recognized>,
                                         known: map<string, Evidence>, threshold: real, o: Outcome)
    ensures o in TallyAll(source, ecosystems, files, known, threshold).outcomes
            <==> exists e :: e in ecosystems && SuppressedAs(source, e, files, known, threshold, o)
  {
    if ecosystems != [] {
      var n := |ecosystems| - 1;
      TallyOutcomes(source, ecosystems[..n], files, known, threshold, o);
      OneMoreEcosystem(TallyAll(source, ecosystems[..n], files, known, threshold), source, ecosystems[n], files, known, threshold, o);
      assert ecosystems == ecosystems[..n] + [ecosystems[n]];
    }
  }

  ghost predicate SuppressedAs(source: Source, e: Ecosystem, files: seq<Recognized>, known: map<string, Evidence>, threshold: real, o: Outcome) {
    var group := Group(files, e);
    && group != [] && Judge(group, threshold).Suppress?
    && o == OutcomeFor(source, group, Judge(group, threshold).reason, Judge(group, threshold).confidence, known)
  }

  /** Every ecosystem with files and without a change has an outcome that says why, and there is
      no other outcome. */
  lemma OutcomesExactly(c: Candidate, threshold: real, e: Ecosystem)
    ensures var outcomes := Classify(c, threshold).outcomes; var files := Group(Recognize(c.files), e);
      && (files != [] && !MeetsTheBar(files, threshold) ==> exists o :: o in outcomes && OutcomeOf(c, threshold, e, o))
      && (forall o :: o in outcomes ==> exists f :: OutcomeOf(c, threshold, f, o))
  {
    var recognized := Recognize(c.files);
    var known := ByPath(EvidenceOf(c.source, recognized));
    var t := TallyAll(c.source, ORDER, recognized, known, threshold);
    SortElements(t.outcomes, OutcomeLe);
    OrderIsComplete(e);
    var files := Group(recognized, e);
    JudgeExactly(files, threshold);
    if files != [] && !MeetsTheBar(files, threshold) {
      var o := OutcomeFor(c.source, files, Judge(files, threshold).reason, Judge(files, threshold).confidence, known);
      TallyOutcomes(c.source, ORDER, recognized, known, threshold, o);
      assert SuppressedAs(c.source, e, recognized, known, threshold, o);
      SuppressedIsOutcome(c, threshold, e, o);
    }
    forall o | o in t.outcomes ensures exists f :: OutcomeOf(c, threshold, f, o) {
      TallyOutcomes(c.source, ORDER, recognized, known, threshold, o);
      var f :| f in ORDER && SuppressedAs(c.source, f, recognized, known, threshold, o);
      SuppressedIsOutcome(c, threshold, f, o);
    }
  }

  lemma SuppressedIsOutcome(c: Candidate, threshold: real, e: Ecosystem, o: Outcome)
    requires var recognized := Recognize(c.files); SuppressedAs(c.source, e, recognized, ByPath(EvidenceOf(c.source, recognized)), threshold, o)
    ensures OutcomeOf(c, threshold, e, o)
  {
    var files := Group(Recognize(c.files), e);
    JudgeExactly(files, threshold);
    JudgeSuppresses(files, threshold);
    PathsInOrder(files);
  }

  /** An outcome cites, in the order of its paths, the evidence record of each of its files. */
  lemma OutcomesCiteTheirEvidence(c: Candidate, threshold: real, o: Outcome)
    requires o in Classify(c, threshold).outcomes
    ensures |o.evidenceIds| == |o.paths|
    ensures forall i :: 0 <= i < |o.paths| ==> o.evidenceIds[i] == EvidenceId(c.source, o.paths[i], KindOf(o.paths[i]))
  {
    var files := Recognize(c.files);
    var known := ByPath(EvidenceOf(c.source, files));
    SortElements(TallyAll(c.source, ORDER, files, known, threshold).outcomes, OutcomeLe);
    TallyOutcomes(c.source, ORDER, files, known, threshold, o);
    var e :| e in ORDER && SuppressedAs(c.source, e, files, known, threshold, o);
    RecognizedByPath(c.files);
    SortElements(Paths(Group(files, e)), LexLe);
    forall p | p in o.paths ensures p in Paths(files) {
      GroupPaths(files, e, p);
    }
    IdsOf(c.source, files, o.paths, KindOf);
  }

  // ------------------------------------------------------------------ the order of the result

  /** The place of an ecosystem among the labels. */
  function Place(e: Ecosystem): nat {
    match e
    case Dotnet => 0
    case Go => 1
    case Jvm => 2
    case Npm => 3
    case Python => 4
    case Ruby => 5
    case Rust => 6
  }

  lemma LabelsInOrder(a: Ecosystem, b: Ecosystem)
    ensures LexLe(a.Label(), b.Label()) <==> Place(a) <= Place(b)
  {
    if a == b {
      LexTotal(a.Label(), b.Label());
    } else {
      DifferentLabels(a, b);
    }
  }

  lemma DifferentLabels(a: Ecosystem, b: Ecosystem)
    requires a != b
    ensures LexLe(a.Label(), b.Label()) <==> Place(a) < Place(b)
  {
  }

  lemma ChangePreorder()
    ensures TotalPreorder(ChangeLe)
  {
    forall a, b ensures ChangeLe(a, b) <==> Place(a.ecosystem) < Place(b.ecosystem) || (a.ecosystem == b.ecosystem && LexLe(a.id, b.id)) {
      LabelsInOrder(a.ecosystem, b.ecosystem);
    }
    forall a, b ensures ChangeLe(a, b) || ChangeLe(b, a) {
      LexTotal(a.id, b.id);
    }
    forall a, b, c | ChangeLe(a, b) && ChangeLe(b, c) ensures ChangeLe(a, c) {
      if a.ecosystem == b.ecosystem == c.ecosystem {
        LexTransitive(a.id, b.id, c.id);
      }
    }
  }

  lemma OutcomePreorder()
    ensures TotalPreorder(OutcomeLe)
  {
    forall a, b ensures OutcomeLe(a, b) || OutcomeLe(b, a) {
      LexTotal(a.id, b.id);
      LexTotal(a.reason, b.reason);
    }
    forall a, b, c | OutcomeLe(a, b) && OutcomeLe(b, c) ensures OutcomeLe(a, c) {
      LexTotal(a.reason, b.reason);
      if a.reason == b.reason == c.reason {
        LexTransitive(a.id, b.id, c.id);
      } else if a.reason != b.reason && b.reason != c.reason {
        LexTransitive(a.reason, b.reason, c.reason);
      }
    }
  }

  /** Changes come by ecosystem in alphabetical order, outcomes by reason and then by id. */
  lemma ResultsInOrder(c: Candidate, threshold: real, i: nat, j: nat)
    ensures var r := Classify(c, threshold);
      && (i < j < |r.changes| ==> Place(r.changes[i].ecosystem) <= Place(r.changes[j].ecosystem))
      && (i < j < |r.outcomes| ==>
            LexLe(r.outcomes[i].reason, r.outcomes[j].reason)
            && (r.outcomes[i].reason == r.outcomes[j].reason ==> LexLe(r.outcomes[i].id, r.outcomes[j].id)))
  {
    var files := Recognize(c.files);
    var t := TallyAll(c.source, ORDER, files, ByPath(EvidenceOf(c.source, files)), threshold);
    ChangePreorder();
    OutcomePreorder();
    SortSorted(t.changes, ChangeLe);
    SortSorted(t.outcomes, OutcomeLe);
    var r := Classify(c, threshold);
    if i < j < |r.changes| {
      assert ChangeLe(r.changes[i], r.changes[j]);
      LabelsInOrder(r.changes[i].ecosystem, r.changes[j].ecosystem);
    }
    if i < j < |r.outcomes| {
      assert OutcomeLe(r.outcomes[i], r.outcomes[j]);
      LexTotal(r.outcomes[i].reason, r.outcomes[j].reason);
    }
  }

  // ------------------------------------------------------------------ what an id identifies

  lemma FirstColon(x: string, s: string, y: string, t: string)
    requires ':' !in x && ':' !in y
    ensures x + ":" + s == y + ":" + t <==> x == y && s == t
  {
    var u, v := x + ":" + s, y + ":" + t;
    if u == v {
      assert u[|x|] == ':' && v[|y|] == ':';
      assert |x| == |y|;
      assert u[..|x|] == x && v[..|y|] == y && u[|x| + 1..] == s && v[|y| + 1..] == t;
    }
  }

  ghost predicate Separable(paths: seq<string>) {
    forall p :: p in paths ==> ':' !in p && '|' !in p
  }

  lemma {:induction false} JoinColonIdentifies(a: seq<string>, b: seq<string>)
    requires a != [] && b != [] && Separable(a) && Separable(b)
    ensures JoinColon(a) == JoinColon(b) <==> a == b
  {
    assert a == [a[0]] + a[1..] && b == [b[0]] + b[1..];
    assert a[0] in a && b[0] in b;
    if |a| > 1 && |b| > 1 {
      JoinColonIdentifies(a[1..], b[1..]);
      FirstColon(a[0], JoinColon(a[1..]), b[0], JoinColon(b[1..]));
    } else if |a| > 1 {
      assert JoinColon(a)[|a[0]|] == ':';
      assert JoinColon(b) == b[0];
    } else if |b| > 1 {
      assert JoinColon(b)[|b[0]|] == ':';
      assert JoinColon(a) == a[0];
    }
  }

  lemma {:induction false} JoinColonBarFree(a: seq<string>)
    requires Separable(a)
    ensures '|' !in JoinColon(a)
  {
    if |a| > 1 {
      JoinColonBarFree(a[1..]);
    }
  }

  lemma SortedTwice(paths: seq<string>)
    ensures Sort(Sort(paths, LexLe), LexLe) == Sort(paths, LexLe)
  {
    LexPreorder();
    SortElements(paths, LexLe);
    forall x, y | LexLe(x, y) && LexLe(y, x) ensures x == y {
      LexTotal(x, y);
    }
    SortForgetsOrder(Sort(paths, LexLe), paths, LexLe);
  }

  lemma OperationLabels(a: Operation, b: Operation)
    ensures a.Label() == b.Label() <==> a == b
    ensures '|' !in a.Label()
  {
    assert |"added"| == 5 && |"removed"| == 7 && |"version_changed"| == 15 && |"mixed"| == 5 && "added"[0] != "mixed"[0];
  }

  lemma NotEmpty(files: seq<Recognized>)
    requires files != []
    ensures SourcePaths(files) != []
  {
    SortElements(Paths(files), LexLe);
    MapAt(files, (r: Recognized) => r.path, 0);
  }

  lemma PathsIdentify(files: seq<Recognized>, others: seq<Recognized>)
    requires files != [] && others != [] && Separable(SourcePaths(files)) && Separable(SourcePaths(others))
    ensures JoinColon(SourcePaths(files)) == JoinColon(SourcePaths(others)) <==> SourcePaths(files) == SourcePaths(others)
    ensures '|' !in JoinColon(SourcePaths(files))
  {
    NotEmpty(files);
    NotEmpty(others);
    JoinColonIdentifies(SourcePaths(files), SourcePaths(others));
    JoinColonBarFree(SourcePaths(files));
  }

  lemma SixIdentify(m: string, n: string, a: string, b: string, c: string, d: string, w: string, x: string, y: string, z: string)
    requires '|' !in m && '|' !in n && '|' !in a && '|' !in b && '|' !in c && '|' !in d
    requires '|' !in w && '|' !in x && '|' !in y && '|' !in z
    ensures Digest([a, b, m, c, n, d]) == Digest([w, x, m, y, n, z]) <==> a == w && b == x && c == y && d == z
  {
    var p, q := [a, b, m, c, n, d], [w, x, m, y, n, z];
    DigestIdentifies(p, q);
    assert p == q <==> p[0] == q[0] && p[1] == q[1] && p[3] == q[3] && p[5] == q[5];
  }

  lemma FiveIdentify(m: string, a: string, b: string, c: string, d: string, w: string, x: string, y: string, z: string)
    requires '|' !in m && '|' !in a && '|' !in b && '|' !in c && '|' !in d && '|' !in w && '|' !in x && '|' !in y && '|' !in z
    ensures Digest([a, b, m, c, d]) == Digest([w, x, m, y, z]) <==> a == w && b == x && c == y && d == z
  {
    var p, q := [a, b, m, c, d], [w, x, m, y, z];
    DigestIdentifies(p, q);
    assert p == q <==> p[0] == q[0] && p[1] == q[1] && p[3] == q[3] && p[4] == q[4];
  }

  lemma ChangeIdOf(s: Source, e: Ecosystem, files: seq<Recognized>, op: Operation, known: map<string, Evidence>)
    ensures ChangeFor(s, e, files, op, known).id
         == Digest([s.repositoryKey, s.prKey, "dependency", op.Label(), "", JoinColon(SourcePaths(files))])
  {
    SortedTwice(Paths(files));
  }

  lemma OutcomeIdOf(s: Source, files: seq<Recognized>, reason: string, confidence: real, known: map<string, Evidence>)
    ensures OutcomeFor(s, files, reason, confidence, known).id
         == Digest([s.repositoryKey, s.prKey, "dependency", reason, JoinColon(SourcePaths(files))])
  {
    SortedTwice(Paths(files));
  }

  /** The id of a change identifies repository, pull request, operation and paths. */
  lemma ChangeIdIdentifies(s: Source, e: Ecosystem, files: seq<Recognized>, op: Operation, known: map<string, Evidence>,
                           t: Source, f: Ecosystem, others: seq<Recognized>, other: Operation, knownThere: map<string, Evidence>)
    requires BarFree(s) && BarFree(t) && files != [] && others != []
    requires Separable(SourcePaths(files)) && Separable(SourcePaths(others))
    ensures ChangeFor(s, e, files, op, known).id == ChangeFor(t, f, others, other, knownThere).id
            <==> s.repositoryKey == t.repositoryKey && s.prKey == t.prKey && op == other && SourcePaths(files) == SourcePaths(others)
  {
    ChangeIdOf(s, e, files, op, known);
    ChangeIdOf(t, f, others, other, knownThere);
    PathsIdentify(files, others);
    PathsIdentify(others, files);
    OperationLabels(op, other);
    OperationLabels(other, op);
    SixIdentify("dependency", "", s.repositoryKey, s.prKey, op.Label(), JoinColon(SourcePaths(files)),
                t.repositoryKey, t.prKey, other.Label(), JoinColon(SourcePaths(others)));
  }

  /** The id of an outcome identifies repository, pull request, reason and paths. */
  lemma OutcomeIdIdentifies(s: Source, files: seq<Recognized>, reason: string, confidence: real, known: map<string, Evidence>,
                            t: Source, others: seq<Recognized>, other: string, otherConfidence: real, knownThere: map<string, Evidence>)
    requires BarFree(s) && BarFree(t) && files != [] && others != [] && '|' !in reason && '|' !in other
    requires Separable(SourcePaths(files)) && Separable(SourcePaths(others))
    ensures OutcomeFor(s, files, reason, confidence, known).id == OutcomeFor(t, others, other, otherConfidence, knownThere).id
            <==> s.repositoryKey == t.repositoryKey && s.prKey == t.prKey && reason == other && SourcePaths(files) == SourcePaths(others)
  {
    OutcomeIdOf(s, files, reason, confidence, known);
    OutcomeIdOf(t, others, other, otherConfidence, knownThere);
    PathsIdentify(files, others);
    PathsIdentify(others, files);
    FiveIdentify("dependency", s.repositoryKey, s.prKey, reason, JoinColon(SourcePaths(files)),
                 t.repositoryKey, t.prKey, other, JoinColon(SourcePaths(others)));
  }
}
