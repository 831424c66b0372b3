/** Recognition of dependency manifests and lockfiles among changed files, and the evidence
    records built from them (core/dependency_evidence.py, core/structural_change.py). */
module DependencyEvidence {
  import opened Prelude
  import opened Text
  import opened Hashing
  import opened Sorting
  import Numbering

  datatype Ecosystem = Python | Npm | Go | Rust | Jvm | Ruby | Dotnet {
    function Label(): string {
      match this
      case Python => "python"
      case Npm => "npm"
      case Go => "go"
      case Rust => "rust"
      case Jvm => "jvm"
      case Ruby => "ruby"
      case Dotnet => "dotnet"
    }
  }

  datatype Kind = Manifest | Lockfile {
    function Label(): string {
      match this
      case Manifest => "dependency_manifest"
      case Lockfile => "dependency_lockfile"
    }
  }

  datatype FileMatch = FileMatch(ecosystem: Ecosystem, kind: Kind)

  const MANIFESTS: map<string, Ecosystem> := map[
    "pyproject.toml" := Python, "setup.py" := Python, "setup.cfg" := Python, "Pipfile" := Python,
    "package.json" := Npm, "go.mod" := Go, "Cargo.toml" := Rust,
    "pom.xml" := Jvm, "build.gradle" := Jvm, "build.gradle.kts" := Jvm, "Gemfile" := Ruby]

  const LOCKFILES: map<string, Ecosystem> := map[
    "poetry.lock" := Python, "uv.lock" := Python, "Pipfile.lock" := Python,
    "package-lock.json" := Npm, "pnpm-lock.yaml" := Npm, "yarn.lock" := Npm,
    "go.sum" := Go, "Cargo.lock" := Rust, "gradle.lockfile" := Jvm, "Gemfile.lock" := Ruby,
    "packages.lock.json" := Dotnet]

  function Slash(c: char): char {
    if c == '\\' then '/' else c
  }

  function MatchName(name: string): Option<FileMatch> {
    if name in MANIFESTS then Some(FileMatch(MANIFESTS[name], Manifest))
    else if name in LOCKFILES then Some(FileMatch(LOCKFILES[name], Lockfile))
    else if StartsWith(name, "requirements") && EndsWith(name, ".txt") then Some(FileMatch(Python, Manifest))
    else if EndsWith(name, ".csproj") then Some(FileMatch(Dotnet, Manifest))
    else None
  }

  /** `_basename`. */
  function LastComponent(path: string): string {
    Basename(Map(path, Slash))
  }

  /** `match_dependency_file`: by the last component of the path, either separator. */
  function MatchFile(path: string): Option<FileMatch> {
    MatchName(LastComponent(path))
  }

  lemma NameBehind(head: string, name: string)
    requires '/' !in name && (head == "" || head[|head| - 1] == '/')
    ensures Basename(head + name) == name
  {
    Numbering.NameStartAt(head, name);
  }

  lemma LastComponentOf(directory: string, separator: char, name: string)
    requires separator == '/' || separator == '\\'
    requires '/' !in name && '\\' !in name
    ensures LastComponent(directory + [separator] + name) == name == LastComponent(name)
  {
    MapMiddle(directory, separator, name, Slash);
    NameBehind(Map(directory, Slash) + ['/'], name);
    PlainName(name);
    NameBehind("", name);
    assert "" + name == name;
  }

  /** Only the last component counts: a nested path matches like the bare name, under either
      separator. */
  lemma NestedPathsMatch(directory: string, separator: char, name: string)
    requires separator == '/' || separator == '\\'
    requires '/' !in name && '\\' !in name
    ensures MatchFile(directory + [separator] + name) == MatchFile(name)
  {
    LastComponentOf(directory, separator, name);
  }

  lemma {:induction false} PlainName(name: string)
    requires '\\' !in name
    ensures Map(name, Slash) == name
  {
    if name != "" {
      PlainName(name[1..]);
      assert name == [name[0]] + name[1..];
    }
  }

  datatype Observed = Added | Removed | VersionChanged | LockfileChurn | Unknown

  datatype ChangedFile = ChangedFile(filename: string, status: string, additions: int, deletions: int)

  /** `infer_observed_operation`. */
  function InferOperation(m: FileMatch, f: ChangedFile): Observed {
    var status := LowerText(f.status);
    if m.kind.Lockfile? then LockfileChurn
    else if status == "added" then Added
    else if status == "removed" || status == "deleted" then Removed
    else if f.additions > 0 && f.deletions == 0 then Added
    else if f.deletions > 0 && f.additions == 0 then Removed
    else if f.additions > 0 && f.deletions > 0 then VersionChanged
    else Unknown
  }

  datatype Recognized = Recognized(path: string, found: FileMatch, observed: Observed, additions: int, deletions: int)

  function RecognizeOne(f: ChangedFile): Option<Recognized> {
    match MatchFile(f.filename)
    case None => None
    case Some(m) => Some(Recognized(f.filename, m, InferOperation(m, f), f.additions, f.deletions))
  }

  function Collect(files: seq<ChangedFile>): seq<Recognized> {
    if files == [] then []
    else
      var n := |files| - 1;
      Collect(files[..n]) + match RecognizeOne(files[n]) case Some(r) => [r] case None => []
  }

  predicate PathLe(a: Recognized, b: Recognized) {
    LexLe(a.path, b.path)
  }

  /** `recognize_dependency_files`. */
  function Recognize(files: seq<ChangedFile>): seq<Recognized> {
    Sort(Collect(files), PathLe)
  }

  method RecognizeFiles(files: seq<ChangedFile>) returns (recognized: seq<Recognized>)
    ensures recognized == Recognize(files)
  {
    recognized := [];
    for i := 0 to |files|
      invariant recognized == Collect(files[..i])
    {
      assert files[..i + 1][..i] == files[..i];
      var found := MatchFile(files[i].filename);
      if found.Some? {
        recognized := recognized + [Recognized(files[i].filename, found.value, InferOperation(found.value, files[i]),
                                               files[i].additions, files[i].deletions)];
      }
    }
    assert files[..|files|] == files;
    recognized := Sort(recognized, PathLe);
  }

  // ------------------------------------------------------------------ the input's order

  lemma PathPreorder()
    ensures TotalPreorder(PathLe)
  {
    forall a, b, c | PathLe(a, b) && PathLe(b, c) ensures PathLe(a, c) {
      LexTransitive(a.path, b.path, c.path);
    }
    forall a, b ensures PathLe(a, b) || PathLe(b, a) {
      LexTotal(a.path, b.path);
    }
  }

  lemma {:induction false} CollectAppend(a: seq<ChangedFile>, b: seq<ChangedFile>)
    ensures Collect(a + b) == Collect(a) + Collect(b)
  {
    if b == [] {
      assert a + b == a;
    } else {
      var n := |b| - 1;
      assert (a + b)[..|a + b| - 1] == a + b[..n];
      CollectAppend(a, b[..n]);
    }
  }

  lemma {:induction false} CollectElements(a: seq<ChangedFile>, b: seq<ChangedFile>)
    requires multiset(a) == multiset(b)
    ensures multiset(Collect(a)) == multiset(Collect(b))
  {
    if a == [] {
      NothingLeft(b);
    } else {
      var i := TakeOut(a, b);
      CollectElements(a[1..], b[..i] + b[i + 1..]);
      CollectAppend(b[..i], b[i + 1..]);
      CollectAppend(b[..i], [b[i]] + b[i + 1..]);
      CollectAppend([b[i]], b[i + 1..]);
      CollectAppend([a[0]], a[1..]);
    }
  }

  lemma {:induction false} CollectSource(files: seq<ChangedFile>, r: Recognized) returns (f: ChangedFile)
    requires r in Collect(files)
    ensures f in files && RecognizeOne(f) == Some(r) && f.filename == r.path
  {
    var n := |files| - 1;
    if r in Collect(files[..n]) {
      f := CollectSource(files[..n], r);
    } else {
      f := files[n];
    }
  }

  ghost predicate DistinctNames(files: seq<ChangedFile>) {
    forall f, g :: f in files && g in files && f.filename == g.filename ==> f == g
  }

  /** With distinct names the recognised files do not depend on the order of the changes. */
  lemma RecognizeForgetsOrder(a: seq<ChangedFile>, b: seq<ChangedFile>)
    requires multiset(a) == multiset(b) && DistinctNames(a)
    ensures Recognize(a) == Recognize(b)
  {
    CollectElements(a, b);
    PathPreorder();
    forall x, y | x in Collect(a) && y in Collect(a) && PathLe(x, y) && PathLe(y, x) ensures x == y {
      var f := CollectSource(a, x);
      var g := CollectSource(a, y);
      LexTotal(x.path, y.path);
    }
    SortForgetsOrder(Collect(a), Collect(b), PathLe);
  }

  // ------------------------------------------------------------------ evidence

  /** The parts of the candidate evidence that the records quote. */
  datatype Source = Source(repositoryKey: string, deliveryId: string, prKey: string, diffHandle: string)

  datatype Candidate = Candidate(source: Source, files: seq<ChangedFile>)

  datatype Evidence = Evidence(
    id: string,
    kind: Kind,
    path: string,
    hunkRef: string,
    observed: Observed,
    immutableHash: string)

  /** `_digest`; an absent part counts as empty. */
  function Digest(parts: seq<string>): string {
    Sha256(Join(parts))
  }

  function EvidenceId(c: Source, path: string, kind: Kind): string {
    Digest([c.repositoryKey, c.prKey, path, kind.Label()])
  }

  function EvidenceFor(c: Source, r: Recognized): Evidence {
    Evidence(
      EvidenceId(c, r.path, r.found.kind), r.found.kind, r.path, c.diffHandle + "#" + r.path, r.observed,
      Digest([c.repositoryKey, c.prKey, r.path, r.found.kind.Label(), "", ""]))
  }

  function EvidenceOf(c: Source, recognized: seq<Recognized>): seq<Evidence> {
    if recognized == [] then []
    else EvidenceOf(c, recognized[..|recognized| - 1]) + [EvidenceFor(c, recognized[|recognized| - 1])]
  }

  method BuildEvidence(c: Candidate) returns (evidence: seq<Evidence>)
    ensures evidence == EvidenceOf(c.source, Recognize(c.files))
  {
    var recognized := RecognizeFiles(c.files);
    evidence := [];
    for i := 0 to |recognized|
      invariant evidence == EvidenceOf(c.source, recognized[..i])
    {
      assert recognized[..i + 1][..i] == recognized[..i];
      evidence := evidence + [EvidenceFor(c.source, recognized[i])];
    }
    assert recognized[..|recognized|] == recognized;
  }
}
