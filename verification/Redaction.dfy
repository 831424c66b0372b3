/** Default-deny metadata redaction (observability/redaction.py): a recursive filter over
    nested mappings and sequences that leaves a diagnostic for everything it drops. */
module Redaction {
  import opened Prelude
  import opened Text
  import Numbering

  // ------------------------------------------------------------------ key predicates

  const FORBIDDEN_KEY_TOKENS := [
    "diff", "patch", "prompt", "draft", "body", "comment", "context", "snippet", "code", "source",
    "secret", "password", "credential", "api_key", "apikey", "private_key", "access_token", "token",
    "auth", "email", "phone", "ssn", "personal", "pii", "response", "completion", "content",
    "message", "text", "rationale"]

  const SAFE_KEY_SUFFIXES := [
    "_id", "_count", "_ms", "_seconds", "_role", "_class", "_type", "_status", "_version", "_rate",
    "_days", "_total", "_hits", "_misses", "_score", "_tokens"]

  const SAFE_KEY_EXACT := [
    "repository", "repository_key", "outcome", "status", "stage", "reason", "reason_code", "count",
    "found", "name"]

  const MAX_STRING_LENGTH := 512

  predicate KeyIsSafeShape(key: string) {
    LowerText(key) in SAFE_KEY_EXACT || exists suffix :: suffix in SAFE_KEY_SUFFIXES && EndsWith(LowerText(key), suffix)
  }

  predicate KeyIsForbidden(key: string) {
    !KeyIsSafeShape(key) && exists token :: token in FORBIDDEN_KEY_TOKENS && Contains(LowerText(key), token)
  }

  // ------------------------------------------------------------------ values

  datatype Entry = Entry(key: string, value: Value)

  /** A metadata value. `Bytes` is a sequence of numbers; `Opaque` is anything that is
      neither a scalar, a mapping nor a sequence. */
  datatype Value =
    | Null
    | Bool(flag: bool)
    | Int(number: int)
    | Float(amount: real)
    | Str(text: string)
    | Bytes(bytes: seq<nat>)
    | Mapping(entries: seq<Entry>)
    | Items(items: seq<Value>)
    | Opaque

  datatype Reason = ForbiddenKey | OversizedValue | UnsupportedType | RawExportDeniedSensitive

  datatype Diagnostic = Diagnostic(path: string, key: string, reason: Reason)

  function JoinPath(prefix: string, key: string): string {
    if prefix == "" then key else prefix + "." + key
  }

  function ItemPath(path: string, index: nat): string {
    path + "[" + Numbering.Decimal(index) + "]"
  }

  /** Assignment in an insertion-ordered dictionary. */
  function SetKey(entries: seq<Entry>, key: string, value: Value): seq<Entry> {
    if entries == [] then [Entry(key, value)]
    else if entries[0].key == key then [Entry(key, value)] + entries[1..]
    else [entries[0]] + SetKey(entries[1..], key, value)
  }

  function Numbers(bytes: seq<nat>): seq<Value> {
    if bytes == [] then [] else Numbers(bytes[..|bytes| - 1]) + [Int(bytes[|bytes| - 1])]
  }

  /** Why a string under `key` is dropped, if it is. */
  function StringVerdict(key: string, text: string, raw: bool): Option<Reason> {
    if KeyIsForbidden(key) && !raw then Some(ForbiddenKey)
    else if |text| > MAX_STRING_LENGTH && !raw then Some(OversizedValue)
    else None
  }

  // ------------------------------------------------------------------ redaction

  /** `_redact_value`: what is kept, and the diagnostics in order. */
  function RedactValue(key: string, v: Value, path: string, raw: bool): (Option<Value>, seq<Diagnostic>)
    decreases v
  {
    match v
    case Str(text) =>
      (match StringVerdict(key, text, raw)
       case Some(reason) => (None, [Diagnostic(path, key, reason)])
       case None => (Some(v), []))
    case Mapping(entries) =>
      var (kept, found) := RedactEntries(entries, path, raw);
      (Some(Mapping(kept)), found)
    case Items(items) =>
      var (kept, found) := RedactItems(key, items, path, raw);
      (Some(Items(kept)), found)
    case Bytes(bytes) => (Some(Items(Numbers(bytes))), [])
    case Opaque => (None, [Diagnostic(path, key, UnsupportedType)])
    case _ => (Some(v), [])
  }

  /** `_redact_mapping`. */
  function RedactEntries(entries: seq<Entry>, prefix: string, raw: bool): (seq<Entry>, seq<Diagnostic>)
    decreases entries
  {
    if entries == [] then ([], [])
    else
      var n := |entries| - 1;
      var (kept, found) := RedactEntries(entries[..n], prefix, raw);
      var (v, more) := RedactValue(entries[n].key, entries[n].value, JoinPath(prefix, entries[n].key), raw);
      (if v.Some? then SetKey(kept, entries[n].key, v.value) else kept, found + more)
  }

  function RedactItems(key: string, items: seq<Value>, path: string, raw: bool): (seq<Value>, seq<Diagnostic>)
    decreases items
  {
    if items == [] then ([], [])
    else
      var n := |items| - 1;
      var (kept, found) := RedactItems(key, items[..n], path, raw);
      var (v, more) := RedactValue(key, items[n], ItemPath(path, n), raw);
      (if v.Some? then kept + [v.value] else kept, found + more)
  }

  /** The list that collects the diagnostics. */
  class Sink {
    var found: seq<Diagnostic>

    constructor ()
      ensures found == []
    {
      found := [];
    }
  }

  method RedactOne(key: string, v: Value, path: string, raw: bool, sink: Sink) returns (kept: Option<Value>)
    modifies sink
    ensures kept == RedactValue(key, v, path, raw).0
    ensures sink.found == old(sink.found) + RedactValue(key, v, path, raw).1
    decreases v
  {
    match v
    case Str(text) =>
      var verdict := StringVerdict(key, text, raw);
      if verdict.Some? {
        sink.found := sink.found + [Diagnostic(path, key, verdict.value)];
        return None;
      }
      return Some(v);
    case Mapping(entries) =>
      var safe := RedactMapping(entries, path, raw, sink);
      return Some(Mapping(safe));
    case Items(items) =>
      var out := [];
      for i := 0 to |items|
        invariant out == RedactItems(key, items[..i], path, raw).0
        invariant sink.found == old(sink.found) + RedactItems(key, items[..i], path, raw).1
      {
        var item := RedactOne(key, items[i], ItemPath(path, i), raw, sink);
        assert items[..i + 1][..i] == items[..i];
        if item.Some? {
          out := out + [item.value];
        }
      }
      assert items[..|items|] == items;
      return Some(Items(out));
    case Bytes(bytes) =>
      var out := [];
      for i := 0 to |bytes|
        invariant out == Numbers(bytes[..i])
      {
        assert bytes[..i + 1][..i] == bytes[..i];
        out := out + [Int(bytes[i])];
      }
      assert bytes[..|bytes|] == bytes;
      return Some(Items(out));
    case Opaque =>
      sink.found := sink.found + [Diagnostic(path, key, UnsupportedType)];
      return None;
    case _ =>
      return Some(v);
  }

  method RedactMapping(entries: seq<Entry>, prefix: string, raw: bool, sink: Sink) returns (safe: seq<Entry>)
    modifies sink
    ensures safe == RedactEntries(entries, prefix, raw).0
    ensures sink.found == old(sink.found) + RedactEntries(entries, prefix, raw).1
    decreases entries
  {
    safe := [];
    for i := 0 to |entries|
      invariant safe == RedactEntries(entries[..i], prefix, raw).0
      invariant sink.found == old(sink.found) + RedactEntries(entries[..i], prefix, raw).1
    {
      var kept := RedactOne(entries[i].key, entries[i].value, JoinPath(prefix, entries[i].key), raw, sink);
      assert entries[..i + 1][..i] == entries[..i];
      if kept.Some? {
        safe := SetKey(safe, entries[i].key, kept.value);
      }
    }
    assert entries[..|entries|] == entries;
  }

  // ------------------------------------------------------------------ the policy

  datatype RedactionResult = RedactionResult(safe: seq<Entry>, redactions: seq<Diagnostic>, rawExportAllowed: bool)

  function DeniedEntry(e: Entry): bool {
    e.value.Str? && KeyIsForbidden(e.key)
  }

  function DenialOf(e: Entry): Diagnostic {
    Diagnostic(e.key, e.key, RawExportDeniedSensitive)
  }

  /** `_diff_forbidden`: one report for every top-level string under a forbidden key. */
  function Denials(metadata: seq<Entry>): seq<Diagnostic> {
    Map(Filter(metadata, DeniedEntry), DenialOf)
  }

  lemma DenialsAppend(metadata: seq<Entry>, e: Entry)
    ensures Denials(metadata + [e]) == Denials(metadata) + if DeniedEntry(e) then [DenialOf(e)] else []
  {
    FilterAppend(metadata, [e], DeniedEntry);
    MapAppend(Filter(metadata, DeniedEntry), Filter([e], DeniedEntry), DenialOf);
  }

  method DiffForbidden(metadata: seq<Entry>) returns (denied: seq<Diagnostic>)
    ensures denied == Denials(metadata)
  {
    denied := [];
    for i := 0 to |metadata|
      invariant denied == Denials(metadata[..i])
    {
      assert metadata[..i + 1] == metadata[..i] + [metadata[i]];
      DenialsAppend(metadata[..i], metadata[i]);
      if DeniedEntry(metadata[i]) {
        denied := denied + [DenialOf(metadata[i])];
      }
    }
    assert metadata[..|metadata|] == metadata;
  }

  /** `redact_metadata`: raw export needs the debug flag and a repository not marked sensitive;
      a refused raw export is reported for every top-level forbidden string. */
  function RedactMetadata(metadata: seq<Entry>, rawDebug: bool, sensitive: bool): RedactionResult {
    var raw := rawDebug && !sensitive;
    var (safe, found) := RedactEntries(metadata, "", raw);
    RedactionResult(safe, found + (if rawDebug && sensitive then Denials(metadata) else []), raw)
  }

  method ApplyPolicy(metadata: seq<Entry>, rawDebug: bool, sensitive: bool) returns (r: RedactionResult)
    ensures r == RedactMetadata(metadata, rawDebug, sensitive)
  {
    var raw := rawDebug && !sensitive;
    var sink := new Sink();
    var safe := RedactMapping(metadata, "", raw, sink);
    var redactions := sink.found;
    assert redactions + [] == redactions == RedactEntries(metadata, "", raw).1;
    if rawDebug && sensitive {
      var denied := DiffForbidden(metadata);
      redactions := redactions + denied;
    }
    r := RedactionResult(safe, redactions, raw);
  }
}
