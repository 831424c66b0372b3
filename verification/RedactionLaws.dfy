/** What redaction keeps and reports, at any depth: an independent list of a tree's leaves, and
    redaction as a filter on that list. */
module RedactionLaws {
  import opened Prelude
  import opened Redaction
  import Numbering

  // ------------------------------------------------------------------ leaves

  /** A leaf with the chain of mapping keys around it. */
  datatype Leaf = Leaf(keys: seq<string>, value: Value)

  function Nearest(keys: seq<string>): string {
    if keys == [] then "" else keys[|keys| - 1]
  }

  /** The leaves of a tree in traversal order. */
  function Leaves(keys: seq<string>, v: Value): seq<Leaf>
    decreases v
  {
    match v
    case Mapping(entries) => EntryLeaves(keys, entries)
    case Items(items) => ItemLeaves(keys, items)
    case Bytes(bytes) => ByteLeaves(keys, bytes)
    case _ => [Leaf(keys, v)]
  }

  function EntryLeaves(keys: seq<string>, entries: seq<Entry>): seq<Leaf>
    decreases entries
  {
    if entries == [] then []
    else
      var n := |entries| - 1;
      EntryLeaves(keys, entries[..n]) + Leaves(keys + [entries[n].key], entries[n].value)
  }

  function ItemLeaves(keys: seq<string>, items: seq<Value>): seq<Leaf>
    decreases items
  {
    if items == [] then []
    else ItemLeaves(keys, items[..|items| - 1]) + Leaves(keys, items[|items| - 1])
  }

  function ByteLeaves(keys: seq<string>, bytes: seq<nat>): seq<Leaf> {
    if bytes == [] then [] else ByteLeaves(keys, bytes[..|bytes| - 1]) + [Leaf(keys, Int(bytes[|bytes| - 1]))]
  }

  /** A string survives when its nearest key is not forbidden and it is not oversized, or raw
      export is on; numbers, flags and nulls always do, other objects never. */
  predicate Survives(leaf: Leaf, raw: bool) {
    match leaf.value
    case Str(text) => raw || (!KeyIsForbidden(Nearest(leaf.keys)) && |text| <= 512)
    case Opaque => false
    case _ => true
  }

  function Surviving(raw: bool): Leaf -> bool {
    (leaf: Leaf) => Survives(leaf, raw)
  }

  /** No mapping repeats a key. */
  predicate DistinctKeys(v: Value)
    decreases v
  {
    match v
    case Mapping(entries) => DistinctEntries(entries)
    case Items(items) => forall i :: 0 <= i < |items| ==> DistinctKeys(items[i])
    case _ => true
  }

  predicate HasKey(entries: seq<Entry>, key: string) {
    exists i :: 0 <= i < |entries| && entries[i].key == key
  }

  predicate DistinctEntries(entries: seq<Entry>)
    decreases entries
  {
    entries == [] ||
    (var n := |entries| - 1;
     DistinctEntries(entries[..n]) && !HasKey(entries[..n], entries[n].key) && DistinctKeys(entries[n].value))
  }

  lemma {:induction false} SetKeyFresh(entries: seq<Entry>, key: string, v: Value)
    requires !HasKey(entries, key)
    ensures SetKey(entries, key, v) == entries + [Entry(key, v)]
  {
    if entries != [] {
      assert entries[0].key != key;
      forall i | 0 <= i < |entries[1..]| ensures entries[1..][i].key != key {
        assert entries[1..][i] == entries[i + 1];
      }
      SetKeyFresh(entries[1..], key, v);
      assert entries == [entries[0]] + entries[1..];
    }
  }

  lemma {:induction false} SetKeyKeys(entries: seq<Entry>, key: string, v: Value, k: string)
    ensures HasKey(SetKey(entries, key, v), k) <==> HasKey(entries, k) || k == key
  {
    if entries == [] {
      assert SetKey(entries, key, v)[0].key == key;
    } else if entries[0].key == key {
      var out := SetKey(entries, key, v);
      assert out[0].key == key;
      assert forall i :: 0 <= i < |out| ==> out[i].key == entries[i].key;
    } else {
      var tail := SetKey(entries[1..], key, v);
      SetKeyKeys(entries[1..], key, v, k);
      HasKeySplit(entries[0], entries[1..], k);
      HasKeySplit(entries[0], tail, k);
      assert entries == [entries[0]] + entries[1..];
    }
  }

  lemma HasKeySplit(e: Entry, rest: seq<Entry>, k: string)
    ensures HasKey([e] + rest, k) <==> e.key == k || HasKey(rest, k)
  {
    assert ([e] + rest)[0] == e;
    if HasKey(rest, k) {
      var i :| 0 <= i < |rest| && rest[i].key == k;
      assert ([e] + rest)[i + 1] == rest[i];
    }
  }

  /** Redaction invents no keys. */
  lemma {:induction false} KeptKeys(entries: seq<Entry>, prefix: string, raw: bool, k: string)
    ensures HasKey(RedactEntries(entries, prefix, raw).0, k) ==> HasKey(entries, k)
  {
    if entries != [] {
      var n := |entries| - 1;
      var kept := RedactEntries(entries[..n], prefix, raw).0;
      var v := RedactValue(entries[n].key, entries[n].value, JoinPath(prefix, entries[n].key), raw).0;
      KeptKeys(entries[..n], prefix, raw, k);
      if v.Some? {
        SetKeyKeys(kept, entries[n].key, v.value, k);
      }
      if HasKey(entries[..n], k) {
        var i :| 0 <= i < n && entries[..n][i].key == k;
        assert entries[i].key == k;
      }
    }
  }

  // ------------------------------------------------------------------ what survives

  function KeptLeaves(keys: seq<string>, kept: Option<Value>): seq<Leaf> {
    if kept.Some? then Leaves(keys, kept.value) else []
  }

  lemma {:induction false} NumbersLeaves(keys: seq<string>, bytes: seq<nat>, raw: bool)
    ensures |Numbers(bytes)| == |bytes|
    ensures ItemLeaves(keys, Numbers(bytes)) == ByteLeaves(keys, bytes)
    ensures Filter(ByteLeaves(keys, bytes), Surviving(raw)) == ByteLeaves(keys, bytes)
  {
    if bytes != [] {
      var n := |bytes| - 1;
      NumbersLeaves(keys, bytes[..n], raw);
      assert Numbers(bytes)[..n] == Numbers(bytes[..n]);
      FilterAppend(ByteLeaves(keys, bytes[..n]), [Leaf(keys, Int(bytes[n]))], Surviving(raw));
    }
  }

  /** The leaves of the redacted tree are exactly the surviving leaves of the tree, in order,
      each under the same chain of keys. */
  lemma {:induction false} Survivors(keys: seq<string>, v: Value, path: string, raw: bool)
    requires DistinctKeys(v)
    ensures KeptLeaves(keys, RedactValue(Nearest(keys), v, path, raw).0) == Filter(Leaves(keys, v), Surviving(raw))
    decreases v
  {
    match v
    case Mapping(entries) => EntrySurvivors(keys, entries, path, raw);
    case Items(items) => ItemSurvivors(keys, items, path, raw);
    case Bytes(bytes) => NumbersLeaves(keys, bytes, raw);
    case _ => LeafSurvives(keys, v, path, raw);
  }

  lemma LeafSurvives(keys: seq<string>, v: Value, path: string, raw: bool)
    requires !v.Mapping? && !v.Items? && !v.Bytes?
    ensures KeptLeaves(keys, RedactValue(Nearest(keys), v, path, raw).0) == Filter([Leaf(keys, v)], Surviving(raw))
  {
    FilterOne(Leaf(keys, v), Surviving(raw));
  }

  lemma {:induction false} EntrySurvivors(keys: seq<string>, entries: seq<Entry>, prefix: string, raw: bool)
    requires DistinctEntries(entries)
    ensures EntryLeaves(keys, RedactEntries(entries, prefix, raw).0) == Filter(EntryLeaves(keys, entries), Surviving(raw))
    decreases entries
  {
    if entries != [] {
      var n := |entries| - 1;
      var e := entries[n];
      var kept := RedactEntries(entries[..n], prefix, raw).0;
      var v := RedactValue(e.key, e.value, JoinPath(prefix, e.key), raw).0;
      EntrySurvivors(keys, entries[..n], prefix, raw);
      Survivors(keys + [e.key], e.value, JoinPath(prefix, e.key), raw);
      FilterAppend(EntryLeaves(keys, entries[..n]), Leaves(keys + [e.key], e.value), Surviving(raw));
      if v.Some? {
        KeptKeys(entries[..n], prefix, raw, e.key);
        SetKeyFresh(kept, e.key, v.value);
        assert (kept + [Entry(e.key, v.value)])[..|kept|] == kept;
      }
    }
  }

  lemma {:induction false} ItemSurvivors(keys: seq<string>, items: seq<Value>, path: string, raw: bool)
    requires forall i :: 0 <= i < |items| ==> DistinctKeys(items[i])
    ensures ItemLeaves(keys, RedactItems(Nearest(keys), items, path, raw).0) == Filter(ItemLeaves(keys, items), Surviving(raw))
    decreases items
  {
    if items != [] {
      var n := |items| - 1;
      var kept := RedactItems(Nearest(keys), items[..n], path, raw).0;
      var v := RedactValue(Nearest(keys), items[n], ItemPath(path, n), raw).0;
      ItemSurvivors(keys, items[..n], path, raw);
      Survivors(keys, items[n], ItemPath(path, n), raw);
      FilterAppend(ItemLeaves(keys, items[..n]), Leaves(keys, items[n]), Surviving(raw));
      if v.Some? {
        assert (kept + [v.value])[..|kept|] == kept;
      }
    }
  }

  // ------------------------------------------------------------------ what is reported

  /** A leaf with the path a diagnostic would name. */
  datatype Spot = Spot(path: string, leaf: Leaf)

  function Spots(keys: seq<string>, v: Value, path: string): seq<Spot>
    decreases v
  {
    match v
    case Mapping(entries) => EntrySpots(keys, entries, path)
    case Items(items) => ItemSpots(keys, items, path)
    case Bytes(bytes) => ByteSpots(keys, bytes, path)
    case _ => [Spot(path, Leaf(keys, v))]
  }

  /** Keys are joined with dots. */
  function EntrySpots(keys: seq<string>, entries: seq<Entry>, prefix: string): seq<Spot>
    decreases entries
  {
    if entries == [] then []
    else
      var n := |entries| - 1;
      EntrySpots(keys, entries[..n], prefix)
      + Spots(keys + [entries[n].key], entries[n].value, if prefix == "" then entries[n].key else prefix + "." + entries[n].key)
  }

  /** Positions in lists stand in brackets. */
  function ItemSpots(keys: seq<string>, items: seq<Value>, path: string): seq<Spot>
    decreases items
  {
    if items == [] then []
    else
      var n := |items| - 1;
      ItemSpots(keys, items[..n], path) + Spots(keys, items[n], path + "[" + Numbering.Decimal(n) + "]")
  }

  function ByteSpots(keys: seq<string>, bytes: seq<nat>, path: string): seq<Spot> {
    if bytes == [] then []
    else
      var n := |bytes| - 1;
      ByteSpots(keys, bytes[..n], path) + [Spot(path + "[" + Numbering.Decimal(n) + "]", Leaf(keys, Int(bytes[n])))]
  }

  function LeafOf(s: Spot): Leaf {
    s.leaf
  }

  /** The spots are the leaves, with paths. */
  lemma {:induction false} SpotsAreLeaves(keys: seq<string>, v: Value, path: string)
    ensures Map(Spots(keys, v, path), LeafOf) == Leaves(keys, v)
    decreases v
  {
    match v
    case Mapping(entries) => EntrySpotsAreLeaves(keys, entries, path);
    case Items(items) => ItemSpotsAreLeaves(keys, items, path);
    case Bytes(bytes) => ByteSpotsAreLeaves(keys, bytes, path);
    case _ =>
  }

  lemma {:induction false} EntrySpotsAreLeaves(keys: seq<string>, entries: seq<Entry>, prefix: string)
    ensures Map(EntrySpots(keys, entries, prefix), LeafOf) == EntryLeaves(keys, entries)
    decreases entries
  {
    if entries != [] {
      var n := |entries| - 1;
      var e := entries[n];
      EntrySpotsAreLeaves(keys, entries[..n], prefix);
      SpotsAreLeaves(keys + [e.key], e.value, JoinPath(prefix, e.key));
      MapAppend(EntrySpots(keys, entries[..n], prefix), Spots(keys + [e.key], e.value, JoinPath(prefix, e.key)), LeafOf);
    }
  }

  lemma {:induction false} ItemSpotsAreLeaves(keys: seq<string>, items: seq<Value>, path: string)
    ensures Map(ItemSpots(keys, items, path), LeafOf) == ItemLeaves(keys, items)
    decreases items
  {
    if items != [] {
      var n := |items| - 1;
      ItemSpotsAreLeaves(keys, items[..n], path);
      SpotsAreLeaves(keys, items[n], ItemPath(path, n));
      MapAppend(ItemSpots(keys, items[..n], path), Spots(keys, items[n], ItemPath(path, n)), LeafOf);
    }
  }

  lemma {:induction false} ByteSpotsAreLeaves(keys: seq<string>, bytes: seq<nat>, path: string)
    ensures Map(ByteSpots(keys, bytes, path), LeafOf) == ByteLeaves(keys, bytes)
  {
    if bytes != [] {
      var n := |bytes| - 1;
      ByteSpotsAreLeaves(keys, bytes[..n], path);
      MapAppend(ByteSpots(keys, bytes[..n], path), [Spot(ItemPath(path, n), Leaf(keys, Int(bytes[n])))], LeafOf);
    }
  }

  function Dropping(raw: bool): Spot -> bool {
    (s: Spot) => !Survives(s.leaf, raw)
  }

  /** The one diagnostic of a dropped leaf. */
  function Report(s: Spot): Diagnostic {
    var key := Nearest(s.leaf.keys);
    Diagnostic(s.path, key,
               if s.leaf.value.Opaque? then UnsupportedType
               else if KeyIsForbidden(key) then ForbiddenKey
               else OversizedValue)
  }

  function Reports(spots: seq<Spot>, raw: bool): seq<Diagnostic> {
    Map(Filter(spots, Dropping(raw)), Report)
  }

  lemma ReportsOne(s: Spot, raw: bool)
    ensures Reports([s], raw) == if Survives(s.leaf, raw) then [] else [Report(s)]
  {
    assert Filter([s], Dropping(raw)) == if Survives(s.leaf, raw) then [] else [s];
    assert Map([s], Report) == [Report(s)];
  }

  lemma ReportsAppend(s: seq<Spot>, t: seq<Spot>, raw: bool)
    ensures Reports(s + t, raw) == Reports(s, raw) + Reports(t, raw)
  {
    FilterAppend(s, t, Dropping(raw));
    MapAppend(Filter(s, Dropping(raw)), Filter(t, Dropping(raw)), Report);
  }

  /** Every dropped leaf gives exactly one diagnostic, in traversal order, and nothing else
      does; repeated keys included. */
  lemma {:induction false} Diagnosed(keys: seq<string>, v: Value, path: string, raw: bool)
    ensures RedactValue(Nearest(keys), v, path, raw).1 == Reports(Spots(keys, v, path), raw)
    decreases v
  {
    match v
    case Mapping(entries) => EntriesDiagnosed(keys, entries, path, raw);
    case Items(items) => ItemsDiagnosed(keys, items, path, raw);
    case Bytes(bytes) => BytesUnreported(keys, bytes, path, raw);
    case _ => ReportsOne(Spot(path, Leaf(keys, v)), raw);
  }

  lemma {:induction false} EntriesDiagnosed(keys: seq<string>, entries: seq<Entry>, prefix: string, raw: bool)
    ensures RedactEntries(entries, prefix, raw).1 == Reports(EntrySpots(keys, entries, prefix), raw)
    decreases entries
  {
    if entries != [] {
      var n := |entries| - 1;
      var e := entries[n];
      EntriesDiagnosed(keys, entries[..n], prefix, raw);
      Diagnosed(keys + [e.key], e.value, JoinPath(prefix, e.key), raw);
      ReportsAppend(EntrySpots(keys, entries[..n], prefix), Spots(keys + [e.key], e.value, JoinPath(prefix, e.key)), raw);
    }
  }

  lemma {:induction false} ItemsDiagnosed(keys: seq<string>, items: seq<Value>, path: string, raw: bool)
    ensures RedactItems(Nearest(keys), items, path, raw).1 == Reports(ItemSpots(keys, items, path), raw)
    decreases items
  {
    if items != [] {
      var n := |items| - 1;
      ItemsDiagnosed(keys, items[..n], path, raw);
      Diagnosed(keys, items[n], ItemPath(path, n), raw);
      ReportsAppend(ItemSpots(keys, items[..n], path), Spots(keys, items[n], ItemPath(path, n)), raw);
    }
  }

  lemma {:induction false} BytesUnreported(keys: seq<string>, bytes: seq<nat>, path: string, raw: bool)
    ensures Reports(ByteSpots(keys, bytes, path), raw) == []
  {
    if bytes != [] {
      var n := |bytes| - 1;
      BytesUnreported(keys, bytes[..n], path, raw);
      ReportsOne(Spot(ItemPath(path, n), Leaf(keys, Int(bytes[n]))), raw);
      ReportsAppend(ByteSpots(keys, bytes[..n], path), [Spot(ItemPath(path, n), Leaf(keys, Int(bytes[n])))], raw);
    }
  }

  // ------------------------------------------------------------------ a second pass

  /** Nothing left to drop or to convert. */
  predicate Clean(key: string, v: Value, raw: bool)
    decreases v
  {
    match v
    case Str(text) => StringVerdict(key, text, raw).None?
    case Mapping(entries) => CleanEntries(entries, raw)
    case Items(items) => CleanItems(key, items, raw)
    case Bytes(_) => false
    case Opaque => false
    case _ => true
  }

  predicate CleanEntries(entries: seq<Entry>, raw: bool)
    decreases entries
  {
    && (forall i, j :: 0 <= i < j < |entries| ==> entries[i].key != entries[j].key)
    && (forall i :: 0 <= i < |entries| ==> Clean(entries[i].key, entries[i].value, raw))
  }

  predicate CleanItems(key: string, items: seq<Value>, raw: bool)
    decreases items
  {
    forall i :: 0 <= i < |items| ==> Clean(key, items[i], raw)
  }

  lemma {:induction false} SetKeyClean(entries: seq<Entry>, key: string, v: Value, raw: bool)
    requires CleanEntries(entries, raw) && Clean(key, v, raw)
    ensures CleanEntries(SetKey(entries, key, v), raw)
  {
    if entries != [] && entries[0].key != key {
      var rest := entries[1..];
      assert CleanEntries(rest, raw);
      SetKeyClean(rest, key, v, raw);
      var tail := SetKey(rest, key, v);
      SetKeyKeys(rest, key, v, entries[0].key);
      assert forall i :: 0 <= i < |tail| ==> tail[i].key != entries[0].key;
    }
  }

  lemma {:induction false} NumbersClean(key: string, bytes: seq<nat>, raw: bool)
    ensures CleanItems(key, Numbers(bytes), raw)
  {
    if bytes != [] {
      NumbersClean(key, bytes[..|bytes| - 1], raw);
    }
  }

  lemma {:induction false} ResultIsClean(key: string, v: Value, path: string, raw: bool)
    ensures var kept := RedactValue(key, v, path, raw).0; kept.Some? ==> Clean(key, kept.value, raw)
    decreases v
  {
    match v
    case Mapping(entries) => EntriesAreClean(entries, path, raw);
    case Items(items) => ItemsAreClean(key, items, path, raw);
    case Bytes(bytes) => NumbersClean(key, bytes, raw);
    case _ =>
  }

  lemma {:induction false} EntriesAreClean(entries: seq<Entry>, prefix: string, raw: bool)
    ensures CleanEntries(RedactEntries(entries, prefix, raw).0, raw)
    decreases entries
  {
    if entries != [] {
      var n := |entries| - 1;
      var e := entries[n];
      EntriesAreClean(entries[..n], prefix, raw);
      ResultIsClean(e.key, e.value, JoinPath(prefix, e.key), raw);
      var v := RedactValue(e.key, e.value, JoinPath(prefix, e.key), raw).0;
      if v.Some? {
        SetKeyClean(RedactEntries(entries[..n], prefix, raw).0, e.key, v.value, raw);
      }
    }
  }

  lemma {:induction false} ItemsAreClean(key: string, items: seq<Value>, path: string, raw: bool)
    ensures CleanItems(key, RedactItems(key, items, path, raw).0, raw)
    decreases items
  {
    if items != [] {
      var n := |items| - 1;
      ItemsAreClean(key, items[..n], path, raw);
      ResultIsClean(key, items[n], ItemPath(path, n), raw);
    }
  }

  /** A clean value passes unchanged and unreported, wherever it stands. */
  lemma {:induction false} CleanPasses(key: string, v: Value, path: string, raw: bool)
    requires Clean(key, v, raw)
    ensures RedactValue(key, v, path, raw) == (Some(v), [])
    decreases v
  {
    match v
    case Mapping(entries) => CleanEntriesPass(entries, path, raw);
    case Items(items) => CleanItemsPass(key, items, path, raw);
    case _ =>
  }

  lemma EntriesStep(entries: seq<Entry>, prefix: string, raw: bool)
    requires entries != []
    ensures var n := |entries| - 1; var e := entries[n];
      var (kept, found) := RedactEntries(entries[..n], prefix, raw);
      var (v, more) := RedactValue(e.key, e.value, JoinPath(prefix, e.key), raw);
      RedactEntries(entries, prefix, raw) == (if v.Some? then SetKey(kept, e.key, v.value) else kept, found + more)
  {
  }

  lemma LastEntry(entries: seq<Entry>)
    requires entries != []
    ensures var e := entries[|entries| - 1]; entries[..|entries| - 1] + [Entry(e.key, e.value)] == entries
  {
  }

  lemma NoReports(none: seq<Diagnostic>)
    requires none == []
    ensures none + none == []
  {
  }

  lemma {:induction false} CleanEntriesPass(entries: seq<Entry>, prefix: string, raw: bool)
    requires CleanEntries(entries, raw)
    ensures RedactEntries(entries, prefix, raw) == (entries, [])
    decreases entries
  {
    if entries != [] {
      var n := |entries| - 1;
      var e := entries[n];
      CleanEntriesPass(entries[..n], prefix, raw);
      CleanPasses(e.key, e.value, JoinPath(prefix, e.key), raw);
      SetKeyFresh(entries[..n], e.key, e.value);
      EntriesStep(entries, prefix, raw);
      LastEntry(entries);
      NoReports([]);
    }
  }

  lemma {:induction false} CleanItemsPass(key: string, items: seq<Value>, path: string, raw: bool)
    requires CleanItems(key, items, raw)
    ensures RedactItems(key, items, path, raw) == (items, [])
    decreases items
  {
    if items != [] {
      var n := |items| - 1;
      CleanItemsPass(key, items[..n], path, raw);
      CleanPasses(key, items[n], ItemPath(path, n), raw);
      var none: seq<Diagnostic> := [];
      assert none + none == none;
      assert items == items[..n] + [items[n]];
    }
  }

  /** A second pass, under any prefix, changes nothing and reports nothing. */
  lemma RedactionIsIdempotent(metadata: seq<Entry>, prefix: string, again: string, raw: bool)
    ensures var safe := RedactEntries(metadata, prefix, raw).0;
      RedactEntries(safe, again, raw) == (safe, [])
  {
    EntriesAreClean(metadata, prefix, raw);
    CleanEntriesPass(RedactEntries(metadata, prefix, raw).0, again, raw);
  }

  // ------------------------------------------------------------------ containment

  /** `a` is `b` with some items and entries left out, at any depth. */
  predicate Within(a: Value, b: Value)
    decreases b
  {
    match b
    case Mapping(entries) => a.Mapping? && EntriesWithin(a.entries, entries)
    case Items(items) => a.Items? && ItemsWithin(a.items, items)
    case _ => a == b
  }

  predicate EntriesWithin(a: seq<Entry>, b: seq<Entry>)
    decreases b
  {
    if b == [] then a == []
    else
      var m, n := |a| - 1, |b| - 1;
      || EntriesWithin(a, b[..n])
      || (a != [] && a[m].key == b[n].key && Within(a[m].value, b[n].value) && EntriesWithin(a[..m], b[..n]))
  }

  predicate ItemsWithin(a: seq<Value>, b: seq<Value>)
    decreases b
  {
    if b == [] then a == []
    else
      var m, n := |a| - 1, |b| - 1;
      || ItemsWithin(a, b[..n])
      || (a != [] && Within(a[m], b[n]) && ItemsWithin(a[..m], b[..n]))
  }

  lemma {:induction false} WithinSelf(v: Value)
    ensures Within(v, v)
    decreases v
  {
    match v
    case Mapping(entries) => EntriesWithinSelf(entries);
    case Items(items) => ItemsWithinSelf(items);
    case _ =>
  }

  lemma {:induction false} EntriesWithinSelf(entries: seq<Entry>)
    ensures EntriesWithin(entries, entries)
    decreases entries
  {
    if entries != [] {
      WithinSelf(entries[|entries| - 1].value);
      EntriesWithinSelf(entries[..|entries| - 1]);
    }
  }

  lemma {:induction false} ItemsWithinSelf(items: seq<Value>)
    ensures ItemsWithin(items, items)
    decreases items
  {
    if items != [] {
      WithinSelf(items[|items| - 1]);
      ItemsWithinSelf(items[..|items| - 1]);
    }
  }

  /** What is exported by default is contained in what raw export would export. */
  lemma {:induction false} DefaultWithinRaw(key: string, v: Value, path: string)
    requires DistinctKeys(v)
    ensures var a, b := RedactValue(key, v, path, false).0, RedactValue(key, v, path, true).0;
      a.Some? ==> b.Some? && Within(a.value, b.value)
    decreases v
  {
    match v
    case Mapping(entries) => EntriesWithinRaw(entries, path);
    case Items(items) => ItemsWithinRaw(key, items, path);
    case Bytes(bytes) => WithinSelf(Items(Numbers(bytes)));
    case _ =>
  }

  lemma {:induction false} EntriesWithinRaw(entries: seq<Entry>, prefix: string)
    requires DistinctEntries(entries)
    ensures EntriesWithin(RedactEntries(entries, prefix, false).0, RedactEntries(entries, prefix, true).0)
    decreases entries
  {
    if entries != [] {
      var n := |entries| - 1;
      var e := entries[n];
      var path := JoinPath(prefix, e.key);
      var a, b := RedactEntries(entries[..n], prefix, false).0, RedactEntries(entries[..n], prefix, true).0;
      var v, w := RedactValue(e.key, e.value, path, false).0, RedactValue(e.key, e.value, path, true).0;
      EntriesWithinRaw(entries[..n], prefix);
      DefaultWithinRaw(e.key, e.value, path);
      KeptKeys(entries[..n], prefix, false, e.key);
      KeptKeys(entries[..n], prefix, true, e.key);
      if w.Some? {
        SetKeyFresh(b, e.key, w.value);
        assert (b + [Entry(e.key, w.value)])[..|b|] == b;
      }
      if v.Some? {
        SetKeyFresh(a, e.key, v.value);
        assert (a + [Entry(e.key, v.value)])[..|a|] == a;
      }
    }
  }

  lemma {:induction false} ItemsWithinRaw(key: string, items: seq<Value>, path: string)
    requires forall i :: 0 <= i < |items| ==> DistinctKeys(items[i])
    ensures ItemsWithin(RedactItems(key, items, path, false).0, RedactItems(key, items, path, true).0)
    decreases items
  {
    if items != [] {
      var n := |items| - 1;
      var a, b := RedactItems(key, items[..n], path, false).0, RedactItems(key, items[..n], path, true).0;
      var v, w := RedactValue(key, items[n], ItemPath(path, n), false).0, RedactValue(key, items[n], ItemPath(path, n), true).0;
      ItemsWithinRaw(key, items[..n], path);
      DefaultWithinRaw(key, items[n], ItemPath(path, n));
      if w.Some? {
        assert (b + [w.value])[..|b|] == b;
      }
      if v.Some? {
        assert (a + [v.value])[..|a|] == a;
      }
    }
  }

  // ------------------------------------------------------------------ the policy

  /** Without raw export, no text under a forbidden key and no oversized text leaves, at any
      depth, even when keys repeat. */
  lemma NothingForbiddenIsExported(metadata: seq<Entry>, rawDebug: bool, sensitive: bool, leaf: Leaf)
    requires !rawDebug || sensitive
    requires leaf in EntryLeaves([], RedactMetadata(metadata, rawDebug, sensitive).safe)
    ensures leaf.value.Str? ==> !KeyIsForbidden(Nearest(leaf.keys)) && |leaf.value.text| <= 512
    ensures !leaf.value.Opaque?
  {
    EntriesAreClean(metadata, "", false);
    CleanEntryLeaves([], RedactEntries(metadata, "", false).0, leaf);
  }

  lemma {:induction false} CleanLeaves(keys: seq<string>, v: Value, leaf: Leaf)
    requires Clean(Nearest(keys), v, false) && leaf in Leaves(keys, v)
    ensures Survives(leaf, false)
    decreases v
  {
    match v
    case Mapping(entries) => CleanEntryLeaves(keys, entries, leaf);
    case Items(items) => CleanItemLeaves(keys, items, leaf);
    case _ =>
  }

  lemma {:induction false} CleanEntryLeaves(keys: seq<string>, entries: seq<Entry>, leaf: Leaf)
    requires CleanEntries(entries, false) && leaf in EntryLeaves(keys, entries)
    ensures Survives(leaf, false)
    decreases entries
  {
    var n := |entries| - 1;
    if leaf in EntryLeaves(keys, entries[..n]) {
      CleanEntryLeaves(keys, entries[..n], leaf);
    } else {
      CleanLeaves(keys + [entries[n].key], entries[n].value, leaf);
    }
  }

  lemma {:induction false} CleanItemLeaves(keys: seq<string>, items: seq<Value>, leaf: Leaf)
    requires CleanItems(Nearest(keys), items, false) && leaf in ItemLeaves(keys, items)
    ensures Survives(leaf, false)
    decreases items
  {
    var n := |items| - 1;
    if leaf in ItemLeaves(keys, items[..n]) {
      CleanItemLeaves(keys, items[..n], leaf);
    } else {
      CleanLeaves(keys, items[n], leaf);
    }
  }

  /** Marking a repository sensitive overrides the debug flag: the export and its diagnostics
      are the default ones, and the extra reports name only strings that were dropped. */
  lemma SensitiveOverridesDebug(metadata: seq<Entry>)
    ensures var refused, normal := RedactMetadata(metadata, true, true), RedactMetadata(metadata, false, false);
      && refused.safe == normal.safe && !refused.rawExportAllowed
      && refused.redactions == normal.redactions + Denials(metadata)
      && forall d :: d in Denials(metadata) ==> Diagnostic(d.path, d.key, ForbiddenKey) in normal.redactions
  {
    forall d | d in Denials(metadata) ensures Diagnostic(d.path, d.key, ForbiddenKey) in RedactEntries(metadata, "", false).1 {
      DenialWasDropped(metadata, d);
    }
  }

  lemma {:induction false} DenialWasDropped(metadata: seq<Entry>, d: Diagnostic)
    requires d in Denials(metadata)
    ensures Diagnostic(d.path, d.key, ForbiddenKey) in RedactEntries(metadata, "", false).1
  {
    if metadata != [] {
      var n := |metadata| - 1;
      assert metadata == metadata[..n] + [metadata[n]];
      DenialsAppend(metadata[..n], metadata[n]);
      if d in Denials(metadata[..n]) {
        DenialWasDropped(metadata[..n], d);
      }
    }
  }

  /** Raw export is allowed exactly when it is asked for and the repository is not sensitive, and
      then only objects that are no metadata are dropped. */
  lemma RawExportExactly(metadata: seq<Entry>, rawDebug: bool, sensitive: bool)
    ensures var r := RedactMetadata(metadata, rawDebug, sensitive);
      && (r.rawExportAllowed <==> rawDebug && !sensitive)
      && (r.rawExportAllowed ==> forall d :: d in r.redactions ==> d.reason == UnsupportedType)
      && (!r.rawExportAllowed ==> r.safe == RedactMetadata(metadata, false, false).safe)
  {
    var r := RedactMetadata(metadata, rawDebug, sensitive);
    if r.rawExportAllowed {
      EntriesDiagnosed([], metadata, "", true);
      var spots := Filter(EntrySpots([], metadata, ""), Dropping(true));
      forall d | d in r.redactions ensures d.reason == UnsupportedType {
        ReportSource(spots, d);
        var s :| s in spots && Report(s) == d;
        FilterMember(EntrySpots([], metadata, ""), Dropping(true), s);
      }
    }
  }

  lemma {:induction false} ReportSource(spots: seq<Spot>, d: Diagnostic)
    requires d in Map(spots, Report)
    ensures exists s :: s in spots && Report(s) == d
  {
    if d == Report(spots[0]) {
      assert spots[0] in spots;
    } else {
      ReportSource(spots[1..], d);
    }
  }

  /** A refused raw export reports every top-level string under a forbidden key, and nothing
      else, in order. */
  lemma {:induction false} DenialsExactly(metadata: seq<Entry>, d: Diagnostic)
    ensures d in Denials(metadata) <==>
      exists e :: e in metadata && e.value.Str? && KeyIsForbidden(e.key) && d == Diagnostic(e.key, e.key, RawExportDeniedSensitive)
    ensures |Denials(metadata)| == |Filter(metadata, (e: Entry) => e.value.Str? && KeyIsForbidden(e.key))|
  {
    if metadata == [] {
    } else {
      var n := |metadata| - 1;
      var denied := (e: Entry) => e.value.Str? && KeyIsForbidden(e.key);
      assert metadata == metadata[..n] + [metadata[n]];
      DenialsAppend(metadata[..n], metadata[n]);
      DenialsExactly(metadata[..n], d);
      FilterAppend(metadata[..n], [metadata[n]], denied);
      FilterOne(metadata[n], denied);
    }
  }
}
