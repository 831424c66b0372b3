/** Target fingerprints (core/graph/approval_bound_mutation.py, publication/models.py):
    the digest of the `|`-joined components of one mutation or publication target. */
module Fingerprints {
  import opened Text
  import opened Hashing
  import opened Domain

  datatype Target =
    | Upsert(key: string, adrId: string, contentHash: string)
    | Relate(key: string, source: string, sink: string, relationship: string)
    | RecordChange(key: string, changeId: string, linkedAdr: string)
    | Supersede(key: string, prior: string, superseding: string)
    | Retract(key: string, adr: string)
    | Migrate(key: string, version: string)
    | Publish(key: string, adrId: string, contentHash: string, policy: string,
              branch: string, template: string, decisionId: string)
  {
    function Tag(): string {
      match this
      case Upsert(_, _, _) => "upsert_adr_node"
      case Relate(_, _, _, _) => "add_relationship"
      case RecordChange(_, _, _) => "record_structural_change"
      case Supersede(_, _, _) => "supersede_adr"
      case Retract(_, _) => "retract_adr"
      case Migrate(_, _) => "migrate_schema"
      case Publish(_, _, _, _, _, _, _) => "publish_adr"
    }

    function Components(): (c: seq<string>)
      ensures |c| >= 2
    {
      match this
      case Upsert(k, a, h) => [k, a, h]
      case Relate(k, a, b, r) => [k, a, b, r]
      case RecordChange(k, c, a) => [k, c, a]
      case Supersede(k, a, b) => [k, a, b]
      case Retract(k, a) => [k, a]
      case Migrate(k, v) => [k, v]
      case Publish(k, a, h, p, b, t, d) => [k, a, h, p, b, t, d]
    }

    function Parts(): seq<string> {
      [Tag()] + Components()
    }

    function Fingerprint(): string {
      Sha256(Join(Parts()))
    }

    predicate PipeFree() {
      forall c :: c in Components() ==> '|' !in c
    }

    /** The same operation with other components. */
    function With(c: seq<string>): (t: Target)
      requires |c| == |Components()|
      ensures t.Tag() == Tag() && t.Components() == c
    {
      match this
      case Upsert(_, _, _) => Upsert(c[0], c[1], c[2])
      case Relate(_, _, _, _) => Relate(c[0], c[1], c[2], c[3])
      case RecordChange(_, _, _) => RecordChange(c[0], c[1], c[2])
      case Supersede(_, _, _) => Supersede(c[0], c[1], c[2])
      case Retract(_, _) => Retract(c[0], c[1])
      case Migrate(_, _) => Migrate(c[0], c[1])
      case Publish(_, _, _, _, _, _, _) => Publish(c[0], c[1], c[2], c[3], c[4], c[5], c[6])
    }
  }

  function UpsertFingerprint(repository: Repository, adr: ADRRecord): string {
    Upsert(repository.Key(), adr.adrId, adr.contentHash).Fingerprint()
  }

  lemma TagsDiffer(a: Target, b: Target)
    requires a.Tag() == b.Tag()
    ensures |a.Components()| == |b.Components()|
    ensures a.Components() == b.Components() ==> a == b
  {
    assert |"upsert_adr_node"| == 15 && |"add_relationship"| == 16 && |"record_structural_change"| == 24;
    assert |"supersede_adr"| == 13 && |"retract_adr"| == 11 && |"migrate_schema"| == 14 && |"publish_adr"| == 11;
    assert "retract_adr"[0] != "publish_adr"[0];
    var c, d := a.Components(), b.Components();
    if c == d {
      assert forall i :: 0 <= i < |c| ==> c[i] == d[i];
    }
  }

  lemma TagsArePipeFree(a: Target)
    ensures '|' !in a.Tag()
  {
  }

  lemma PartsEqual(a: Target, b: Target)
    ensures a.Parts() == b.Parts() <==> a == b
  {
    if a.Parts() == b.Parts() {
      assert a.Parts()[0] == a.Tag() && b.Parts()[0] == b.Tag();
      assert a.Parts()[1..] == a.Components() && b.Parts()[1..] == b.Components();
      TagsDiffer(a, b);
    }
  }

  /** When two targets share a fingerprint: when a reader who splits at every bar sees the
      same fields. */
  lemma FingerprintsEqual(a: Target, b: Target)
    ensures a.Fingerprint() == b.Fingerprint() <==> Fields(a.Parts()) == Fields(b.Parts())
  {
    Sha256Injective(Join(a.Parts()), Join(b.Parts()));
    JoinEqual(a.Parts(), b.Parts());
  }

  /** Over bar-free components a fingerprint names one operation and its components. */
  lemma FingerprintInjective(a: Target, b: Target)
    requires a.PipeFree() && b.PipeFree()
    ensures a.Fingerprint() == b.Fingerprint() <==> a == b
  {
    FingerprintsEqual(a, b);
    TagsArePipeFree(a);
    TagsArePipeFree(b);
    FieldsPipeFree(a.Parts());
    FieldsPipeFree(b.Parts());
    PartsEqual(a, b);
  }

  /** No other target has this fingerprint. */
  ghost predicate Unambiguous(a: Target) {
    forall b: Target :: b.Fingerprint() == a.Fingerprint() ==> b == a
  }

  /** The bar-free targets are exactly the unambiguous ones. */
  lemma UnambiguousIffPipeFree(a: Target)
    ensures Unambiguous(a) <==> a.PipeFree()
  {
    if a.PipeFree() {
      forall b: Target | b.Fingerprint() == a.Fingerprint() ensures b == a {
        SameFingerprintSameTag(a, b);
        FieldsPipeFree(a.Parts());
        FieldsPipeFree(b.Parts());
        TagsDiffer(a, b);
        PartsEqual(a, b);
      }
    } else {
      var d := ShiftedComponents(a.Components());
      var b := a.With(d);
      FieldsAppend([a.Tag()], a.Components());
      FieldsAppend([a.Tag()], d);
      FingerprintsEqual(a, b);
      assert b != a;
    }
  }

  lemma SameFingerprintSameTag(a: Target, b: Target)
    requires a.PipeFree() && a.Fingerprint() == b.Fingerprint()
    ensures a.Tag() == b.Tag()
    ensures Fields(a.Parts()) == Fields(b.Parts()) == a.Parts()
  {
    FingerprintsEqual(a, b);
    TagsArePipeFree(a);
    TagsArePipeFree(b);
    FieldsPipeFree(a.Parts());
    SplitPipeFree(b.Tag());
    assert b.Parts()[0] == b.Tag();
    assert Fields(b.Parts())[0] == b.Tag();
  }

  /** Other components that a reader cannot tell from `c`, when some component has a bar. */
  lemma {:induction false} ShiftedComponents(c: seq<string>) returns (d: seq<string>)
    requires |c| >= 2 && exists p :: p in c && '|' in p
    ensures |d| == |c| && d != c && Fields(d) == Fields(c)
  {
    var i :| 0 <= i < |c| && '|' in c[i];
    var k :| 0 <= k < |c[i]| && c[i][k] == '|';
    var u, v := c[i][..k], c[i][k + 1..];
    assert c[i] == u + "|" + v;
    var j := if i + 1 < |c| then i else i - 1;
    var pair := if i + 1 < |c| then [u, v + "|" + c[i + 1]] else [c[i - 1] + "|" + u, v];
    if i + 1 < |c| {
      MoveBar(u, v, c[i + 1]);
    } else {
      MoveBar(c[i - 1], u, v);
    }
    d := c[..j] + pair + c[j + 2..];
    assert c == c[..j] + [c[j], c[j + 1]] + c[j + 2..];
    assert d[j] != c[j];
    FieldsAppend(c[..j] + pair, c[j + 2..]);
    FieldsAppend(c[..j] + [c[j], c[j + 1]], c[j + 2..]);
    FieldsAppend(c[..j], pair);
    FieldsAppend(c[..j], [c[j], c[j + 1]]);
  }

  /** Fixing the key and the content hash, the ADR id is determined: no bar-free hypothesis. */
  lemma UpsertDeterminesAdr(key: string, hash: string, a: string, b: string)
    requires Upsert(key, a, hash).Fingerprint() == Upsert(key, b, hash).Fingerprint()
    ensures a == b
  {
    var p, q := Upsert(key, a, hash).Parts(), Upsert(key, b, hash).Parts();
    Sha256Injective(Join(p), Join(q));
    UpsertPreimage(key, a, hash);
    UpsertPreimage(key, b, hash);
    var head := "upsert_adr_node" + "|" + key + "|";
    var tail := "|" + hash;
    assert Join(p) == head + a + tail;
    assert Join(q) == head + b + tail;
    assert |a| == |b|;
    assert (head + a + tail)[|head|..|head| + |a|] == a;
    assert (head + b + tail)[|head|..|head| + |b|] == b;
  }

  lemma UpsertPreimage(key: string, adr: string, hash: string)
    ensures Join(Upsert(key, adr, hash).Parts()) == "upsert_adr_node" + "|" + key + "|" + adr + "|" + hash
  {
    JoinFour("upsert_adr_node", key, adr, hash);
  }

  lemma JoinThree(a: string, b: string, c: string)
    ensures Join([a, b, c]) == a + "|" + b + "|" + c
  {
    assert [a, b, c][1..] == [b, c] && [b, c][1..] == [c];
    assert Join([c]) == c && Join([b, c]) == b + "|" + c;
    assert a + "|" + (b + "|" + c) == a + "|" + b + "|" + c;
  }

  lemma JoinFour(a: string, b: string, c: string, d: string)
    ensures Join([a, b, c, d]) == a + "|" + b + "|" + c + "|" + d
  {
    JoinThree(b, c, d);
    assert [a, b, c, d][1..] == [b, c, d];
    assert a + "|" + (b + "|" + c + "|" + d) == a + "|" + b + "|" + c + "|" + d;
  }

  lemma JoinFive(a: string, b: string, c: string, d: string, e: string)
    ensures Join([a, b, c, d, e]) == a + "|" + b + "|" + c + "|" + d + "|" + e
  {
    JoinFour(b, c, d, e);
    assert [a, b, c, d, e][1..] == [b, c, d, e];
    assert a + "|" + (b + "|" + c + "|" + d + "|" + e) == a + "|" + b + "|" + c + "|" + d + "|" + e;
  }

  /** The texts that are hashed for the graph mutations. */
  lemma Preimages(key: string, x: string, y: string, z: string)
    ensures Upsert(key, x, y).Fingerprint() == Sha256("upsert_adr_node" + "|" + key + "|" + x + "|" + y)
    ensures Relate(key, x, y, z).Fingerprint() == Sha256("add_relationship" + "|" + key + "|" + x + "|" + y + "|" + z)
    ensures RecordChange(key, x, y).Fingerprint() == Sha256("record_structural_change" + "|" + key + "|" + x + "|" + y)
    ensures Supersede(key, x, y).Fingerprint() == Sha256("supersede_adr" + "|" + key + "|" + x + "|" + y)
    ensures Retract(key, x).Fingerprint() == Sha256("retract_adr" + "|" + key + "|" + x)
    ensures Migrate(key, x).Fingerprint() == Sha256("migrate_schema" + "|" + key + "|" + x)
  {
    JoinFour("upsert_adr_node", key, x, y);
    JoinFive("add_relationship", key, x, y, z);
    JoinFour("record_structural_change", key, x, y);
    JoinFour("supersede_adr", key, x, y);
    JoinThree("retract_adr", key, x);
    JoinThree("migrate_schema", key, x);
  }

  /** ... and for a publication. */
  lemma PublishPreimage(t: Target)
    requires t.Publish?
    ensures t.Fingerprint() == Sha256("publish_adr" + "|" + t.key + "|" + t.adrId + "|" + t.contentHash + "|"
                                      + (t.policy + "|" + t.branch + "|" + t.template + "|" + t.decisionId))
  {
    var tail := [t.policy, t.branch, t.template, t.decisionId];
    JoinFour(t.policy, t.branch, t.template, t.decisionId);
    JoinBehind(["publish_adr", t.key, t.adrId, t.contentHash], tail);
    JoinFour("publish_adr", t.key, t.adrId, t.contentHash);
    assert t.Parts() == ["publish_adr", t.key, t.adrId, t.contentHash] + tail;
  }

  lemma {:induction false} JoinBehind(a: seq<string>, b: seq<string>)
    requires a != [] && b != []
    ensures Join(a + b) == Join(a) + "|" + Join(b)
  {
    assert (a + b)[1..] == a[1..] + b;
    if |a| > 1 {
      JoinBehind(a[1..], b);
      assert a[0] + "|" + (Join(a[1..]) + "|" + Join(b)) == a[0] + "|" + Join(a[1..]) + "|" + Join(b);
    } else {
      assert a + b == [a[0]] + b && (a + b)[1..] == b;
    }
  }
}
