/** The string operations the repository takes from Python: substring search, `replace`,
    `join`, `split`, and the POSIX path halves. */
module Text {

  // ------------------------------------------------------------------ substrings

  predicate StartsWith(s: string, p: string) {
    p <= s
  }

  /** Python's `s.endswith(suffix)`. */
  predicate EndsWith(s: string, suffix: string) {
    |suffix| <= |s| && s[|s| - |suffix|..] == suffix
  }

  /** Python's `p in s`. */
  predicate Contains(s: string, p: string) {
    StartsWith(s, p) || (s != [] && Contains(s[1..], p))
  }

  lemma {:induction false} ContainsAt(s: string, p: string)
    ensures Contains(s, p) <==> exists i :: 0 <= i <= |s| && p <= s[i..]
  {
    if p <= s {
      assert s[0..] == s;
    } else if s != [] {
      ContainsAt(s[1..], p);
      if Contains(s[1..], p) {
        var i :| 0 <= i <= |s[1..]| && p <= s[1..][i..];
        assert s[1..][i..] == s[i + 1..];
      }
      forall i | 1 <= i <= |s| ensures s[1..][i - 1..] == s[i..] {}
      assert s[0..] == s;
    } else {
      assert s[0..] == s;
    }
  }

  lemma ContainsWitness(s: string, p: string, i: nat)
    requires i <= |s| && p <= s[i..]
    ensures Contains(s, p)
  {
    ContainsAt(s, p);
  }

  lemma ContainsIn(a: string, p: string, b: string)
    ensures Contains(a + p + b, p)
  {
    assert (a + p + b)[|a|..] == p + b;
    ContainsWitness(a + p + b, p, |a|);
  }

  lemma ContainsBehind(head: string, tail: string, p: string)
    requires Contains(tail, p)
    ensures Contains(head + tail, p)
  {
    ContainsAt(tail, p);
    var i :| 0 <= i <= |tail| && p <= tail[i..];
    assert (head + tail)[|head| + i..] == tail[i..];
    ContainsWitness(head + tail, p, |head| + i);
  }

  // ------------------------------------------------------------------ replace

  /** Python's `s.replace(p, r)` for a non-empty `p`: left to right, without overlaps. */
  function ReplaceAll(s: string, p: string, r: string): string
    requires p != []
    decreases |s|
  {
    if s == [] then []
    else if p <= s then r + ReplaceAll(s[|p|..], p, r)
    else [s[0]] + ReplaceAll(s[1..], p, r)
  }

  lemma PrefixElements(p: string, s: string)
    ensures p <= s ==> forall k :: 0 <= k < |p| ==> k < |s| && p[k] == s[k]
  {
  }

  /** A separator that the pattern does not use splits a replacement in two. */
  lemma {:induction false} ReplaceAcrossSeparator(a: string, c: char, b: string, p: string, r: string)
    requires p != [] && c !in p
    requires !Contains(a, p)
    ensures ReplaceAll(a + [c] + b, p, r) == a + [c] + ReplaceAll(b, p, r)
    decreases |a|
  {
    var s := a + [c] + b;
    assert |p| <= |a| && p <= s ==> p <= a;
    assert s[|a|] == c;
    PrefixElements(p, s);
    if a == [] {
      assert s[1..] == b;
    } else {
      assert s[1..] == a[1..] + [c] + b;
      ReplaceAcrossSeparator(a[1..], c, b, p, r);
    }
  }

  // ------------------------------------------------------------------ join and split

  /** Python's `"|".join(parts)`. */
  function Join(parts: seq<string>): string {
    if parts == [] then []
    else if |parts| == 1 then parts[0]
    else parts[0] + "|" + Join(parts[1..])
  }

  /** The fields a reader sees between the bars of `s`; never empty. */
  function Split(s: string): (fields: seq<string>)
    ensures fields != []
  {
    if s == [] then [""]
    else
      var rest := Split(s[1..]);
      if s[0] == '|' then [""] + rest
      else [[s[0]] + rest[0]] + rest[1..]
  }

  /** The fields a reader sees in each part, one after the other. */
  function Fields(parts: seq<string>): seq<string> {
    if parts == [] then [] else Split(parts[0]) + Fields(parts[1..])
  }

  lemma {:induction false} SplitConcat(a: string, b: string)
    ensures Split(a + "|" + b) == Split(a) + Split(b)
  {
    if a == [] {
      assert a + "|" + b == "|" + b;
      assert ("|" + b)[1..] == b;
    } else {
      assert (a + "|" + b)[1..] == a[1..] + "|" + b;
      SplitConcat(a[1..], b);
      if a[0] != '|' {
        var rest := Split(a[1..]);
        assert (rest + Split(b))[1..] == rest[1..] + Split(b);
      }
    }
  }

  lemma {:induction false} SplitJoin(parts: seq<string>)
    requires parts != []
    ensures Split(Join(parts)) == Fields(parts)
  {
    if |parts| == 1 {
      assert Fields(parts[1..]) == [];
    } else {
      SplitConcat(parts[0], Join(parts[1..]));
      SplitJoin(parts[1..]);
    }
  }

  lemma {:induction false} JoinSplit(s: string)
    ensures Join(Split(s)) == s
  {
    if s != [] {
      JoinSplit(s[1..]);
      var rest := Split(s[1..]);
      if s[0] == '|' {
        assert ([""] + rest)[1..] == rest;
      } else {
        var all := [[s[0]] + rest[0]] + rest[1..];
        assert all[1..] == rest[1..];
        if |rest| > 1 {
          assert Join(all) == [s[0]] + rest[0] + "|" + Join(rest[1..]);
        }
      }
    }
  }

  lemma {:induction false} SplitPipeFree(s: string)
    ensures Split(s) == [s] <==> '|' !in s
  {
    if s != [] {
      SplitPipeFree(s[1..]);
      assert s == [s[0]] + s[1..];
      if s[0] != '|' && '|' in s[1..] && |Split(s[1..])| == 1 {
        JoinSplit(s[1..]);
      }
    }
  }

  /** Joined texts agree exactly when a reader sees the same fields in both. */
  lemma JoinEqual(a: seq<string>, b: seq<string>)
    requires a != [] && b != []
    ensures Join(a) == Join(b) <==> Fields(a) == Fields(b)
  {
    SplitJoin(a);
    SplitJoin(b);
    JoinSplit(Join(a));
    JoinSplit(Join(b));
  }

  /** Reading back finds at least as many fields as there are parts, and exactly the parts
      when none of them contains a bar. */
  lemma {:induction false} FieldsPipeFree(parts: seq<string>)
    ensures |Fields(parts)| >= |parts|
    ensures |Fields(parts)| == |parts| <==> forall p :: p in parts ==> '|' !in p
    ensures (forall p :: p in parts ==> '|' !in p) ==> Fields(parts) == parts
  {
    if parts != [] {
      SplitPipeFree(parts[0]);
      FieldsPipeFree(parts[1..]);
      assert parts == [parts[0]] + parts[1..];
      if |Split(parts[0])| == 1 {
        JoinSplit(parts[0]);
      }
    }
  }

  lemma {:induction false} FieldsAppend(a: seq<string>, b: seq<string>)
    ensures Fields(a + b) == Fields(a) + Fields(b)
  {
    if a == [] {
      assert a + b == b;
    } else {
      assert (a + b)[1..] == a[1..] + b;
      FieldsAppend(a[1..], b);
    }
  }

  /** A bar inside one of two neighbouring parts can be moved to the other side of their
      common boundary without changing what a reader sees. */
  lemma MoveBar(a: string, b: string, c: string)
    ensures Fields([a + "|" + b, c]) == Fields([a, b + "|" + c])
  {
    SplitConcat(a, b);
    SplitConcat(b, c);
    assert [a + "|" + b, c][1..] == [c] && [a, b + "|" + c][1..] == [b + "|" + c];
    assert Fields([c]) == Split(c) + Fields([c][1..]) == Split(c);
    assert Fields([b + "|" + c]) == Split(b + "|" + c) + Fields([b + "|" + c][1..]) == Split(b + "|" + c);
  }

  // ------------------------------------------------------------------ paths

  /** The position just after the last '/', or 0. */
  function NameStart(path: string): (n: nat)
    ensures n <= |path|
  {
    if path == [] then 0
    else if path[|path| - 1] == '/' then |path|
    else NameStart(path[..|path| - 1])
  }

  lemma {:induction false} NameStartSplits(path: string)
    ensures '/' !in path[NameStart(path)..]
    ensures NameStart(path) > 0 ==> path[NameStart(path) - 1] == '/'
  {
    if path != [] && path[|path| - 1] != '/' {
      NameStartSplits(path[..|path| - 1]);
      var n := NameStart(path);
      assert path[n..] == path[..|path| - 1][n..] + [path[|path| - 1]];
    }
  }

  /** Python's `path.rsplit("/", 1)[-1]`. */
  function Basename(path: string): string {
    path[NameStart(path)..]
  }

  function TrimSlashes(s: string): string {
    if s != [] && s[|s| - 1] == '/' then TrimSlashes(s[..|s| - 1]) else s
  }

  /** `posixpath.dirname`: the part up to the last '/', without its trailing slashes unless
      it is made of slashes only. */
  function Dirname(path: string): string {
    var head := path[..NameStart(path)];
    if TrimSlashes(head) == [] then head else TrimSlashes(head)
  }

  // ------------------------------------------------------------------ letters

  /** Lower-casing of the ASCII letters. */
  function Lower(c: char): char {
    if 'A' <= c <= 'Z' then (c as int + 32) as char else c
  }

  function LowerText(s: string): (r: string)
    ensures |r| == |s| && forall i :: 0 <= i < |s| ==> r[i] == Lower(s[i])
  {
    if s == [] then [] else [Lower(s[0])] + LowerText(s[1..])
  }
}
