/** Content hashing (approval/hashing.py). */
module Hashing {
  import opened Text

  // ------------------------------------------------------------------ the digest

  const HEX := "0123456789abcdef"

  function Nibble(n: nat): char
    requires n < 16
  {
    HEX[n]
  }

  /** The last `k` hexadecimal digits of `n`. */
  function HexDigits(n: nat, k: nat): (r: string)
    ensures |r| == k
  {
    if k == 0 then [] else HexDigits(n / 16, k - 1) + [Nibble(n % 16)]
  }

  function HexText(s: string): (r: string)
    ensures |r| == 6 * |s|
  {
    if s == [] then [] else HexDigits(s[0] as int, 6) + HexText(s[1..])
  }

  /** Stands in for the hexadecimal SHA-256 digest: some injective function into non-empty
      hexadecimal texts. Proofs elsewhere use it only through `Sha256Injective` and
      `Sha256Hex`, so they hold for every function with these two properties. */
  function Sha256(s: string): string {
    "d" + HexText(s)
  }

  function Pow16(k: nat): (r: nat)
    ensures r > 0
  {
    if k == 0 then 1 else 16 * Pow16(k - 1)
  }

  lemma {:induction false} HexDigitsInjective(m: nat, n: nat, k: nat)
    requires m < Pow16(k) && n < Pow16(k)
    requires HexDigits(m, k) == HexDigits(n, k)
    ensures m == n
  {
    if k > 0 {
      var a, b := HexDigits(m, k), HexDigits(n, k);
      assert a[..k - 1] == HexDigits(m / 16, k - 1) && b[..k - 1] == HexDigits(n / 16, k - 1);
      assert a[k - 1] == Nibble(m % 16) && b[k - 1] == Nibble(n % 16);
      HexDigitsInjective(m / 16, n / 16, k - 1);
    }
  }

  lemma {:induction false} HexTextInjective(a: string, b: string)
    requires HexText(a) == HexText(b)
    ensures a == b
  {
    if a != [] {
      assert HexText(a)[..6] == HexDigits(a[0] as int, 6);
      assert HexText(b)[..6] == HexDigits(b[0] as int, 6);
      assert Pow16(6) == 16777216 by { assert Pow16(2) == 256; assert Pow16(4) == 65536; }
      HexDigitsInjective(a[0] as int, b[0] as int, 6);
      assert HexText(a)[6..] == HexText(a[1..]);
      assert HexText(b)[6..] == HexText(b[1..]);
      HexTextInjective(a[1..], b[1..]);
      assert a == [a[0]] + a[1..];
      assert b == [b[0]] + b[1..];
    }
  }

  lemma Sha256Injective(a: string, b: string)
    ensures Sha256(a) == Sha256(b) <==> a == b
  {
    if Sha256(a) == Sha256(b) {
      assert Sha256(a)[1..] == HexText(a);
      assert Sha256(b)[1..] == HexText(b);
      HexTextInjective(a, b);
    }
  }

  lemma {:induction false} HexDigitsAlphabet(n: nat, k: nat)
    ensures forall c :: c in HexDigits(n, k) ==> c in HEX
  {
    if k > 0 {
      HexDigitsAlphabet(n / 16, k - 1);
    }
  }

  lemma {:induction false} HexTextAlphabet(s: string)
    ensures forall c :: c in HexText(s) ==> c in HEX
  {
    if s != [] {
      HexDigitsAlphabet(s[0] as int, 6);
      HexTextAlphabet(s[1..]);
    }
  }

  lemma Sha256Hex(s: string)
    ensures Sha256(s) != []
    ensures forall c :: c in Sha256(s) ==> c in HEX
  {
    HexTextAlphabet(s);
  }

  // ------------------------------------------------------------------ line endings

  /** `canonicalize_adr_content`: CRLF first, then every CR that is left. */
  function Canonicalize(content: string): string {
    ReplaceAll(ReplaceAll(content, "\r\n", "\n"), "\r", "\n")
  }

  function CanonicalHash(content: string): string {
    Sha256(Canonicalize(content))
  }

  /** The same normal form by one scan: CRLF, CR and LF each end a line. */
  function ScanLineEndings(content: string): string
    decreases |content|
  {
    if content == [] then []
    else if content[0] != '\r' then [content[0]] + ScanLineEndings(content[1..])
    else if |content| > 1 && content[1] == '\n' then "\n" + ScanLineEndings(content[2..])
    else "\n" + ScanLineEndings(content[1..])
  }

  lemma {:induction false} TwoPassesAreOneScan(content: string)
    ensures Canonicalize(content) == ScanLineEndings(content)
    decreases |content|
  {
    if content != [] {
      if "\r\n" <= content {
        TwoPassesAreOneScan(content[2..]);
        var rest := ReplaceAll(content[2..], "\r\n", "\n");
        assert ("\n" + rest)[1..] == rest;
      } else {
        TwoPassesAreOneScan(content[1..]);
        var rest := ReplaceAll(content[1..], "\r\n", "\n");
        var once := [content[0]] + rest;
        assert once[1..] == rest;
        assert content[0] == '\r' ==> "\r" <= once;
        assert content[0] != '\r' ==> !("\r" <= once);
        PrefixElements("\r\n", content);
        assert content[0] == '\r' && |content| > 1 ==> content[1] != '\n';
      }
    }
  }

  /** The normal form has no CR, and the texts without CR are exactly its fixed points. */
  lemma {:induction false} ScanRemovesCr(content: string)
    ensures '\r' !in ScanLineEndings(content)
    ensures ScanLineEndings(content) == content <==> '\r' !in content
    decreases |content|
  {
    if content != [] {
      if |content| > 1 && content[0] == '\r' && content[1] == '\n' {
        ScanRemovesCr(content[2..]);
      } else {
        ScanRemovesCr(content[1..]);
        assert content == [content[0]] + content[1..];
      }
    }
  }

  lemma CanonicalForm(content: string)
    ensures '\r' !in Canonicalize(content)
    ensures Canonicalize(content) == content <==> '\r' !in content
    ensures Canonicalize(Canonicalize(content)) == Canonicalize(content)
  {
    TwoPassesAreOneScan(content);
    TwoPassesAreOneScan(Canonicalize(content));
    ScanRemovesCr(content);
    ScanRemovesCr(Canonicalize(content));
  }

  /** A checkout that rewrites every LF as `ending`. */
  function WithLineEnding(content: string, ending: string): string {
    ReplaceAll(content, "\n", ending)
  }

  lemma {:induction false} CheckoutUndone(content: string, ending: string)
    requires '\r' !in content
    requires ending == "\r\n" || ending == "\r"
    ensures Canonicalize(WithLineEnding(content, ending)) == content
  {
    if content != [] {
      CheckoutUndone(content[1..], ending);
      var rest := WithLineEnding(content[1..], ending);
      assert content == [content[0]] + content[1..];
      TwoPassesAreOneScan(WithLineEnding(content, ending));
      TwoPassesAreOneScan(rest);
      if content[0] == '\n' {
        CheckoutHead(content[1..], ending);
        assert "\n" <= content && content[1..] == content[|"\n"|..];
        assert (ending + rest)[|ending|..] == rest;
      } else {
        assert ([content[0]] + rest)[1..] == rest;
      }
    }
  }

  /** A rewritten text never starts with a bare LF, so a CR written before it stays a line of its own. */
  lemma CheckoutHead(content: string, ending: string)
    requires '\r' !in content
    requires ending == "\r\n" || ending == "\r"
    ensures var t := WithLineEnding(content, ending); t != [] ==> t[0] != '\n'
  {
    if content != [] && content[0] == '\n' {
      assert "\n" <= content;
    }
  }

  /** The hash of the reviewed text still matches after a checkout with other line endings. */
  lemma CanonicalHashStable(content: string, ending: string)
    requires '\r' !in content
    requires ending == "\r\n" || ending == "\r"
    ensures CanonicalHash(WithLineEnding(content, ending)) == CanonicalHash(content) == Sha256(content)
  {
    CheckoutUndone(content, ending);
    CanonicalForm(content);
  }

  /** A draft's plain digest is its canonical hash exactly when the draft has no CR. */
  lemma CanonicalHashIsDigest(content: string)
    ensures CanonicalHash(content) == Sha256(content) <==> '\r' !in content
  {
    CanonicalForm(content);
    Sha256Injective(Canonicalize(content), content);
  }

  /** Two texts share a canonical hash exactly when they agree up to line endings. */
  lemma CanonicalHashEqual(a: string, b: string)
    ensures CanonicalHash(a) == CanonicalHash(b) <==> ScanLineEndings(a) == ScanLineEndings(b)
  {
    Sha256Injective(Canonicalize(a), Canonicalize(b));
    TwoPassesAreOneScan(a);
    TwoPassesAreOneScan(b);
  }
}
