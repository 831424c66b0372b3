/** ADR numbers, paths and decision markers (publication/numbering.py). Digits are ASCII. */
module Numbering {
  import opened Prelude
  import opened Text

  // ------------------------------------------------------------------ decimal numbers

  predicate IsDigit(c: char) {
    '0' <= c <= '9'
  }

  predicate AllDigits(s: string) {
    forall i :: 0 <= i < |s| ==> IsDigit(s[i])
  }

  function DigitValue(c: char): nat {
    if IsDigit(c) then c as int - '0' as int else 0
  }

  /** Python's `int(s)` on a run of digits. */
  function Value(s: string): nat {
    if s == [] then 0 else 10 * Value(s[..|s| - 1]) + DigitValue(s[|s| - 1])
  }

  /** Python's `str(n)`. */
  function Decimal(n: nat): string {
    if n < 10 then [('0' as int + n) as char] else Decimal(n / 10) + [('0' as int + n % 10) as char]
  }

  /** Python's `s.zfill(width)` on a run of digits. */
  function ZFill(s: string, width: nat): string
    decreases width - |s|
  {
    if |s| >= width then s else ZFill("0" + s, width)
  }

  lemma {:induction false} ValueOfDecimal(n: nat)
    ensures Value(Decimal(n)) == n
    ensures Decimal(n) != [] && AllDigits(Decimal(n))
  {
    if n < 10 {
      assert Decimal(n)[..0] == [];
    } else {
      ValueOfDecimal(n / 10);
      assert Decimal(n)[..|Decimal(n)| - 1] == Decimal(n / 10);
    }
  }

  lemma {:induction false} ValueOfPadded(s: string)
    requires AllDigits(s)
    ensures AllDigits("0" + s) && Value("0" + s) == Value(s)
  {
    if s != [] {
      ValueOfPadded(s[..|s| - 1]);
      assert ("0" + s)[..|s|] == "0" + s[..|s| - 1];
    }
  }

  lemma {:induction false} ValueOfZFill(s: string, width: nat)
    requires AllDigits(s)
    ensures Value(ZFill(s, width)) == Value(s)
    ensures AllDigits(ZFill(s, width)) && |ZFill(s, width)| >= |s|
    decreases width - |s|
  {
    if |s| < width {
      ValueOfPadded(s);
      ValueOfZFill("0" + s, width);
    }
  }

  /** More digits behind a positive number make a larger one. */
  lemma {:induction false} LongerIsLarger(a: string, b: string)
    requires AllDigits(a) && AllDigits(b) && Value(a) > 0 && b != []
    ensures AllDigits(a + b) && Value(a + b) > Value(a)
  {
    assert (a + b)[..|a + b| - 1] == a + b[..|b| - 1];
    if |b| > 1 {
      LongerIsLarger(a, b[..|b| - 1]);
    } else {
      assert a + b[..0] == a;
    }
  }

  // ------------------------------------------------------------------ parsing a file name

  function LeadingDigits(s: string): (r: string)
    ensures |r| <= |s|
  {
    if s == [] || !IsDigit(s[0]) then [] else [s[0]] + LeadingDigits(s[1..])
  }

  lemma {:induction false} LeadingDigitsLead(s: string)
    ensures LeadingDigits(s) <= s && AllDigits(LeadingDigits(s))
  {
    if s != [] && IsDigit(s[0]) {
      LeadingDigitsLead(s[1..]);
      assert s == [s[0]] + s[1..];
    }
  }

  /** What may follow the digits: `-`, `.`, or the end (`$` also matches before a final newline). */
  predicate Terminated(rest: string) {
    rest == "" || rest[0] == '-' || rest[0] == '.' || rest == "\n"
  }

  function ParseName(base: string): Option<nat> {
    var digits := LeadingDigits(base);
    if digits != [] && Terminated(base[|digits|..]) then Some(Value(digits)) else None
  }

  function ParseAdrNumber(filename: string): Option<nat> {
    ParseName(Basename(filename))
  }

  function Max(a: nat, b: nat): nat {
    if a >= b then a else b
  }

  /** The highest number among the names, or 0. */
  function Highest(names: seq<string>): nat {
    if names == [] then 0
    else match ParseAdrNumber(names[0])
         case Some(n) => Max(n, Highest(names[1..]))
         case None => Highest(names[1..])
  }

  /** `next_adr_number`: highest plus one, or 1 when nothing is numbered. */
  function NextAdrNumber(names: seq<string>): nat {
    Highest(names) + 1
  }

  lemma {:induction false} HighestBounds(names: seq<string>, name: string)
    requires name in names && ParseAdrNumber(name).Some?
    ensures ParseAdrNumber(name).value <= Highest(names)
  {
    if name != names[0] {
      HighestBounds(names[1..], name);
    }
  }

  lemma {:induction false} HighestOccurs(names: seq<string>)
    ensures Highest(names) == 0 || exists name :: name in names && ParseAdrNumber(name) == Some(Highest(names))
  {
    if names != [] {
      HighestOccurs(names[1..]);
      assert names[0] in names;
    }
  }

  /** The next number is one more than the highest that is listed, and 1 when nothing is. */
  lemma NextFollowsTheHighest(names: seq<string>)
    ensures forall name :: name in names && ParseAdrNumber(name).Some? ==> ParseAdrNumber(name).value < NextAdrNumber(names)
    ensures NextAdrNumber(names) != 1 ==> exists name :: name in names && ParseAdrNumber(name) == Some(NextAdrNumber(names) - 1)
    ensures NextAdrNumber(names) >= 1
  {
    forall name | name in names && ParseAdrNumber(name).Some? ensures ParseAdrNumber(name).value < NextAdrNumber(names) {
      HighestBounds(names, name);
    }
    HighestOccurs(names);
  }

  // ------------------------------------------------------------------ rendering a path

  const SLUG_TOKEN := "<slug>"

  /** The position of the first `N`, or the end. */
  function TokenStart(s: string): (i: nat)
    ensures i <= |s|
  {
    if s == [] || s[0] == 'N' then 0 else TokenStart(s[1..]) + 1
  }

  lemma {:induction false} TokenStartAtN(s: string)
    ensures TokenStart(s) < |s| ==> s[TokenStart(s)] == 'N'
  {
    if s != [] && s[0] != 'N' {
      TokenStartAtN(s[1..]);
    }
  }

  /** What is left of `s` behind its leading `N`s. */
  function AfterRun(s: string): (r: string)
    ensures |r| <= |s|
  {
    if s != [] && s[0] == 'N' then AfterRun(s[1..]) else s
  }

  function Number(number: nat, width: nat): string {
    ZFill(Decimal(number), width)
  }

  lemma NumberValue(number: nat, width: nat)
    ensures Value(Number(number, width)) == number
    ensures AllDigits(Number(number, width)) && Number(number, width) != []
  {
    ValueOfDecimal(number);
    ValueOfZFill(Decimal(number), width);
  }

  lemma {:induction false} DecimalLeads(n: nat)
    ensures Decimal(n) != [] && (n > 0 ==> Decimal(n)[0] != '0')
  {
    if n >= 10 {
      DecimalLeads(n / 10);
    }
  }

  lemma {:induction false} ZFillShape(s: string, width: nat)
    ensures |ZFill(s, width)| == Max(width, |s|)
    ensures ZFill(s, width)[|ZFill(s, width)| - |s|..] == s
    ensures forall i :: 0 <= i < |ZFill(s, width)| - |s| ==> ZFill(s, width)[i] == '0'
    decreases width - |s|
  {
    if |s| < width {
      ZFillShape("0" + s, width);
      var filled := ZFill("0" + s, width);
      assert filled[|filled| - |s| - 1..] == "0" + s;
      assert filled[|filled| - |s|..] == filled[|filled| - |s| - 1..][1..];
    }
  }

  /** How a number is written: its digits without leading zeros, behind as many zeros as the
      width asks for and no more. */
  lemma NumberShape(number: nat, width: nat)
    requires number > 0
    ensures var text, digits := Number(number, width), Decimal(number);
      && AllDigits(text) && Value(text) == number
      && |text| == Max(width, |digits|) && text[|text| - |digits|..] == digits
      && (forall i :: 0 <= i < |text| - |digits| ==> text[i] == '0')
      && digits[0] != '0'
  {
    NumberValue(number, width);
    DecimalLeads(number);
    ZFillShape(Decimal(number), width);
  }

  /** The first run of `N` becomes the padded number. */
  function FillNumber(template: string, number: nat, width: nat): string {
    var i := TokenStart(template);
    if i == |template| then template
    else template[..i] + Number(number, width) + AfterRun(template[i..])
  }

  function RenderAdrPath(template: string, number: nat, slug: string, width: nat): string {
    ReplaceAll(FillNumber(template, number, width), SLUG_TOKEN, slug)
  }

  /** The first run of `N` starts the file name, and the directory holds no slug token. */
  ghost predicate WellPlaced(template: string) {
    var p := NameStart(template);
    TokenStart(template) == p < |template| && !Contains(template[..p], SLUG_TOKEN)
  }

  /** The file name behind its number. */
  function NameTail(template: string, slug: string): string {
    ReplaceAll(AfterRun(template[NameStart(template)..]), SLUG_TOKEN, slug)
  }

  function RenderedName(template: string, number: nat, slug: string, width: nat): string {
    Number(number, width) + NameTail(template, slug)
  }

  lemma {:induction false} ReplaceBehindDigits(digits: string, tail: string, slug: string)
    requires AllDigits(digits)
    ensures ReplaceAll(digits + tail, SLUG_TOKEN, slug) == digits + ReplaceAll(tail, SLUG_TOKEN, slug)
  {
    if digits == [] {
      assert digits + tail == tail;
    } else {
      assert (digits + tail)[1..] == digits[1..] + tail;
      PrefixElements(SLUG_TOKEN, digits + tail);
      assert SLUG_TOKEN[0] == '<';
      ReplaceBehindDigits(digits[1..], tail, slug);
    }
  }

  lemma SlashNotInToken()
    ensures '/' !in SLUG_TOKEN
  {
  }

  /** A replacement does not reach into a directory without the token. */
  lemma ReplaceBehindDirectory(head: string, name: string, slug: string)
    requires head == "" || head[|head| - 1] == '/'
    requires !Contains(head, SLUG_TOKEN)
    ensures ReplaceAll(head + name, SLUG_TOKEN, slug) == head + ReplaceAll(name, SLUG_TOKEN, slug)
  {
    if head == "" {
      assert head + name == name;
    } else {
      var dir := head[..|head| - 1];
      assert head == dir + ['/'];
      PrefixKeepsAbsent(dir, ['/'], SLUG_TOKEN);
      SlashNotInToken();
      ReplaceAcrossSeparator(dir, '/', name, SLUG_TOKEN, slug);
    }
  }

  lemma FillWellPlaced(template: string, number: nat, width: nat)
    requires WellPlaced(template)
    ensures var p := NameStart(template);
      FillNumber(template, number, width) == template[..p] + (Number(number, width) + AfterRun(template[p..]))
  {
  }

  lemma RenderWellPlaced(template: string, number: nat, slug: string, width: nat)
    requires WellPlaced(template)
    ensures RenderAdrPath(template, number, slug, width)
         == template[..NameStart(template)] + RenderedName(template, number, slug, width)
  {
    var p := NameStart(template);
    var digits := Number(number, width);
    NumberValue(number, width);
    NameStartSplits(template);
    FillWellPlaced(template, number, width);
    ReplaceBehindDigits(digits, AfterRun(template[p..]), slug);
    ReplaceBehindDirectory(template[..p], digits + AfterRun(template[p..]), slug);
  }

  lemma {:induction false} PrefixKeepsAbsent(a: string, b: string, p: string)
    requires !Contains(a + b, p)
    ensures !Contains(a, p)
  {
    assert p <= a ==> p <= a + b;
    if a != [] {
      assert (a + b)[1..] == a[1..] + b;
      PrefixKeepsAbsent(a[1..], b, p);
    }
  }

  lemma {:induction false} ReplaceKeepsSlashFree(s: string, slug: string)
    requires '/' !in s && '/' !in slug
    ensures '/' !in ReplaceAll(s, SLUG_TOKEN, slug)
    decreases |s|
  {
    if s != [] {
      if SLUG_TOKEN <= s {
        ReplaceKeepsSlashFree(s[|SLUG_TOKEN|..], slug);
      } else {
        ReplaceKeepsSlashFree(s[1..], slug);
      }
    }
  }

  lemma {:induction false} AfterRunKeepsSlashFree(s: string)
    requires '/' !in s
    ensures '/' !in AfterRun(s)
  {
    if s != [] && s[0] == 'N' {
      AfterRunKeepsSlashFree(s[1..]);
    }
  }

  lemma {:induction false} NameStartAt(head: string, name: string)
    requires '/' !in name
    requires head == "" || head[|head| - 1] == '/'
    ensures NameStart(head + name) == |head|
  {
    if name == [] {
      assert head + name == head;
    } else {
      var path := head + name;
      assert path[|path| - 1] == name[|name| - 1];
      assert path[..|path| - 1] == head + name[..|name| - 1];
      NameStartAt(head, name[..|name| - 1]);
    }
  }

  /** The halves of a path: its name, and a directory that depends on the head only. */
  lemma {:induction false} HalvesAt(head: string, name: string)
    requires '/' !in name
    requires head == "" || head[|head| - 1] == '/'
    ensures Basename(head + name) == name
    ensures Dirname(head + name) == if TrimSlashes(head) == [] then head else TrimSlashes(head)
  {
    NameStartAt(head, name);
    assert (head + name)[..|head|] == head && (head + name)[|head|..] == name;
  }

  /** A rendered path lies in the template's directory under the rendered name. */
  lemma RenderedPathHalves(template: string, number: nat, slug: string, width: nat)
    requires WellPlaced(template) && '/' !in slug
    ensures var path := RenderAdrPath(template, number, slug, width);
      && Dirname(path) == Dirname(template)
      && Basename(path) == RenderedName(template, number, slug, width)
      && '/' !in Basename(path)
  {
    var p := NameStart(template);
    var name := RenderedName(template, number, slug, width);
    RenderWellPlaced(template, number, slug, width);
    RenderedNameSlashFree(template, number, slug, width);
    NameStartSplits(template);
    HalvesAt(template[..p], name);
    HalvesAt(template[..p], template[p..]);
    assert template == template[..p] + template[p..];
  }

  lemma RenderedNameSlashFree(template: string, number: nat, slug: string, width: nat)
    requires '/' !in slug
    ensures '/' !in RenderedName(template, number, slug, width)
  {
    var tail := AfterRun(template[NameStart(template)..]);
    NameStartSplits(template);
    NumberValue(number, width);
    AfterRunKeepsSlashFree(template[NameStart(template)..]);
    ReplaceKeepsSlashFree(tail, slug);
    DigitsHaveNoSlash(Number(number, width));
  }

  lemma DigitsHaveNoSlash(s: string)
    requires AllDigits(s)
    ensures '/' !in s
  {
  }

  // ------------------------------------------------------------------ printing and parsing

  lemma {:induction false} LeadingDigitsOf(digits: string, rest: string)
    requires AllDigits(digits)
    ensures LeadingDigits(digits + rest) == digits + LeadingDigits(rest)
  {
    if digits == [] {
      assert digits + rest == rest;
    } else {
      assert (digits + rest)[1..] == digits[1..] + rest;
      LeadingDigitsOf(digits[1..], rest);
    }
  }

  /** A printed positive number is read back exactly when what follows it ends the number:
      for every number and padding width, also for numbers wider than the padding. */
  lemma ParsePrinted(number: nat, width: nat, rest: string)
    requires number >= 1
    ensures ParseName(Number(number, width) + rest) == Some(number) <==> Terminated(rest)
  {
    var printed := Number(number, width);
    NumberValue(number, width);
    LeadingDigitsOf(printed, rest);
    LeadingDigitsLead(rest);
    var more := LeadingDigits(rest);
    assert (printed + rest)[|printed + more|..] == rest[|more|..];
    if more == [] {
      assert printed + more == printed && rest[0..] == rest;
    } else {
      LongerIsLarger(printed, more);
      assert more[0] == rest[0] && IsDigit(rest[0]);
    }
  }

  /** `n` is written in the first `k` characters, and the name ends there or goes on with a dash
      or a dot; a final newline may still follow. */
  ghost predicate NumberedTo(base: string, k: nat, n: nat) {
    && 0 < k <= |base| && AllDigits(base[..k]) && Value(base[..k]) == n
    && (k == |base| || base[k] == '-' || base[k] == '.' || base[k..] == "\n")
  }

  /** The names that carry a number, and which. */
  lemma NumberedExactly(base: string, n: nat)
    ensures ParseName(base) == Some(n) <==> exists k: nat :: NumberedTo(base, k, n)
  {
    var digits := LeadingDigits(base);
    LeadingDigitsLead(base);
    if ParseName(base) == Some(n) {
      var rest := base[|digits|..];
      assert base[..|digits|] == digits && (rest != "" ==> rest[0] == base[|digits|]);
      assert NumberedTo(base, |digits|, n);
    }
    if k: nat :| NumberedTo(base, k, n) {
      assert base == base[..k] + base[k..];
      LeadingDigitsOf(base[..k], base[k..]);
      var rest := base[k..];
      assert rest == "" || (rest[0] == base[k] && !IsDigit(rest[0]));
      assert digits == base[..k] && base[|digits|..] == rest;
      assert Terminated(rest);
    }
  }

  /** The template's number is followed by `-` or `.`. */
  ghost predicate Separated(template: string) {
    var tail := AfterRun(template[NameStart(template)..]);
    tail != "" && (tail[0] == '-' || tail[0] == '.')
  }

  /** `parse_adr_number` inverts `render_adr_path`. */
  lemma ParseRendered(template: string, number: nat, slug: string, width: nat)
    requires number >= 1 && WellPlaced(template) && '/' !in slug
    ensures ParseAdrNumber(RenderAdrPath(template, number, slug, width)) == Some(number)
       <==> Terminated(NameTail(template, slug))
    ensures Separated(template) ==> Terminated(NameTail(template, slug))
  {
    RenderedPathHalves(template, number, slug, width);
    ParsePrinted(number, width, NameTail(template, slug));
    PrefixElements(SLUG_TOKEN, AfterRun(template[NameStart(template)..]));
  }

  /** The path rendered from a listing's next number names none of the listed files. */
  lemma RenderedPathIsFresh(template: string, names: seq<string>, slug: string, width: nat)
    requires WellPlaced(template) && Separated(template) && '/' !in slug
    ensures Basename(RenderAdrPath(template, NextAdrNumber(names), slug, width)) !in names
  {
    var path := RenderAdrPath(template, NextAdrNumber(names), slug, width);
    ParseRendered(template, NextAdrNumber(names), slug, width);
    RenderedPathHalves(template, NextAdrNumber(names), slug, width);
    var name := Basename(path);
    assert NameStart(name) == 0 by { NameStartAt("", name); assert "" + name == name; }
    assert ParseAdrNumber(name) == ParseAdrNumber(path);
    if name in names {
      HighestBounds(names, name);
    }
  }

  /** While the committed file is listed, later numbers are larger. */
  lemma NumbersIncrease(template: string, number: nat, slug: string, width: nat, later: seq<string>)
    requires number >= 1 && WellPlaced(template) && Separated(template) && '/' !in slug
    requires Basename(RenderAdrPath(template, number, slug, width)) in later
    ensures NextAdrNumber(later) > number
  {
    ParseRendered(template, number, slug, width);
    RenderedPathHalves(template, number, slug, width);
    var name := Basename(RenderAdrPath(template, number, slug, width));
    assert NameStart(name) == 0 by { NameStartAt("", name); assert "" + name == name; }
    assert ParseAdrNumber(name) == Some(number);
    HighestBounds(later, name);
  }

  lemma {:induction false} ReplaceAbsent(s: string, slug: string)
    requires '>' !in s
    ensures ReplaceAll(s, SLUG_TOKEN, slug) == s
  {
    PrefixElements(SLUG_TOKEN, s);
    assert SLUG_TOKEN[5] == '>';
    if s != [] {
      ReplaceAbsent(s[1..], slug);
    }
  }

  lemma TokenInFront(a: string, tail: string)
    requires '>' !in tail
    ensures SLUG_TOKEN <= a + tail <==> SLUG_TOKEN <= a
  {
    var s := a + tail;
    assert |SLUG_TOKEN| == 6 && SLUG_TOKEN[5] == '>';
    if SLUG_TOKEN <= s {
      assert s[5] == '>' && s[..6] == SLUG_TOKEN;
      assert |a| > 5;
    }
  }

  /** No occurrence of the token reaches into a tail without its last character. */
  lemma {:induction false} ReplaceKeepsTail(a: string, tail: string, slug: string)
    requires '>' !in tail
    ensures ReplaceAll(a + tail, SLUG_TOKEN, slug) == ReplaceAll(a, SLUG_TOKEN, slug) + tail
    decreases |a|
  {
    var s := a + tail;
    TokenInFront(a, tail);
    if a == [] {
      assert s == tail;
      ReplaceAbsent(tail, slug);
    } else if SLUG_TOKEN <= a {
      assert s[6..] == a[6..] + tail;
      ReplaceKeepsTail(a[6..], tail, slug);
    } else {
      assert s[1..] == a[1..] + tail;
      ReplaceKeepsTail(a[1..], tail, slug);
    }
  }

  /** A token between two texts that share no character with its ends. */
  lemma ReplaceBetween(a: string, b: string, slug: string)
    requires '<' !in a && '>' !in b
    ensures ReplaceAll(a + SLUG_TOKEN + b, SLUG_TOKEN, slug) == a + slug + b
  {
    ReplaceKeepsTail(a + SLUG_TOKEN, b, slug);
    ReplaceAtEnd(a, slug);
  }

  lemma {:induction false} ReplaceAtEnd(a: string, slug: string)
    requires '<' !in a
    ensures ReplaceAll(a + SLUG_TOKEN, SLUG_TOKEN, slug) == a + slug
  {
    var s := a + SLUG_TOKEN;
    if a == "" {
      assert s == SLUG_TOKEN && s[|SLUG_TOKEN|..] == [];
    } else {
      PrefixElements(SLUG_TOKEN, s);
      assert SLUG_TOKEN[0] == '<' && s[0] == a[0];
      assert s[1..] == a[1..] + SLUG_TOKEN;
      ReplaceAtEnd(a[1..], slug);
    }
  }

  /** Python's `name.endswith(".md")`. */
  predicate IsMarkdown(name: string) {
    EndsWith(name, ".md")
  }

  /** Templates that end in `.md` render to names that end in `.md`. */
  lemma RenderedIsMarkdown(template: string, number: nat, slug: string, width: nat)
    requires WellPlaced(template) && IsMarkdown(template)
    ensures IsMarkdown(RenderedName(template, number, slug, width))
  {
    var p := NameStart(template);
    var name := template[p..];
    TokenStartAtN(template);
    MarkdownTail(template, p);
    AfterRunKeepsSuffix(name);
    FilledTailIsMarkdown(Number(number, width), AfterRun(name), slug);
  }

  lemma FilledTailIsMarkdown(digits: string, tail: string, slug: string)
    requires IsMarkdown(tail)
    ensures IsMarkdown(digits + ReplaceAll(tail, SLUG_TOKEN, slug))
  {
    var body := tail[..|tail| - 3];
    assert tail == body + ".md";
    ReplaceKeepsTail(body, ".md", slug);
    var whole := digits + ReplaceAll(body, SLUG_TOKEN, slug) + ".md";
    assert digits + (ReplaceAll(body, SLUG_TOKEN, slug) + ".md") == whole;
    assert whole[|whole| - 3..] == ".md";
  }

  lemma MarkdownTail(s: string, p: nat)
    requires p < |s| && s[p] == 'N' && IsMarkdown(s)
    ensures IsMarkdown(s[p..])
  {
    var n := |s| - 3;
    assert s[n..] == ".md";
    assert forall k :: n <= k < |s| ==> s[k] == s[n..][k - n] && s[k] != 'N';
    assert s[p..][n - p..] == s[n..];
  }

  lemma {:induction false} AfterRunKeepsSuffix(s: string)
    requires IsMarkdown(s)
    ensures IsMarkdown(AfterRun(s))
  {
    if s[0] == 'N' {
      MarkdownAfterN(s);
      AfterRunKeepsSuffix(s[1..]);
    }
  }

  lemma MarkdownAfterN(s: string)
    requires IsMarkdown(s) && s[0] == 'N'
    ensures IsMarkdown(s[1..])
  {
    assert s[|s| - 3] == s[|s| - 3..][0] == '.';
    assert s[1..][|s| - 4..] == s[|s| - 3..];
  }

  // ------------------------------------------------------------------ decision markers

  const MARKER_LABEL := "livingadr_decision_id"

  function DecisionMarker(id: string): string {
    "<!-- " + MARKER_LABEL + ": " + id + " -->"
  }

  /** `embed_decision_marker`. */
  function EmbedMarker(markdown: string, id: string): string {
    if Contains(markdown, DecisionMarker(id)) then markdown else DecisionMarker(id) + "\n" + markdown
  }

  /** What `find_file_with_decision_marker` searches for. */
  function Needle(id: string): string {
    MARKER_LABEL + ": " + id
  }

  predicate Carries(content: string, id: string) {
    Contains(content, Needle(id))
  }

  /** Embedding adds one comment line in front, or nothing when the line is there already. */
  lemma EmbeddedKeepsTheText(markdown: string, id: string)
    ensures var line := "<!-- livingadr_decision_id: " + id + " -->";
      EmbedMarker(markdown, id) == if Contains(markdown, line) then markdown else line + "\n" + markdown
  {
    MarkerLine(id);
  }

  lemma MarkerLine(id: string)
    ensures DecisionMarker(id) == "<!-- livingadr_decision_id: " + id + " -->"
  {
    assert "<!-- " + MARKER_LABEL + ": " == "<!-- livingadr_decision_id: ";
  }

  lemma EmbeddedCarries(markdown: string, id: string)
    ensures Carries(EmbedMarker(markdown, id), id)
    ensures EmbedMarker(EmbedMarker(markdown, id), id) == EmbedMarker(markdown, id)
  {
    var marker := DecisionMarker(id);
    if Contains(markdown, marker) {
      ContainsAt(markdown, marker);
      var i :| 0 <= i <= |markdown| && marker <= markdown[i..];
      assert marker[5..] == Needle(id) + " -->";
      assert markdown[i + 5..] == markdown[i..][5..];
      assert Needle(id) <= markdown[i + 5..];
      ContainsWitness(markdown, Needle(id), i + 5);
    } else {
      ContainsIn("<!-- ", Needle(id), " -->" + "\n" + markdown);
      assert "<!-- " + Needle(id) + (" -->" + "\n" + markdown) == marker + "\n" + markdown;
      ContainsIn("", marker, "\n" + markdown);
      assert "" + marker + ("\n" + markdown) == marker + "\n" + markdown;
    }
  }

  /** A pattern without a newline lies on one side of it. */
  lemma {:induction false} ContainsAcrossLines(a: string, b: string, p: string)
    requires '\n' !in p && p != []
    ensures Contains(a + "\n" + b, p) <==> Contains(a, p) || Contains(b, p)
  {
    var s := a + "\n" + b;
    PrefixElements(p, s);
    assert s[|a|] == '\n';
    assert p <= s <==> p <= a;
    if a == [] {
      assert s[1..] == b;
    } else {
      assert s[1..] == a[1..] + "\n" + b;
      ContainsAcrossLines(a[1..], b, p);
    }
  }

  /** What stands before the id in a marker line. */
  const MARKER_HEAD := "<!-- livingadr_decision_id: "

  lemma MarkerParts(id: string, tail: string)
    ensures DecisionMarker(id) + tail == MARKER_HEAD + (id + " -->" + tail)
    ensures Needle(id) == MARKER_HEAD[5..] + id && Needle(id)[0] == 'l'
  {
    assert MARKER_HEAD == "<!-- " + (MARKER_LABEL + ": ");
    assert MARKER_HEAD[5..] == MARKER_LABEL + ": ";
    assert MARKER_LABEL[0] == 'l';
  }

  lemma HeadHasOneL(i: nat)
    requires i < 28 && MARKER_HEAD[i] == 'l'
    ensures i == 5
  {
  }

  lemma NeedleStartsAt(tail: string, sought: string, i: nat)
    requires i <= |MARKER_HEAD + tail| && Needle(sought) <= (MARKER_HEAD + tail)[i..]
    ensures sought <= tail || Contains(tail, Needle(sought))
  {
    var text, needle := MARKER_HEAD + tail, Needle(sought);
    MarkerParts(sought, "");
    assert text[i..][0] == text[i] == 'l';
    if i < 28 {
      HeadHasOneL(i);
      assert text[5..] == MARKER_HEAD[5..] + tail;
      assert needle[23..] == sought && text[5..][23..] == tail;
      assert needle[23..] <= text[5..][23..];
    } else {
      assert text[i..] == tail[i - 28..];
      ContainsWitness(tail, needle, i - 28);
    }
  }

  lemma Somewhere(text: string, p: string) returns (i: nat)
    requires Contains(text, p)
    ensures i <= |text| && p <= text[i..]
  {
    ContainsAt(text, p);
    i :| 0 <= i <= |text| && p <= text[i..];
  }

  lemma HeadIsMet(tail: string, sought: string)
    requires sought <= tail
    ensures Carries(MARKER_HEAD + tail, sought)
  {
    MarkerParts(sought, "");
    var text := MARKER_HEAD + tail;
    assert text[5..] == MARKER_HEAD[5..] + tail;
    ContainsWitness(text, Needle(sought), 5);
  }

  /** Where a search can meet a text that begins with a marker head: at the head itself or
      behind it. */
  lemma HeadAnswers(tail: string, sought: string)
    ensures Carries(MARKER_HEAD + tail, sought) <==> sought <= tail || Carries(tail, sought)
  {
    var head := MARKER_HEAD;
    if Carries(head + tail, sought) {
      var i := Somewhere(head + tail, Needle(sought));
      NeedleStartsAt(tail, sought, i);
    }
    if sought <= tail {
      HeadIsMet(tail, sought);
    }
    if Carries(tail, sought) {
      ContainsBehind(head, tail, Needle(sought));
    }
  }

  /** One decision's marker line answers another decision's search exactly when the marked id
      with the closing of its line begins with the sought id, or itself holds such a marker:
      for all ids. */
  lemma MarkerAnswers(sought: string, marked: string)
    ensures Carries(DecisionMarker(marked), sought) <==> sought <= marked + " -->" || Carries(marked + " -->", sought)
  {
    MarkerParts(marked, "");
    assert DecisionMarker(marked) + "" == DecisionMarker(marked) && marked + " -->" + "" == marked + " -->";
    HeadAnswers(marked + " -->", sought);
  }

  /** Ids without spaces, colons and newlines, such as UUIDs. */
  predicate PlainId(id: string) {
    ' ' !in id && ':' !in id && '\n' !in id
  }

  /** For plain ids: exactly when the sought id is a prefix of the marked one. */
  lemma PlainMarkerAnswers(sought: string, marked: string)
    requires PlainId(sought) && PlainId(marked)
    ensures Carries(DecisionMarker(marked), sought) <==> sought <= marked
  {
    var tail := marked + " -->";
    MarkerAnswers(sought, marked);
    PrefixElements(sought, tail);
    assert tail[|marked|] == ' ';
    assert sought <= tail ==> forall j :: 0 <= j < |sought| ==> sought[j] == tail[j];
    assert ':' !in " -->";
    assert ':' !in tail;
    assert Needle(sought)[21] == ':';
    NoColonNoNeedle(tail, sought);
  }

  lemma NoColonNoNeedle(text: string, sought: string)
    requires ':' !in text
    ensures !Carries(text, sought)
  {
    ContainsAt(text, Needle(sought));
    assert Needle(sought)[21] == ':';
    forall i | 0 <= i <= |text| ensures !(Needle(sought) <= text[i..]) {
      PrefixElements(Needle(sought), text[i..]);
      assert |text[i..]| > 21 ==> text[i..][21] == text[i + 21];
    }
  }

  /** A published file answers a search exactly when it was left as it was and answers it, or
      when what follows its marker head begins with the sought id or answers it: for all ids
      and texts. */
  lemma PublishedFileAnswers(sought: string, markdown: string, own: string)
    ensures Carries(EmbedMarker(markdown, own), sought)
       <==> if Contains(markdown, DecisionMarker(own)) then Carries(markdown, sought)
            else sought <= own + " -->" + ("\n" + markdown) || Carries(own + " -->" + ("\n" + markdown), sought)
  {
    MarkerParts(own, "\n" + markdown);
    assert DecisionMarker(own) + "\n" + markdown == DecisionMarker(own) + ("\n" + markdown);
    HeadAnswers(own + " -->" + ("\n" + markdown), sought);
  }

  /** For plain ids: exactly when the sought id is a prefix of the file's own id or the text
      itself mentions it. */
  lemma PublishedFileCarries(sought: string, markdown: string, own: string)
    requires PlainId(sought) && PlainId(own)
    ensures Carries(EmbedMarker(markdown, own), sought) <==> sought <= own || Carries(markdown, sought)
  {
    PlainMarkerAnswers(sought, own);
    if Contains(markdown, DecisionMarker(own)) {
      if sought <= own {
        InnerMention(sought, markdown, own);
      }
    } else {
      assert '\n' !in MARKER_LABEL + ": ";
      ContainsAcrossLines(DecisionMarker(own), markdown, Needle(sought));
    }
  }

  lemma InnerMention(sought: string, markdown: string, own: string)
    requires Contains(markdown, DecisionMarker(own)) && sought <= own
    ensures Carries(markdown, sought)
  {
    var marker := DecisionMarker(own);
    ContainsAt(markdown, marker);
    var i :| 0 <= i <= |markdown| && marker <= markdown[i..];
    assert marker[5..] == Needle(own) + " -->";
    assert Needle(sought) <= Needle(own);
    assert markdown[i + 5..] == markdown[i..][5..];
    ContainsWitness(markdown, Needle(sought), i + 5);
  }
}
