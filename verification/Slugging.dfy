/** ADR title slugs (publication/slugging.py). Unicode normalisation to ASCII happens before
    these functions: `title` is the ASCII text that is left of it. */
module Slugging {
  import opened Text

  predicate SlugChar(c: char) {
    'a' <= c <= 'z' || '0' <= c <= '9'
  }

  function SkipRun(s: string): (r: string)
    ensures |r| <= |s|
    ensures r != [] ==> SlugChar(r[0])
  {
    if s != [] && !SlugChar(s[0]) then SkipRun(s[1..]) else s
  }

  /** Every run of other characters becomes one hyphen. */
  function Collapse(s: string): string
    decreases |s|
  {
    if s == [] then []
    else if SlugChar(s[0]) then [s[0]] + Collapse(s[1..])
    else "-" + Collapse(SkipRun(s[1..]))
  }

  function StripLeft(s: string): string {
    if s != [] && s[0] == '-' then StripLeft(s[1..]) else s
  }

  function StripRight(s: string): string {
    if s != [] && s[|s| - 1] == '-' then StripRight(s[..|s| - 1]) else s
  }

  /** The slug before the length cap. */
  function Full(title: string): string {
    StripRight(StripLeft(Collapse(LowerText(title))))
  }

  /** The slug before the fallback is considered. */
  function Trimmed(title: string, maxLength: nat): string {
    var slug := Full(title);
    if |slug| > maxLength then StripRight(slug[..maxLength]) else slug
  }

  function Slugify(title: string, fallbackId: string, maxLength: nat): string {
    if Trimmed(title, maxLength) != "" then Trimmed(title, maxLength)
    else if fallbackId != "" then "adr-" + fallbackId
    else "adr"
  }

  // ------------------------------------------------------------------ the shape of a slug

  /** Lower-case letters, digits and single hyphens. */
  ghost predicate Clean(s: string) {
    && (forall i :: 0 <= i < |s| ==> SlugChar(s[i]) || s[i] == '-')
    && (forall i :: 0 < i < |s| ==> s[i - 1] != '-' || s[i] != '-')
  }

  ghost predicate IsSlug(s: string) {
    Clean(s) && s != "" && s[0] != '-' && s[|s| - 1] != '-'
  }

  lemma {:induction false} CollapseClean(s: string)
    ensures Clean(Collapse(s))
    ensures Collapse(s) != [] && Collapse(s)[0] == '-' ==> !SlugChar(s[0])
    decreases |s|
  {
    if s != [] {
      CollapseClean(if SlugChar(s[0]) then s[1..] else SkipRun(s[1..]));
    }
  }

  lemma {:induction false} StripLeftClean(s: string)
    requires Clean(s)
    ensures Clean(StripLeft(s)) && (StripLeft(s) != [] ==> StripLeft(s)[0] != '-')
    ensures StripLeft(s) == [] <==> OnlyHyphens(s)
  {
    if s != [] {
      assert s == [s[0]] + s[1..];
      HyphensCons(s[0], s[1..]);
      if s[0] == '-' {
        assert forall i :: 0 <= i < |s[1..]| ==> s[1..][i] == s[i + 1];
        StripLeftClean(s[1..]);
      }
    }
  }

  lemma {:induction false} StripRightClean(s: string)
    requires Clean(s)
    ensures StripRight(s) <= s && Clean(StripRight(s))
    ensures StripRight(s) != [] ==> StripRight(s)[|StripRight(s)| - 1] != '-'
    ensures s != [] && s[0] != '-' ==> StripRight(s) != []
  {
    if s != [] && s[|s| - 1] == '-' {
      StripRightClean(s[..|s| - 1]);
    }
  }

  ghost predicate OnlyHyphens(s: string) {
    forall c :: c in s ==> c == '-'
  }

  ghost predicate NoneUsed(s: string) {
    forall c :: c in s ==> !SlugChar(c)
  }

  lemma ConsMembers(x: char, s: string)
    ensures forall c :: c in [x] + s <==> c == x || c in s
  {
  }

  lemma HyphensCons(x: char, s: string)
    ensures OnlyHyphens([x] + s) <==> x == '-' && OnlyHyphens(s)
  {
    ConsMembers(x, s);
    if OnlyHyphens([x] + s) {
      assert x in [x] + s;
    }
  }

  lemma UsedCons(x: char, s: string)
    ensures NoneUsed([x] + s) <==> !SlugChar(x) && NoneUsed(s)
  {
    ConsMembers(x, s);
    if NoneUsed([x] + s) {
      assert x in [x] + s;
    }
  }

  lemma {:induction false} CollapseAllHyphens(s: string)
    ensures OnlyHyphens(Collapse(s)) <==> NoneUsed(s)
    decreases |s|
  {
    if s != [] {
      assert s == [s[0]] + s[1..];
      UsedCons(s[0], s[1..]);
      if SlugChar(s[0]) {
        HyphensCons(s[0], Collapse(s[1..]));
      } else {
        SkipRunKeeps(s[1..]);
        CollapseAllHyphens(SkipRun(s[1..]));
        HyphensCons('-', Collapse(SkipRun(s[1..])));
      }
    }
  }

  lemma {:induction false} SkipRunKeeps(s: string)
    ensures NoneUsed(SkipRun(s)) <==> NoneUsed(s)
  {
    if s != [] && !SlugChar(s[0]) {
      assert s == [s[0]] + s[1..];
      UsedCons(s[0], s[1..]);
      SkipRunKeeps(s[1..]);
    }
  }

  predicate Usable(c: char) {
    SlugChar(Lower(c))
  }

  lemma LowerUsed(title: string)
    ensures NoneUsed(LowerText(title)) <==> forall c :: c in title ==> !Usable(c)
  {
    var lower := LowerText(title);
    assert forall i :: 0 <= i < |title| ==> lower[i] == Lower(title[i]);
    if NoneUsed(lower) {
      forall c | c in title ensures !Usable(c) {
        var i :| 0 <= i < |title| && title[i] == c;
        assert lower[i] in lower;
      }
    }
    if forall c :: c in title ==> !Usable(c) {
      forall c | c in lower ensures !SlugChar(c) {
        var i :| 0 <= i < |lower| && lower[i] == c;
        assert title[i] in title;
      }
    }
  }

  lemma FullShape(title: string)
    ensures Full(title) != "" ==> IsSlug(Full(title))
    ensures Full(title) == "" <==> forall c :: c in title ==> !Usable(c)
  {
    var lower := LowerText(title);
    var left := StripLeft(Collapse(lower));
    CollapseClean(lower);
    StripLeftClean(Collapse(lower));
    StripRightClean(left);
    CollapseAllHyphens(lower);
    LowerUsed(title);
    assert Full(title) != [] ==> Full(title)[0] == left[0];
  }

  /** What a title yields: a slug within the length cap, or nothing exactly when no character
      is usable or the cap is zero. */
  lemma TrimmedShape(title: string, maxLength: nat)
    ensures |Trimmed(title, maxLength)| <= maxLength
    ensures Trimmed(title, maxLength) != "" ==> IsSlug(Trimmed(title, maxLength))
    ensures Trimmed(title, maxLength) == "" <==> maxLength == 0 || forall c :: c in title ==> !Usable(c)
  {
    FullShape(title);
    var slug := Full(title);
    if |slug| > maxLength {
      assert Clean(slug[..maxLength]);
      StripRightClean(slug[..maxLength]);
    }
  }

  lemma {:induction false} CollapseFixed(s: string)
    requires Clean(s) && (s != [] ==> s[|s| - 1] != '-')
    ensures Collapse(s) == s
  {
    if s != [] {
      assert forall i :: 0 <= i < |s[1..]| ==> s[1..][i] == s[i + 1];
      CollapseFixed(s[1..]);
      assert s == [s[0]] + s[1..];
    }
  }

  lemma LowerFixed(s: string)
    requires Clean(s)
    ensures LowerText(s) == s
  {
  }

  /** Making a slug of a slug changes nothing. */
  lemma SlugifyIdempotent(title: string, fallbackId: string, maxLength: nat)
    requires Trimmed(title, maxLength) != ""
    ensures Slugify(Slugify(title, fallbackId, maxLength), fallbackId, maxLength) == Slugify(title, fallbackId, maxLength)
  {
    TrimmedShape(title, maxLength);
    var slug := Trimmed(title, maxLength);
    LowerFixed(slug);
    CollapseFixed(slug);
  }

  /** A path separator can enter a file name only through the fallback id. */
  lemma SlugHasNoSlash(title: string, fallbackId: string, maxLength: nat)
    ensures '/' in Slugify(title, fallbackId, maxLength) <==> Trimmed(title, maxLength) == "" && '/' in fallbackId
  {
    TrimmedShape(title, maxLength);
    var slug := Trimmed(title, maxLength);
    if slug != "" {
      assert forall i :: 0 <= i < |slug| ==> slug[i] != '/';
    } else if fallbackId != "" {
      assert '/' !in "adr-";
    }
  }

  // ------------------------------------------------------------------ the words of a title

  /** The usable characters at the start, lower-cased. */
  function FirstRun(title: string): (run: string)
    ensures |run| <= |title|
  {
    if title != "" && Usable(title[0]) then [Lower(title[0])] + FirstRun(title[1..]) else ""
  }

  /** The maximal runs of usable characters, in order and lower-cased. */
  function Words(title: string): seq<string>
    decreases |title|
  {
    if title == "" then []
    else if !Usable(title[0]) then Words(title[1..])
    else [FirstRun(title)] + Words(title[|FirstRun(title)|..])
  }

  function Hyphenated(words: seq<string>): string {
    if words == [] then ""
    else if |words| == 1 then words[0]
    else words[0] + "-" + Hyphenated(words[1..])
  }

  /** Which characters are usable, and what lower-casing does to them. */
  lemma UsableExactly(c: char)
    ensures Usable(c) <==> 'a' <= c <= 'z' || 'A' <= c <= 'Z' || '0' <= c <= '9'
    ensures 'A' <= c <= 'Z' ==> 'a' <= Lower(c) <= 'z' && Lower(c) as int - 'a' as int == c as int - 'A' as int
    ensures !('A' <= c <= 'Z') ==> Lower(c) == c
  {
  }

  /** What is left behind the unusable characters at the start. */
  function SkipUnusable(title: string): (rest: string)
    ensures |rest| <= |title|
    ensures rest != "" ==> Usable(rest[0])
  {
    if title != "" && !Usable(title[0]) then SkipUnusable(title[1..]) else title
  }

  lemma LowerStep(title: string)
    requires title != ""
    ensures LowerText(title) == [Lower(title[0])] + LowerText(title[1..])
  {
  }

  lemma {:induction false} SkipsTogether(title: string)
    ensures SkipRun(LowerText(title)) == LowerText(SkipUnusable(title))
    ensures Words(SkipUnusable(title)) == Words(title)
  {
    if title != "" {
      LowerStep(title);
      assert LowerText(title)[1..] == LowerText(title[1..]);
      if !Usable(title[0]) {
        SkipsTogether(title[1..]);
      }
    }
  }

  /** The collapsed form of a title. */
  function Norm(title: string): string {
    Collapse(LowerText(title))
  }

  lemma NormSkip(title: string)
    requires title != "" && !Usable(title[0])
    ensures Norm(title) == "-" + Norm(SkipUnusable(title[1..]))
  {
    LowerStep(title);
    assert LowerText(title)[1..] == LowerText(title[1..]);
    SkipsTogether(title[1..]);
  }

  lemma NormStep(title: string)
    requires title != "" && Usable(title[0])
    ensures Norm(title) == [Lower(title[0])] + Norm(title[1..])
  {
    LowerStep(title);
    assert LowerText(title)[1..] == LowerText(title[1..]);
  }

  lemma {:induction false} FirstRunShape(title: string)
    ensures var run := FirstRun(title);
      && (forall i :: 0 <= i < |run| ==> SlugChar(run[i]))
      && (|run| < |title| ==> !Usable(title[|run|]))
  {
    if title != "" && Usable(title[0]) {
      FirstRunShape(title[1..]);
    }
  }

  lemma {:induction false} NormRun(title: string)
    ensures Norm(title) == FirstRun(title) + Norm(title[|FirstRun(title)|..])
  {
    if title != "" && Usable(title[0]) {
      var run := FirstRun(title[1..]);
      NormStep(title);
      NormRun(title[1..]);
      assert title[1..][|run|..] == title[|run| + 1..];
      assert [Lower(title[0])] + (run + Norm(title[|run| + 1..])) == [Lower(title[0])] + run + Norm(title[|run| + 1..]);
    } else {
      assert title[0..] == title;
    }
  }

  lemma StripRightSlug(s: string)
    requires s == "" || SlugChar(s[|s| - 1])
    ensures StripRight(s) == s
  {
  }

  lemma {:induction false} StripRightBehind(a: string, b: string)
    requires StripRight(b) != ""
    ensures StripRight(a + b) == a + StripRight(b)
  {
    if b[|b| - 1] == '-' {
      assert (a + b)[..|a + b| - 1] == a + b[..|b| - 1];
      StripRightBehind(a, b[..|b| - 1]);
    }
  }

  /** A run, a hyphen and more: stripping keeps the hyphen exactly when more is left. */
  lemma StripJoined(run: string, more: string)
    requires run != "" && SlugChar(run[|run| - 1])
    requires more != "" ==> StripRight(more) != ""
    ensures StripRight(run + ("-" + more)) == if more == "" then run else run + "-" + StripRight(more)
  {
    StripRightSlug(run);
    if more == "" {
      assert (run + "-")[..|run|] == run;
      assert run + ("-" + more) == run + "-";
    } else {
      StripRightBehind(run + "-", more);
      assert run + ("-" + more) == run + "-" + more;
    }
  }

  lemma WordsStep(title: string)
    requires title != "" && Usable(title[0])
    ensures var words := Words(title[|FirstRun(title)|..]);
      Hyphenated(Words(title)) == if words == [] then FirstRun(title) else FirstRun(title) + "-" + Hyphenated(words)
  {
    var words := Words(title[|FirstRun(title)|..]);
    assert ([FirstRun(title)] + words)[1..] == words;
  }

  lemma WordsLeft(title: string)
    requires title != "" && Usable(title[0])
    ensures Words(title) != []
  {
  }

  /** A title that starts with a usable character collapses to its words, but for a hyphen at
      the end. */
  lemma {:induction false} NormIsWords(title: string)
    requires title == "" || Usable(title[0])
    ensures StripRight(Norm(title)) == Hyphenated(Words(title))
    ensures title != "" ==> StripRight(Norm(title)) != ""
    decreases |title|
  {
    if title != "" {
      var run := FirstRun(title);
      var rest := title[|run|..];
      NormRun(title);
      FirstRunShape(title);
      WordsStep(title);
      if rest == "" {
        StripRightSlug(run);
        assert Norm(title) == run;
      } else {
        var next := SkipUnusable(rest[1..]);
        NormSkip(rest);
        SkipsTogether(rest[1..]);
        assert Words(rest) == Words(next);
        NormIsWords(next);
        NormOfNothing(next);
        StripJoined(run, Norm(next));
        if next != "" {
          WordsLeft(next);
        }
      }
    }
  }

  lemma NormOfNothing(title: string)
    requires title == "" || Usable(title[0])
    ensures Norm(title) == "" <==> title == ""
  {
    if title != "" {
      NormStep(title);
    }
  }

  /** A slug is the words of its title with hyphens between them. */
  lemma FullIsWords(title: string)
    ensures Full(title) == Hyphenated(Words(title))
  {
    var next := SkipUnusable(title);
    SkipsTogether(title);
    NormIsWords(next);
    if title != "" && !Usable(title[0]) {
      NormSkip(title);
      assert SkipUnusable(title) == SkipUnusable(title[1..]);
      assert Norm(title)[1..] == Norm(next);
    }
    NormHasNoHyphen(next);
  }

  lemma NormHasNoHyphen(title: string)
    requires title == "" || Usable(title[0])
    ensures StripLeft(Norm(title)) == Norm(title)
  {
    if title != "" {
      NormStep(title);
    }
  }

  /** What a slug is: the words of the title with hyphens between them, cut at the cap and
      without a hyphen at the cut; the ADR id enters only when the title has no word. */
  lemma SlugIsTitleWords(title: string, fallbackId: string, maxLength: nat)
    requires maxLength > 0
    ensures var words := Hyphenated(Words(title)); var slug := Slugify(title, fallbackId, maxLength);
      && (Words(title) == [] <==> forall c :: c in title ==> !Usable(c))
      && (Words(title) != [] && |words| <= maxLength ==> slug == words)
      && (Words(title) != [] && |words| > maxLength ==>
            slug == words[..if words[maxLength - 1] == '-' then maxLength - 1 else maxLength])
      && (Words(title) == [] ==> slug == if fallbackId == "" then "adr" else "adr-" + fallbackId)
  {
    FullIsWords(title);
    FullShape(title);
    TrimmedShape(title, maxLength);
    NoWords(title);
    var words := Hyphenated(Words(title));
    if |words| > maxLength {
      CutOnce(words, maxLength);
    }
  }

  /** Single hyphens: a cut leaves at most one at the end. */
  lemma CutOnce(words: string, maxLength: nat)
    requires IsSlug(words) && 0 < maxLength < |words|
    ensures StripRight(words[..maxLength]) == words[..if words[maxLength - 1] == '-' then maxLength - 1 else maxLength]
  {
    var cut := words[..maxLength];
    assert cut[..|cut| - 1] == words[..maxLength - 1];
    if words[maxLength - 1] == '-' {
      assert maxLength > 1 && words[maxLength - 2] != '-';
    }
  }

  lemma {:induction false} NoWords(title: string)
    ensures Words(title) == [] <==> forall c :: c in title ==> !Usable(c)
  {
    if title != "" {
      assert title == [title[0]] + title[1..];
      ConsMembers(title[0], title[1..]);
      if Usable(title[0]) {
        assert title[0] in title;
      } else {
        NoWords(title[1..]);
      }
    }
  }
}
