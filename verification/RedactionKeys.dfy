/** Which metadata keys are forbidden. */
module RedactionKeys {
  import opened Text
  import opened Redaction

  /** The word stands somewhere in the key, whatever the case of the key. */
  ghost predicate Mentions(key: string, word: string) {
    exists i :: 0 <= i <= |key| && word <= LowerText(key)[i..]
  }

  predicate CodeText(word: string) {
    || word == "diff" || word == "patch" || word == "snippet" || word == "code" || word == "source" || word == "context"
    || word == "comment" || word == "rationale"
  }

  predicate ModelText(word: string) {
    || word == "prompt" || word == "draft" || word == "body" || word == "response" || word == "completion"
    || word == "content" || word == "message" || word == "text"
  }

  predicate Secret(word: string) {
    || word == "secret" || word == "password" || word == "credential" || word == "api_key" || word == "apikey"
    || word == "private_key" || word == "access_token" || word == "token" || word == "auth"
  }

  predicate PersonalData(word: string) {
    word == "email" || word == "phone" || word == "ssn" || word == "personal" || word == "pii"
  }

  /** What repositories may not export. */
  predicate Sensitive(word: string) {
    CodeText(word) || ModelText(word) || Secret(word) || PersonalData(word)
  }

  /** Endings that mark identifiers, counts and other measures. */
  predicate Measure(ending: string) {
    || ending == "_id" || ending == "_count" || ending == "_ms" || ending == "_seconds" || ending == "_role" || ending == "_class"
    || ending == "_type" || ending == "_status" || ending == "_version" || ending == "_rate" || ending == "_days"
    || ending == "_total" || ending == "_hits" || ending == "_misses" || ending == "_score" || ending == "_tokens"
  }

  predicate Plain(key: string) {
    || key == "repository" || key == "repository_key" || key == "outcome" || key == "status" || key == "stage"
    || key == "reason" || key == "reason_code" || key == "count" || key == "found" || key == "name"
  }

  lemma CodeTokens(word: string)
    requires CodeText(word)
    ensures word in FORBIDDEN_KEY_TOKENS
  {
    var t := FORBIDDEN_KEY_TOKENS;
    assert t[0] == "diff" && t[1] == "patch" && t[7] == "snippet" && t[8] == "code" && t[9] == "source" && t[6] == "context";
    assert t[5] == "comment" && t[29] == "rationale";
  }

  lemma ModelTokens(word: string)
    requires ModelText(word)
    ensures word in FORBIDDEN_KEY_TOKENS
  {
    var t := FORBIDDEN_KEY_TOKENS;
    assert t[2] == "prompt" && t[3] == "draft" && t[4] == "body" && t[24] == "response" && t[25] == "completion";
    assert t[26] == "content" && t[27] == "message" && t[28] == "text";
  }

  lemma SecretTokens(word: string)
    requires Secret(word)
    ensures word in FORBIDDEN_KEY_TOKENS
  {
    var t := FORBIDDEN_KEY_TOKENS;
    assert t[10] == "secret" && t[11] == "password" && t[12] == "credential" && t[13] == "api_key" && t[14] == "apikey";
    assert t[15] == "private_key" && t[16] == "access_token" && t[17] == "token" && t[18] == "auth";
  }

  lemma PersonalTokens(word: string)
    requires PersonalData(word)
    ensures word in FORBIDDEN_KEY_TOKENS
  {
    var t := FORBIDDEN_KEY_TOKENS;
    assert t[19] == "email" && t[20] == "phone" && t[21] == "ssn" && t[22] == "personal" && t[23] == "pii";
  }

  lemma EarlyTokens(i: nat)
    requires i < 15
    ensures Sensitive(FORBIDDEN_KEY_TOKENS[i])
  {
  }

  lemma LateTokens(i: nat)
    requires 15 <= i < |FORBIDDEN_KEY_TOKENS|
    ensures Sensitive(FORBIDDEN_KEY_TOKENS[i])
  {
  }

  lemma TokensAreSensitive(word: string)
    ensures word in FORBIDDEN_KEY_TOKENS <==> Sensitive(word)
  {
    if word in FORBIDDEN_KEY_TOKENS {
      var i :| 0 <= i < |FORBIDDEN_KEY_TOKENS| && FORBIDDEN_KEY_TOKENS[i] == word;
      if i < 15 {
        EarlyTokens(i);
      } else {
        LateTokens(i);
      }
    }
    if CodeText(word) {
      CodeTokens(word);
    } else if ModelText(word) {
      ModelTokens(word);
    } else if Secret(word) {
      SecretTokens(word);
    } else if PersonalData(word) {
      PersonalTokens(word);
    }
  }

  lemma SuffixesAreMeasures(ending: string)
    ensures ending in SAFE_KEY_SUFFIXES <==> Measure(ending)
  {
    var t := SAFE_KEY_SUFFIXES;
    assert t[0] == "_id" && t[1] == "_count" && t[2] == "_ms" && t[3] == "_seconds" && t[4] == "_role" && t[5] == "_class";
    assert t[6] == "_type" && t[7] == "_status" && t[8] == "_version" && t[9] == "_rate" && t[10] == "_days" && t[11] == "_total";
    assert t[12] == "_hits" && t[13] == "_misses" && t[14] == "_score" && t[15] == "_tokens" && |t| == 16;
  }

  lemma ExactArePlain(key: string)
    ensures key in SAFE_KEY_EXACT <==> Plain(key)
  {
    var t := SAFE_KEY_EXACT;
    assert t[0] == "repository" && t[1] == "repository_key" && t[2] == "outcome" && t[3] == "status" && t[4] == "stage";
    assert t[5] == "reason" && t[6] == "reason_code" && t[7] == "count" && t[8] == "found" && t[9] == "name" && |t| == 10;
  }

  /** A key is forbidden exactly when it mentions a sensitive word, in any case, and neither is
      one of the plain keys nor ends like a measure. */
  lemma ForbiddenExactly(key: string)
    ensures KeyIsForbidden(key) <==>
      && (exists word :: Sensitive(word) && Mentions(key, word))
      && !Plain(LowerText(key))
      && !(exists head, ending :: Measure(ending) && LowerText(key) == head + ending)
  {
    SafeExactly(key);
    MentionsExactly(key);
  }

  lemma SafeExactly(key: string)
    ensures KeyIsSafeShape(key) <==> Plain(LowerText(key)) || exists head, ending :: Measure(ending) && LowerText(key) == head + ending
  {
    var lower := LowerText(key);
    ExactArePlain(lower);
    if ending: string :| ending in SAFE_KEY_SUFFIXES && EndsWith(lower, ending) {
      SuffixesAreMeasures(ending);
      assert Measure(ending) && lower == lower[..|lower| - |ending|] + ending;
    }
    if head: string, ending: string :| Measure(ending) && lower == head + ending {
      SuffixesAreMeasures(ending);
      assert lower[|lower| - |ending|..] == ending;
      assert ending in SAFE_KEY_SUFFIXES && EndsWith(lower, ending);
    }
  }

  lemma MentionsExactly(key: string)
    ensures (exists token :: token in FORBIDDEN_KEY_TOKENS && Contains(LowerText(key), token))
            <==> exists word :: Sensitive(word) && Mentions(key, word)
  {
    var lower := LowerText(key);
    forall word ensures word in FORBIDDEN_KEY_TOKENS <==> Sensitive(word) {
      TokensAreSensitive(word);
    }
    forall word ensures Contains(lower, word) <==> Mentions(key, word) {
      ContainsAt(lower, word);
    }
  }
}
