/** The prompt-echo guard of the output watch: when does terminal output that
    contains the watched token only redisplay the submitted message?
    (src-tauri/src/control.rs, output_match_is_prompt_echo_only and below.) */
module EchoGuard {
  import opened Common
  import opened EchoText

  /** `content` of a line: the text of its "content" member when the line parses as
      a JSON object that has one. */
  type JsonContent = string -> Option<string>

  // ----- prompt words -----

  predicate IsTrimmedPunctuation(c: char) {
    ('!' <= c <= '/' || ':' <= c <= '@' || '[' <= c <= '`' || '{' <= c <= '~') && c != '_' && c != '-'
  }

  function TrimPunctuation(word: string): (r: string)
    ensures |r| <= |word|
    ensures IsWord(word) && r != "" ==> IsWord(r)
    decreases |word|
  {
    if word == "" then ""
    else if IsTrimmedPunctuation(word[0]) then
      assert IsWord(word) && |word| > 1 ==> IsWord(word[1..]);
      TrimPunctuation(word[1..])
    else if IsTrimmedPunctuation(word[|word| - 1]) then TrimPunctuation(word[..|word| - 1])
    else word
  }

  function TrimmedWords(words: seq<string>): (r: seq<string>)
    requires AreWords(words)
    ensures AreWords(r) && |r| <= |words|
  {
    if words == [] then []
    else
      var word := TrimPunctuation(words[0]);
      assert IsWord(words[0]);
      (if word == "" then [] else [word]) + TrimmedWords(words[1..])
  }

  function PromptWords(text: string): (r: seq<string>)
    ensures AreWords(r)
  {
    TrimmedWords(SplitWhitespace(text))
  }

  // ----- phrase windows -----

  predicate WindowHasToken(words: seq<string>, token: string) {
    exists k :: 0 <= k < |words| && Contains(words[k], token)
  }

  predicate WindowsAgree(candidate: seq<string>, submitted: seq<string>, i: nat, j: nat, length: nat)
    requires i + length <= |candidate| && j + length <= |submitted|
  {
    candidate[i..i + length] == submitted[j..j + length]
  }

  /** A phrase of `length` words with the token in it occurs on both sides. */
  predicate SharePhrase(candidate: seq<string>, submitted: seq<string>, length: nat, token: string) {
    exists i, j ::
      && 0 <= i <= |candidate| - length && 0 <= j <= |submitted| - length
      && WindowsAgree(candidate, submitted, i, j, length)
      && WindowHasToken(candidate[i..i + length], token)
  }

  function MinPhrase(submitted: seq<string>): nat {
    if |submitted| < 3 then |submitted| else 3
  }

  function MaxPhrase(candidate: seq<string>, submitted: seq<string>): nat {
    if |candidate| < |submitted| then |candidate| else |submitted|
  }

  predicate HasPromptFragment(candidate: string, joined: string, token: string) {
    var words, submitted := PromptWords(candidate), PromptWords(joined);
    && Contains(candidate, token)
    && words != [] && |submitted| >= 2
    && |words| >= MinPhrase(submitted)
    && exists length :: MinPhrase(submitted) <= length <= MaxPhrase(words, submitted)
                        && SharePhrase(words, submitted, length, token)
  }

  lemma SubWindow<T>(s: seq<T>, i: nat, length: nat, o: nat, shorter: nat)
    requires i + length <= |s| && o + shorter <= length
    ensures s[i..i + length][o..o + shorter] == s[i + o..i + o + shorter]
  {
    var window := s[i..i + length];
    var left, right := window[o..o + shorter], s[i + o..i + o + shorter];
    forall k | 0 <= k < |left|
      ensures left[k] == right[k]
    {
      assert left[k] == window[o + k] == s[i + o + k];
    }
  }

  /** A shared phrase with the token in it has a shared phrase of any smaller
      length with the token in it. */
  lemma PhraseShrinks(candidate: seq<string>, submitted: seq<string>, length: nat, shorter: nat, token: string)
    requires 0 < shorter <= length && SharePhrase(candidate, submitted, length, token)
    ensures SharePhrase(candidate, submitted, shorter, token)
  {
    var i, j :| && 0 <= i <= |candidate| - length && 0 <= j <= |submitted| - length
                && WindowsAgree(candidate, submitted, i, j, length)
                && WindowHasToken(candidate[i..i + length], token);
    var window := candidate[i..i + length];
    var k :| 0 <= k < length && Contains(window[k], token);
    var o := if k <= length - shorter then k else length - shorter;
    SubWindow(candidate, i, length, o, shorter);
    SubWindow(submitted, j, length, o, shorter);
    assert Contains(window[o..o + shorter][k - o], token);
    assert WindowsAgree(candidate, submitted, i + o, j + o, shorter);
  }

  /** Scanning every phrase length finds exactly what the minimum length finds. */
  lemma ScanIsMinimumScan(candidate: string, joined: string, token: string)
    ensures HasPromptFragment(candidate, joined, token)
       <==> (&& Contains(candidate, token)
             && |PromptWords(joined)| >= 2
             && SharePhrase(PromptWords(candidate), PromptWords(joined), MinPhrase(PromptWords(joined)), token))
  {
    var words, submitted := PromptWords(candidate), PromptWords(joined);
    if HasPromptFragment(candidate, joined, token) {
      var length :| MinPhrase(submitted) <= length <= MaxPhrase(words, submitted)
                    && SharePhrase(words, submitted, length, token);
      PhraseShrinks(words, submitted, length, MinPhrase(submitted), token);
    }
  }

  // ----- candidates -----

  predicate StartsWith(s: string, prefix: string) {
    |prefix| <= |s| && s[..|prefix|] == prefix
  }

  /** The text after the first ": ", if there is one. */
  function AfterColon(s: string): (r: Option<string>)
    ensures r.Some? ==> |r.value| < |s| && s[|s| - |r.value|..] == r.value
  {
    if StartsWith(s, ": ") then Some(s[2..])
    else if s == "" then None
    else
      var rest := AfterColon(s[1..]);
      assert rest.Some? ==> s[|s| - |rest.value|..] == s[1..][|s[1..]| - |rest.value|..];
      rest
  }

  /** "From sender: text" becomes "text". */
  function StripOrigin(line: string): (r: string)
    ensures |r| <= |line| && line[|line| - |r|..] == r
  {
    if StartsWith(line, "From ") then
      match AfterColon(line[5..])
      case Some(rest) =>
        assert line[|line| - |rest|..] == line[5..][|line[5..]| - |rest|..];
        rest
      case None => line
    else line
  }

  function ContentCandidates(line: string, json: JsonContent): seq<string> {
    match json(line)
    case Some(content) =>
      var normalized := Join(SplitWhitespace(content));
      [normalized, StripOrigin(normalized)]
    case None => []
  }

  /** Sorting and removing duplicates does not matter to a search for any match. */
  function Candidates(line: string, json: JsonContent): seq<string> {
    [line, StripOrigin(line)] + ContentCandidates(line, json)
  }

  predicate CandidateEchoes(candidate: string, joined: string, token: string) {
    || (Contains(joined, candidate) && !(candidate == token && joined != token))
    || HasPromptFragment(candidate, joined, token)
  }

  predicate AnyEchoes(candidates: seq<string>, joined: string, token: string) {
    exists k :: 0 <= k < |candidates| && CandidateEchoes(candidates[k], joined, token)
  }

  predicate LineEchoes(line: string, joined: string, token: string, json: JsonContent) {
    AnyEchoes(Candidates(line, json), joined, token)
  }

  // ----- the guard -----

  ghost predicate SomeLineHas(lines: seq<string>, token: string) {
    exists k :: 0 <= k < |lines| && Contains(lines[k], token)
  }

  ghost predicate TokenLinesEcho(lines: seq<string>, joined: string, token: string, json: JsonContent) {
    forall k :: 0 <= k < |lines| && Contains(lines[k], token) ==> LineEchoes(lines[k], joined, token, json)
  }

  /** The match is suppressed: some normalised line holds the token, and every such
      line echoes the submitted message. */
  ghost predicate Suppressed(token: string, output: string, submitted: Option<string>, json: JsonContent) {
    && submitted.Some?
    && token != "" && Contains(submitted.value, token)
    && Join(EchoLines(submitted.value)) != ""
    && SomeLineHas(EchoLines(output), token)
    && TokenLinesEcho(EchoLines(output), Join(EchoLines(submitted.value)), token, json)
  }

  method OutputMatchIsPromptEchoOnly(token: string, output: string, submitted: Option<string>, json: JsonContent)
    returns (echoOnly: bool)
    ensures echoOnly <==> Suppressed(token, output, submitted, json)
  {
    hide LineEchoes, Contains, EchoLines, Join;
    if submitted.None? {
      return false;
    }
    if token == "" || !Contains(submitted.value, token) {
      return false;
    }
    var lines := EchoLines(output);
    if lines == [] {
      return false;
    }
    var joined := Join(EchoLines(submitted.value));
    if joined == "" {
      return false;
    }
    echoOnly := false;
    for k := 0 to |lines|
      invariant echoOnly <==> exists i :: 0 <= i < k && Contains(lines[i], token)
      invariant forall i :: 0 <= i < k && Contains(lines[i], token) ==> LineEchoes(lines[i], joined, token, json)
    {
      if Contains(lines[k], token) {
        echoOnly := true;
        if !LineEchoes(lines[k], joined, token, json) {
          return false;
        }
      }
    }
  }

  // ----- redisplays -----

  /** What lets a line that is exactly the token count as an echo although the
      message says more: an origin prefix or a JSON body inside the token itself. */
  predicate BareTokenHasOtherReading(token: string, joined: string, json: JsonContent) {
    StripOrigin(token) != token || AnyEchoes(ContentCandidates(token, json), joined, token)
  }

  lemma SharedPhraseHasTokenWord(words: seq<string>, submitted: seq<string>, length: nat, token: string)
    requires SharePhrase(words, submitted, length, token)
    ensures WindowHasToken(words, token)
  {
    var i, j :| && 0 <= i <= |words| - length && 0 <= j <= |submitted| - length
                && WindowsAgree(words, submitted, i, j, length)
                && WindowHasToken(words[i..i + length], token);
    var k :| 0 <= k < length && Contains(words[i..i + length][k], token);
    assert Contains(words[i + k], token);
  }

  /** A fragment match needs two candidate words and a token within one word. */
  lemma FragmentIsSeveralWords(candidate: string, joined: string, token: string)
    requires HasPromptFragment(candidate, joined, token) && token != ""
    ensures |PromptWords(candidate)| >= 2 && IsWord(token)
  {
    hide PromptWords, SharePhrase;
    var words, submitted := PromptWords(candidate), PromptWords(joined);
    var length :| MinPhrase(submitted) <= length <= MaxPhrase(words, submitted)
                  && SharePhrase(words, submitted, length, token);
    SharedPhraseHasTokenWord(words, submitted, length, token);
    var k :| 0 <= k < |words| && Contains(words[k], token);
    assert IsWord(words[k]);
    PartOfWordIsWord(words[k], token);
  }

  lemma PartOfWordIsWord(word: string, part: string)
    requires IsWord(word) && Contains(word, part) && part != ""
    ensures IsWord(part)
  {
    var i :| 0 <= i <= |word| - |part| && At(word, i, part);
    forall k | 0 <= k < |part|
      ensures !IsWhitespace(part[k])
    {
      assert word[i + k] == word[i..i + |part|][k];
    }
  }

  /** A candidate that is the bare token has no prompt fragment. */
  lemma BareTokenHasNoFragment(token: string, joined: string)
    requires token != ""
    ensures !HasPromptFragment(token, joined, token)
  {
    if HasPromptFragment(token, joined, token) {
      FragmentIsSeveralWords(token, joined, token);
      WordSplitsAlone(token);
    }
  }

  lemma WordSplitsAlone(word: string)
    requires IsWord(word)
    ensures |SplitWhitespace(word)| == 1
  {
    WordLengthIs(word, |word|);
    assert word[|word|..] == "";
  }

  lemma AnyEchoesOfConcat(left: seq<string>, right: seq<string>, joined: string, token: string)
    ensures AnyEchoes(left + right, joined, token)
       <==> (AnyEchoes(left, joined, token) || AnyEchoes(right, joined, token))
  {
    hide CandidateEchoes;
    if AnyEchoes(left, joined, token) {
      var k :| 0 <= k < |left| && CandidateEchoes(left[k], joined, token);
      assert (left + right)[k] == left[k];
    }
    if AnyEchoes(right, joined, token) {
      var k :| 0 <= k < |right| && CandidateEchoes(right[k], joined, token);
      assert (left + right)[|left| + k] == right[k];
    }
  }

  lemma AnyEchoesOfPair(first: string, second: string, joined: string, token: string)
    ensures AnyEchoes([first, second], joined, token)
       <==> (CandidateEchoes(first, joined, token) || CandidateEchoes(second, joined, token))
  {
    hide CandidateEchoes;
    var pair := [first, second];
    assert pair[0] == first && pair[1] == second;
  }

  /** When a normalised line of the message, shown again, echoes the message. */
  lemma RedisplayedLineEchoesIff(line: string, joined: string, token: string, json: JsonContent)
    requires Contains(joined, line) && token != ""
    ensures LineEchoes(line, joined, token, json)
       <==> (line != token || joined == token || BareTokenHasOtherReading(token, joined, json))
  {
    hide HasPromptFragment, ContentCandidates, Contains, StripOrigin, AnyEchoes;
    AnyEchoesOfConcat([line, StripOrigin(line)], ContentCandidates(line, json), joined, token);
    AnyEchoesOfPair(line, StripOrigin(line), joined, token);
    BareTokenHasNoFragment(token, joined);
    SuffixIsContained(line, StripOrigin(line));
    ContainsIsTransitive(joined, line, StripOrigin(line));
  }

  lemma SuffixIsContained(s: string, part: string)
    requires |part| <= |s| && s[|s| - |part|..] == part
    ensures Contains(s, part)
  {
    assert At(s, |s| - |part|, part);
  }

  /** A verbatim redisplay of the submitted message is suppressed iff the message
      and one of its normalised lines hold the token, and no normalised line is the
      bare token (unless the whole message is, or the token has another reading). */
  lemma VerbatimRedisplayIsSuppressedIff(message: string, token: string, json: JsonContent)
    ensures var lines := EchoLines(message);
            Suppressed(token, message, Some(message), json)
            <==> (&& token != "" && Contains(message, token) && SomeLineHas(lines, token)
                  && (token !in lines || Join(lines) == token || BareTokenHasOtherReading(token, Join(lines), json)))
  {
    var lines := EchoLines(message);
    RedisplayIsSuppressedIff(message, message, token, json);
  }

  /** The same for any output with the same normalised lines. */
  lemma RedisplayIsSuppressedIff(output: string, message: string, token: string, json: JsonContent)
    requires EchoLines(output) == EchoLines(message)
    ensures var lines := EchoLines(message);
            Suppressed(token, output, Some(message), json)
            <==> (&& token != "" && Contains(message, token) && SomeLineHas(lines, token)
                  && (token !in lines || Join(lines) == token || BareTokenHasOtherReading(token, Join(lines), json)))
  {
    hide LineEchoes, BareTokenHasOtherReading, EchoLines;
    var lines := EchoLines(message);
    if token != "" && SomeLineHas(lines, token) {
      var k :| 0 <= k < |lines| && Contains(lines[k], token);
      JoinContains(lines, k);
      ContainsIsTransitive(Join(lines), lines[k], token);
      assert Join(lines) != "";
      forall i | 0 <= i < |lines| && Contains(lines[i], token)
        ensures LineEchoes(lines[i], Join(lines), token, json)
                <==> (lines[i] != token || Join(lines) == token || BareTokenHasOtherReading(token, Join(lines), json))
      {
        JoinContains(lines, i);
        RedisplayedLineEchoesIff(lines[i], Join(lines), token, json);
      }
      if token in lines {
        var i :| 0 <= i < |lines| && lines[i] == token;
        assert At(token, 0, token);
        assert Contains(lines[i], token);
      }
    }
  }

  /** A redisplay behind prompt decoration, line by line, has the same normalised
      lines as the message, so it is suppressed in exactly the same cases. */
  lemma {:induction false} DecoratedLinesNormalizeAlike(decorations: seq<string>, lines: seq<string>)
    requires |decorations| == |lines|
    requires forall k, i :: 0 <= k < |lines| && 0 <= i < |decorations[k]| ==> IsPromptPrefixChar(decorations[k][i])
    ensures NormalizedLines(Decorated(decorations, lines)) == NormalizedLines(lines)
  {
    hide NormalizedLine;
    if lines != [] {
      DecorationIsDropped(decorations[0], lines[0]);
      DecoratedLinesNormalizeAlike(decorations[1..], lines[1..]);
      assert Decorated(decorations, lines)[1..] == Decorated(decorations[1..], lines[1..]);
    }
  }

  function Decorated(decorations: seq<string>, lines: seq<string>): (r: seq<string>)
    requires |decorations| == |lines|
    ensures |r| == |lines|
    ensures forall k :: 0 <= k < |r| ==> r[k] == decorations[k] + lines[k]
  {
    seq(|lines|, k requires 0 <= k < |lines| => decorations[k] + lines[k])
  }

  lemma DecoratedRedisplayIsSuppressedIff(decorations: seq<string>, lines: seq<string>, token: string, json: JsonContent)
    requires |decorations| == |lines|
    requires forall k, i :: 0 <= k < |lines| && 0 <= i < |decorations[k]| ==> IsPromptPrefixChar(decorations[k][i])
    requires forall k :: 0 <= k < |lines| ==> IsPlain(lines[k]) && IsPlain(decorations[k])
    ensures Suppressed(token, Printed(Decorated(decorations, lines)), Some(Printed(lines)), json)
       <==> Suppressed(token, Printed(lines), Some(Printed(lines)), json)
  {
    hide EchoLines, Suppressed, BareTokenHasOtherReading;
    forall k | 0 <= k < |lines|
      ensures IsPlain(Decorated(decorations, lines)[k])
    {
      assert IsPlain(lines[k]) && IsPlain(decorations[k]);
    }
    EchoLinesOfPrinted(lines);
    EchoLinesOfPrinted(Decorated(decorations, lines));
    DecoratedLinesNormalizeAlike(decorations, lines);
    RedisplayIsSuppressedIff(Printed(Decorated(decorations, lines)), Printed(lines), token, json);
    VerbatimRedisplayIsSuppressedIff(Printed(lines), token, json);
  }
}
