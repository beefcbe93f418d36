/** What the prompt-echo guard takes for an echo, in terms of words and characters
    (src-tauri/src/control.rs, normalized_line_is_submitted_prompt_echo and below). */
module EchoReadings {
  import opened Common
  import opened EchoText
  import opened EchoGuard

  // ----- words without punctuation -----

  /** ASCII punctuation by its codes, without '-' (45) and '_' (95). */
  ghost predicate IsMark(c: char) {
    var code := c as int;
    33 <= code <= 44 || 46 <= code <= 47 || 58 <= code <= 64 || 91 <= code <= 94 || code == 96 || 123 <= code <= 126
  }

  ghost predicate AreMarks(s: string) {
    forall i :: 0 <= i < |s| ==> IsMark(s[i])
  }

  /** The word without the marks around it. */
  ghost predicate IsCore(word: string, core: string) {
    exists front, back :: word == front + core + back && IsCoreBetween(front, core, back)
  }

  ghost predicate IsCoreBetween(front: string, core: string, back: string) {
    && AreMarks(front) && AreMarks(back)
    && (core != "" ==> !IsMark(core[0]) && !IsMark(core[|core| - 1]))
  }

  lemma MarksAre(c: char)
    ensures IsTrimmedPunctuation(c) <==> IsMark(c)
  {}

  lemma FrontGrows(word: string, front: string, core: string, back: string)
    requires word != "" && IsMark(word[0]) && word[1..] == front + core + back && IsCoreBetween(front, core, back)
    ensures word == [word[0]] + front + core + back && IsCoreBetween([word[0]] + front, core, back)
  {
    hide IsMark;
    assert word == [word[0]] + word[1..];
  }

  lemma BackGrows(word: string, front: string, core: string, back: string)
    requires word != "" && IsMark(word[|word| - 1]) && word[..|word| - 1] == front + core + back
    requires IsCoreBetween(front, core, back)
    ensures word == front + core + (back + [word[|word| - 1]]) && IsCoreBetween(front, core, back + [word[|word| - 1]])
  {
    hide IsMark;
    assert word == word[..|word| - 1] + [word[|word| - 1]];
  }

  lemma {:induction false} TrimmedIsCore(word: string) returns (front: string, back: string)
    ensures word == front + TrimPunctuation(word) + back && IsCoreBetween(front, TrimPunctuation(word), back)
    decreases |word|
  {
    hide IsMark, IsTrimmedPunctuation, AreMarks;
    if word == "" {
      NothingIsMarked();
      front, back := "", "";
    } else {
      MarksAre(word[0]);
      MarksAre(word[|word| - 1]);
      if IsTrimmedPunctuation(word[0]) {
        front, back := TrimmedIsCore(word[1..]);
        FrontGrows(word, front, TrimPunctuation(word), back);
        front := [word[0]] + front;
      } else if IsTrimmedPunctuation(word[|word| - 1]) {
        front, back := TrimmedIsCore(word[..|word| - 1]);
        BackGrows(word, front, TrimPunctuation(word), back);
        back := back + [word[|word| - 1]];
      } else {
        NothingIsMarked();
        front, back := "", "";
      }
    }
  }

  lemma NothingIsMarked()
    ensures AreMarks("")
  {}

  /** The words between blanks, in order; EchoText.SplitOfJoin says what they are. The
      prompt words are their cores, as far as they have one. */
  ghost predicate AreCores(raw: seq<string>, words: seq<string>)
    decreases |raw|
  {
    if raw == [] then words == []
    else
      exists core :: IsCore(raw[0], core) && StartsWithCore(words, core) && AreCores(raw[1..], AfterCore(words, core))
  }

  ghost predicate StartsWithCore(words: seq<string>, core: string) {
    core != "" ==> words != [] && words[0] == core
  }

  ghost function AfterCore(words: seq<string>, core: string): seq<string>
    requires StartsWithCore(words, core)
  {
    if core == "" then words else words[1..]
  }

  lemma {:induction false} TrimmedWordsAreCores(raw: seq<string>)
    requires AreWords(raw)
    ensures AreCores(raw, TrimmedWords(raw))
  {
    hide IsCore, TrimPunctuation, AreWords;
    if raw != [] {
      AreWordsRest(raw);
      var core := TrimPunctuation(raw[0]);
      var front, back := TrimmedIsCore(raw[0]);
      CoreIs(raw[0], front, core, back);
      TrimmedWordsAreCores(raw[1..]);
      TakeWord(raw, core);
      hide TrimmedWords, StartsWithCore, AfterCore;
    }
  }

  lemma AreWordsRest(raw: seq<string>)
    requires AreWords(raw) && raw != []
    ensures AreWords(raw[1..])
  {}

  lemma TakeWord(raw: seq<string>, core: string)
    requires AreWords(raw) && raw != [] && AreWords(raw[1..]) && core == TrimPunctuation(raw[0])
    ensures StartsWithCore(TrimmedWords(raw), core) && AfterCore(TrimmedWords(raw), core) == TrimmedWords(raw[1..])
  {
    hide TrimPunctuation, AreWords;
    assert core != "" ==> TrimmedWords(raw) == [core] + TrimmedWords(raw[1..]);
  }

  lemma CoreIs(word: string, front: string, core: string, back: string)
    requires word == front + core + back && IsCoreBetween(front, core, back)
    ensures IsCore(word, core)
  {}

  lemma PromptWordsAreCores(text: string)
    ensures AreCores(SplitWhitespace(text), PromptWords(text))
  {
    hide AreCores, TrimmedWords, SplitWhitespace;
    TrimmedWordsAreCores(SplitWhitespace(text));
  }

  // ----- a phrase of the message -----

  ghost predicate OccursAt(words: seq<string>, i: int, phrase: seq<string>) {
    0 <= i <= |words| - |phrase| && words[i..i + |phrase|] == phrase
  }

  /** The words follow each other somewhere. */
  ghost predicate Occurs(words: seq<string>, phrase: seq<string>) {
    exists i :: OccursAt(words, i, phrase)
  }

  ghost predicate HoldsToken(phrase: seq<string>, token: string) {
    exists word :: word in phrase && Contains(word, token)
  }

  /** The text shares a phrase of three words with the message, one of them with the
      token; of a message of two words it shares both. */
  ghost predicate QuotesPhrase(text: string, message: string, token: string) {
    var words, submitted := PromptWords(text), PromptWords(message);
    Contains(text, token) && |submitted| >= 2
    && exists phrase :: IsShared(words, submitted, phrase, token) && |phrase| == if |submitted| == 2 then 2 else 3
  }

  ghost predicate IsShared(words: seq<string>, submitted: seq<string>, phrase: seq<string>, token: string) {
    Occurs(words, phrase) && Occurs(submitted, phrase) && HoldsToken(phrase, token)
  }

  lemma WindowHolds(phrase: seq<string>, token: string)
    ensures WindowHasToken(phrase, token) <==> HoldsToken(phrase, token)
  {
    if k :| 0 <= k < |phrase| && Contains(phrase[k], token) {
      assert phrase[k] in phrase;
    }
  }

  lemma SharedOccurs(words: seq<string>, submitted: seq<string>, length: nat, token: string)
    requires SharePhrase(words, submitted, length, token)
    ensures exists phrase :: IsShared(words, submitted, phrase, token) && |phrase| == length
  {
    hide HoldsToken, WindowHasToken;
    var i, j :| && 0 <= i <= |words| - length && 0 <= j <= |submitted| - length
                && WindowsAgree(words, submitted, i, j, length)
                && WindowHasToken(words[i..i + length], token);
    var phrase := words[i..i + length];
    WindowHolds(phrase, token);
    assert OccursAt(words, i, phrase) && OccursAt(submitted, j, phrase);
    assert IsShared(words, submitted, phrase, token) && |phrase| == length;
  }

  lemma OccursShared(words: seq<string>, submitted: seq<string>, phrase: seq<string>, token: string)
    requires IsShared(words, submitted, phrase, token)
    ensures SharePhrase(words, submitted, |phrase|, token)
  {
    hide HoldsToken, WindowHasToken;
    var i :| OccursAt(words, i, phrase);
    var j :| OccursAt(submitted, j, phrase);
    WindowHolds(phrase, token);
    assert WindowsAgree(words, submitted, i, j, |phrase|);
  }

  lemma PhraseIsShared(words: seq<string>, submitted: seq<string>, length: nat, token: string)
    ensures SharePhrase(words, submitted, length, token)
       <==> exists phrase :: IsShared(words, submitted, phrase, token) && |phrase| == length
  {
    hide IsShared, SharePhrase;
    if SharePhrase(words, submitted, length, token) {
      SharedOccurs(words, submitted, length, token);
    }
    if phrase :| IsShared(words, submitted, phrase, token) && |phrase| == length {
      OccursShared(words, submitted, phrase, token);
    }
  }

  lemma FragmentIffPhrase(text: string, message: string, token: string)
    ensures HasPromptFragment(text, message, token) <==> QuotesPhrase(text, message, token)
  {
    hide SharePhrase, IsShared, Contains, PromptWords, HasPromptFragment;
    ScanIsMinimumScan(text, message, token);
    var submitted := PromptWords(message);
    PhraseIsShared(PromptWords(text), submitted, MinPhrase(submitted), token);
  }

  // ----- the readings of a line -----

  /** `line` is "From ", a sender, a colon and a space, and then the text; the sender
      ends at the first such colon. */
  ghost predicate HasOrigin(line: string, text: string) {
    exists sender :: line == "From " + sender + ": " + text && IsFirstColon(sender, text)
  }

  ghost predicate IsFirstColon(sender: string, text: string) {
    forall i :: 0 <= i < |sender| ==> !HasColonAt(sender + ": " + text, i)
  }

  ghost predicate HasColonAt(s: string, i: int) {
    0 <= i <= |s| - 2 && s[i] == ':' && s[i + 1] == ' '
  }

  ghost predicate IsWithoutOrigin(line: string, text: string) {
    HasOrigin(line, text) || (text == line && forall other :: !HasOrigin(line, other))
  }

  lemma {:induction false} AfterColonIs(s: string) returns (sender: string)
    ensures match AfterColon(s)
            case Some(text) => s == sender + ": " + text && IsFirstColon(sender, text)
            case None => forall i :: !HasColonAt(s, i)
  {
    if StartsWith(s, ": ") {
      sender := "";
      assert s == "" + ": " + s[2..];
    } else if s == "" {
      sender := "";
    } else {
      sender := AfterColonIs(s[1..]);
      ColonFirst(s);
      forall i | i > 0
        ensures HasColonAt(s, i) <==> HasColonAt(s[1..], i - 1)
      {
        ColonLater(s, i);
      }
      hide HasColonAt;
      match AfterColon(s[1..])
      case Some(text) =>
        assert s == [s[0]] + s[1..];
        sender := [s[0]] + sender;
        assert s == sender + ": " + text;
      case None =>
    }
  }

  lemma ColonFirst(s: string)
    ensures HasColonAt(s, 0) ==> StartsWith(s, ": ")
  {
    if HasColonAt(s, 0) {
      assert s[..2] == ": ";
    }
  }

  lemma ColonLater(s: string, i: int)
    requires s != "" && i > 0
    ensures HasColonAt(s, i) <==> HasColonAt(s[1..], i - 1)
  {}

  lemma ColonFollows(sender: string, text: string)
    ensures HasColonAt(sender + ": " + text, |sender|)
  {}

  lemma FirstColonIsUnique(x: string, text: string, y: string, other: string)
    requires x + ": " + text == y + ": " + other && IsFirstColon(x, text) && IsFirstColon(y, other)
    ensures text == other
  {
    hide HasColonAt;
    ColonFollows(x, text);
    ColonFollows(y, other);
    assert |x| == |y|;
    assert (x + ": " + text)[|x| + 2..] == text && (y + ": " + other)[|y| + 2..] == other;
  }

  lemma OriginStarts(line: string, text: string)
    requires HasOrigin(line, text)
    ensures StartsWith(line, "From ") && exists sender :: line[5..] == sender + ": " + text
  {
    var sender :| line == "From " + sender + ": " + text && IsFirstColon(sender, text);
    assert "From " + sender + ": " + text == "From " + (sender + ": " + text);
    assert line[..5] == "From " && line[5..] == sender + ": " + text;
  }

  lemma StrippedIsWithoutOrigin(line: string)
    ensures IsWithoutOrigin(line, StripOrigin(line))
  {
    hide StartsWith, AfterColon, IsFirstColon, HasOrigin, HasColonAt;
    if StartsWith(line, "From ") {
      StartsIs(line, "From ");
      var sender := AfterColonIs(line[5..]);
      match AfterColon(line[5..])
      case Some(text) => OriginIs(line, sender, text);
      case None =>
        forall other
          ensures !HasOrigin(line, other)
        {
          if HasOrigin(line, other) {
            OriginStarts(line, other);
            var x :| line[5..] == x + ": " + other;
            ColonFollows(x, other);
          }
        }
    } else {
      forall other
        ensures !HasOrigin(line, other)
      {
        if HasOrigin(line, other) {
          OriginStarts(line, other);
        }
      }
    }
  }

  lemma StartsIs(line: string, start: string)
    requires StartsWith(line, start)
    ensures |start| <= |line| && line == start + line[|start|..]
  {}

  lemma OriginIs(line: string, sender: string, text: string)
    requires |line| >= 5 && line == "From " + line[5..] && line[5..] == sender + ": " + text && IsFirstColon(sender, text)
    ensures HasOrigin(line, text)
  {
    hide IsFirstColon;
    assert "From " + (sender + ": " + text) == "From " + sender + ": " + text;
  }

  lemma WithoutOriginIsUnique(line: string, text: string, other: string)
    requires IsWithoutOrigin(line, text) && IsWithoutOrigin(line, other)
    ensures text == other
  {
    hide IsFirstColon;
    if HasOrigin(line, text) && HasOrigin(line, other) {
      var x :| line == "From " + x + ": " + text && IsFirstColon(x, text);
      var y :| line == "From " + y + ": " + other && IsFirstColon(y, other);
      assert line[5..] == x + ": " + text && line[5..] == y + ": " + other;
      FirstColonIsUnique(x, text, y, other);
    }
  }

  /** A line is read as it is, without its origin, and, if it is a JSON message, as the
      words of its content, again with and without origin. */
  ghost predicate IsReading(line: string, json: JsonContent, reading: string) {
    || reading == line || IsWithoutOrigin(line, reading)
    || exists content :: json(line) == Some(content) && IsContentReading(content, reading)
  }

  ghost predicate IsContentReading(content: string, reading: string) {
    exists words :: AreSplit(content, words) && (reading == Join(words) || IsWithoutOrigin(Join(words), reading))
  }

  ghost predicate AreSplit(content: string, words: seq<string>) {
    words == SplitWhitespace(content)
  }

  lemma CandidatesAreReadings(line: string, json: JsonContent, reading: string)
    ensures reading in Candidates(line, json) <==> IsReading(line, json, reading)
  {
    hide IsWithoutOrigin, StripOrigin, SplitWhitespace, Join;
    StrippedIsWithoutOrigin(line);
    if IsWithoutOrigin(line, reading) {
      WithoutOriginIsUnique(line, reading, StripOrigin(line));
    }
    if json(line).Some? {
      var joined := Join(SplitWhitespace(json(line).value));
      assert AreSplit(json(line).value, SplitWhitespace(json(line).value));
      StrippedIsWithoutOrigin(joined);
      if IsWithoutOrigin(joined, reading) {
        WithoutOriginIsUnique(joined, reading, StripOrigin(joined));
      }
    }
  }

  // ----- the judgement -----

  /** The reading is part of the message, and more than the bare token unless that is
      the whole message, or it quotes a phrase of the message. */
  ghost predicate IsEcho(reading: string, message: string, token: string) {
    || (Contains(message, reading) && (reading == token ==> message == token))
    || QuotesPhrase(reading, message, token)
  }

  lemma CandidateEchoesIff(reading: string, message: string, token: string)
    ensures CandidateEchoes(reading, message, token) <==> IsEcho(reading, message, token)
  {
    hide HasPromptFragment, QuotesPhrase;
    FragmentIffPhrase(reading, message, token);
  }

  lemma LineEchoesIff(line: string, message: string, token: string, json: JsonContent)
    ensures LineEchoes(line, message, token, json)
       <==> exists reading :: IsReading(line, json, reading) && IsEcho(reading, message, token)
  {
    hide CandidateEchoes, IsEcho, Candidates, IsReading;
    var candidates := Candidates(line, json);
    if k :| 0 <= k < |candidates| && CandidateEchoes(candidates[k], message, token) {
      CandidatesAreReadings(line, json, candidates[k]);
      CandidateEchoesIff(candidates[k], message, token);
    }
    if reading :| IsReading(line, json, reading) && IsEcho(reading, message, token) {
      CandidatesAreReadings(line, json, reading);
      CandidateEchoesIff(reading, message, token);
      var k :| 0 <= k < |candidates| && candidates[k] == reading;
    }
  }

  /** The line is read as an echo in some way. */
  ghost predicate IsEchoLine(line: string, message: string, token: string, json: JsonContent) {
    exists reading :: IsReading(line, json, reading) && IsEcho(reading, message, token)
  }

  /** A match is suppressed iff there is a submitted message with the token in it that
      has lines after normalisation, and the lines of the output that hold the token,
      of which there are some, all are echoes. */
  lemma SuppressedIffEchoesOnly(token: string, output: string, submitted: Option<string>, json: JsonContent)
    ensures Suppressed(token, output, submitted, json)
       <==> (&& submitted.Some? && token != "" && Contains(submitted.value, token)
             && Join(EchoLines(submitted.value)) != ""
             && (exists line :: line in EchoLines(output) && Contains(line, token))
             && (forall line :: line in EchoLines(output) && Contains(line, token) ==>
                   IsEchoLine(line, Join(EchoLines(submitted.value)), token, json)))
  {
    hide Contains, EchoLines, Join, LineEchoes, IsEchoLine;
    if submitted.Some? {
      var lines, message := EchoLines(output), Join(EchoLines(submitted.value));
      forall line
        ensures LineEchoes(line, message, token, json) <==> IsEchoLine(line, message, token, json)
      {
        EchoLineIff(line, message, token, json);
      }
    }
  }

  lemma EchoLineIff(line: string, message: string, token: string, json: JsonContent)
    ensures LineEchoes(line, message, token, json) <==> IsEchoLine(line, message, token, json)
  {
    hide LineEchoes, IsReading, IsEcho;
    LineEchoesIff(line, message, token, json);
  }
}
