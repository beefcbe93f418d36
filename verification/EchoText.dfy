/** The text functions under the prompt-echo guard: whitespace splitting, terminal
    control stripping and line normalisation (src-tauri/src/control.rs and
    src-tauri/src/utils/pty_decode.rs). */
module EchoText {
  import opened Common

  /** A non-empty run of non-whitespace characters. */
  predicate IsWord(s: string) {
    s != "" && forall i :: 0 <= i < |s| ==> !IsWhitespace(s[i])
  }

  predicate AreWords(words: seq<string>) {
    forall i :: 0 <= i < |words| ==> IsWord(words[i])
  }

  predicate Contains(s: string, part: string) {
    exists i :: 0 <= i <= |s| - |part| && At(s, i, part)
  }

  predicate At(s: string, i: nat, part: string)
    requires i <= |s| - |part|
  {
    s[i..i + |part|] == part
  }

  // ----- words -----

  /** The length of the leading run of non-whitespace. */
  function WordLength(s: string): (n: nat)
    ensures n <= |s|
    ensures forall i :: 0 <= i < n ==> !IsWhitespace(s[i])
    ensures n < |s| ==> IsWhitespace(s[n])
  {
    if s != "" && !IsWhitespace(s[0]) then 1 + WordLength(s[1..]) else 0
  }

  function SplitWhitespace(s: string): (words: seq<string>)
    ensures AreWords(words)
    decreases |s|
  {
    var t := TrimStart(s);
    if t == "" then []
    else
      var n := WordLength(t);
      [t[..n]] + SplitWhitespace(t[n..])
  }

  function Join(parts: seq<string>): string {
    if parts == [] then ""
    else if |parts| == 1 then parts[0]
    else parts[0] + " " + Join(parts[1..])
  }

  /** Splitting undoes joining. */
  lemma {:induction false} SplitOfJoin(words: seq<string>)
    requires AreWords(words)
    ensures SplitWhitespace(Join(words)) == words
  {
    if words != [] {
      var s := Join(words);
      assert IsWord(words[0]);
      var n := |words[0]|;
      assert s[..n] == words[0];
      if |words| > 1 {
        WordLengthIs(s, n);
        assert s[n..] == " " + Join(words[1..]);
        SplitSkipsWhitespace(s[n..]);
        assert s[n..][1..] == Join(words[1..]);
        SplitOfJoin(words[1..]);
      } else {
        WordLengthIs(s, n);
        assert s[n..] == "";
      }
    }
  }

  lemma {:induction false} WordLengthIs(s: string, n: nat)
    requires n <= |s| && (forall i :: 0 <= i < n ==> !IsWhitespace(s[i]))
    requires n < |s| ==> IsWhitespace(s[n])
    ensures WordLength(s) == n
  {
    if n > 0 {
      WordLengthIs(s[1..], n - 1);
    }
  }

  lemma SplitSkipsWhitespace(s: string)
    requires s != "" && IsWhitespace(s[0])
    ensures SplitWhitespace(s) == SplitWhitespace(s[1..])
  {}

  lemma SplitTakesWord(s: string)
    requires s != "" && !IsWhitespace(s[0])
    ensures SplitWhitespace(s) == [s[..WordLength(s)]] + SplitWhitespace(s[WordLength(s)..])
  {}

  lemma {:induction false} SplitIgnoresLastWhitespace(s: string)
    requires s != "" && IsWhitespace(s[|s| - 1])
    ensures SplitWhitespace(s[..|s| - 1]) == SplitWhitespace(s)
    decreases |s|
  {
    hide SplitWhitespace;
    var shorter := s[..|s| - 1];
    if IsWhitespace(s[0]) {
      SplitSkipsWhitespace(s);
      if |s| == 1 {
        assert shorter == s[1..];
      } else {
        SplitSkipsWhitespace(shorter);
        assert shorter[1..] == s[1..][..|s[1..]| - 1];
        SplitIgnoresLastWhitespace(s[1..]);
      }
    } else {
      var n := WordLength(s);
      SplitTakesWord(s);
      WordLengthIs(shorter, n);
      SplitTakesWord(shorter);
      assert shorter[..n] == s[..n];
      assert shorter[n..] == s[n..][..|s[n..]| - 1];
      SplitIgnoresLastWhitespace(s[n..]);
    }
  }

  lemma {:induction false} SplitIgnoresTrimEnd(s: string)
    ensures SplitWhitespace(TrimEnd(s)) == SplitWhitespace(s)
    decreases |s|
  {
    if s != "" && IsWhitespace(s[|s| - 1]) {
      SplitIgnoresLastWhitespace(s);
      SplitIgnoresTrimEnd(s[..|s| - 1]);
    }
  }

  /** Every joined part can be found again in the joined text. */
  lemma {:induction false} JoinContains(parts: seq<string>, k: nat)
    requires k < |parts|
    ensures Contains(Join(parts), parts[k])
  {
    var s := Join(parts);
    if k == 0 {
      assert At(s, 0, parts[0]);
    } else {
      JoinContains(parts[1..], k - 1);
      var rest := Join(parts[1..]);
      var i :| 0 <= i <= |rest| - |parts[k]| && At(rest, i, parts[k]);
      var skipped := |parts[0]| + 1;
      assert s[skipped..] == rest;
      assert s[skipped + i..skipped + i + |parts[k]|] == rest[i..i + |parts[k]|];
      assert At(s, skipped + i, parts[k]);
    }
  }

  lemma ContainsIsTransitive(s: string, middle: string, part: string)
    requires Contains(s, middle) && Contains(middle, part)
    ensures Contains(s, part)
  {
    var i :| 0 <= i <= |s| - |middle| && At(s, i, middle);
    var j :| 0 <= j <= |middle| - |part| && At(middle, j, part);
    forall k | 0 <= k < |part|
      ensures s[i + j + k] == part[k]
    {
      assert middle[j + k] == s[i..i + |middle|][j + k];
      assert part[k] == middle[j..j + |part|][k];
    }
    assert s[i + j..i + j + |part|] == part;
    assert At(s, i + j, part);
  }

  // ----- normalised lines -----

  predicate IsPromptPrefixChar(c: char) {
    || IsWhitespace(c)
    || c == '\U{203A}' || c == '>' || c == '$' || c == '#' || c == ':' || c == '|'
    || c == '\U{2502}' || c == '\U{2503}' || c == '\U{00BB}' || c == '\U{2022}' || c == '\U{00B7}'
    || c == '-' || c == '*'
  }

  function DropPrompt(s: string): (r: string)
    ensures |r| <= |s|
    ensures r == "" || !IsPromptPrefixChar(r[0])
  {
    if s != "" && IsPromptPrefixChar(s[0]) then DropPrompt(s[1..]) else s
  }

  /** "" stands for a line that is filtered out. */
  function NormalizedLine(line: string): string {
    Join(SplitWhitespace(Trim(DropPrompt(Trim(line)))))
  }

  /** The two trims change nothing that the prompt and whitespace steps leave. */
  lemma TrimsAreRedundant(line: string)
    ensures NormalizedLine(line) == Join(SplitWhitespace(DropPrompt(line)))
  {
    var inner := Trim(line);
    var dropped := DropPrompt(inner);
    SplitIgnoresTrimEnd(TrimStart(dropped));
    SplitIgnoresTrimStart(dropped);
    SplitIgnoresTrimEndBeforePrompt(TrimStart(line));
    DropIgnoresTrimStart(line);
  }

  lemma {:induction false} SplitIgnoresTrimStart(s: string)
    ensures SplitWhitespace(TrimStart(s)) == SplitWhitespace(s)
  {}

  lemma {:induction false} DropIgnoresTrimStart(s: string)
    ensures DropPrompt(TrimStart(s)) == DropPrompt(s)
  {
    if s != "" && IsWhitespace(s[0]) {
      DropIgnoresTrimStart(s[1..]);
    }
  }

  lemma {:induction false} SplitIgnoresTrimEndBeforePrompt(s: string)
    ensures SplitWhitespace(DropPrompt(TrimEnd(s))) == SplitWhitespace(DropPrompt(s))
    decreases |s|
  {
    if s != "" && IsWhitespace(s[|s| - 1]) {
      var shorter := s[..|s| - 1];
      DropOfShorter(s);
      if DropPrompt(s) != "" {
        SplitIgnoresLastWhitespace(DropPrompt(s));
      }
      SplitIgnoresTrimEndBeforePrompt(shorter);
    }
  }

  lemma {:induction false} DropOfShorter(s: string)
    requires s != "" && IsWhitespace(s[|s| - 1])
    ensures var dropped := DropPrompt(s);
            if dropped == "" then DropPrompt(s[..|s| - 1]) == ""
            else IsWhitespace(dropped[|dropped| - 1]) && DropPrompt(s[..|s| - 1]) == dropped[..|dropped| - 1]
    decreases |s|
  {
    if IsPromptPrefixChar(s[0]) && |s| > 1 {
      assert s[1..][..|s[1..]| - 1] == s[..|s| - 1][1..];
      DropOfShorter(s[1..]);
    }
  }

  /** Prompt decoration in front of a line does not change its normalised form. */
  lemma DecorationIsDropped(decoration: string, line: string)
    requires forall i :: 0 <= i < |decoration| ==> IsPromptPrefixChar(decoration[i])
    ensures NormalizedLine(decoration + line) == NormalizedLine(line)
  {
    TrimsAreRedundant(decoration + line);
    TrimsAreRedundant(line);
    DropSkips(decoration, line);
  }

  lemma {:induction false} DropSkips(decoration: string, line: string)
    requires forall i :: 0 <= i < |decoration| ==> IsPromptPrefixChar(decoration[i])
    ensures DropPrompt(decoration + line) == DropPrompt(line)
  {
    if decoration == "" {
      assert decoration + line == line;
    } else {
      assert (decoration + line)[1..] == decoration[1..] + line;
      DropSkips(decoration[1..], line);
    }
  }

  /** Normalising twice is normalising once. */
  lemma NormalizationIsIdempotent(line: string)
    ensures NormalizedLine(NormalizedLine(line)) == NormalizedLine(line)
  {
    var words := SplitWhitespace(DropPrompt(line));
    var normalized := Join(words);
    TrimsAreRedundant(line);
    TrimsAreRedundant(normalized);
    SplitOfJoin(words);
    if words != [] {
      var dropped := DropPrompt(line);
      assert dropped != "" && TrimStart(dropped) == dropped;
      assert words[0][0] == dropped[0];
      assert normalized[0] == words[0][0];
      assert DropPrompt(normalized) == normalized;
    }
  }

  // ----- lines of an output -----

  /** The part after the final byte of a control sequence. */
  function SkipControl(s: string): (r: string)
    ensures |r| <= |s|
  {
    if s == "" then "" else if '@' <= s[0] <= '~' then s[1..] else SkipControl(s[1..])
  }

  const Escape: char := '\U{001B}'

  function StripAnsiControls(s: string): string
    decreases |s|
  {
    if s == "" then ""
    else if |s| > 1 && s[0] == Escape && s[1] == '[' then StripAnsiControls(SkipControl(s[2..]))
    else [s[0]] + StripAnsiControls(s[1..])
  }

  function CarriageReturnsToNewlines(s: string): string {
    seq(|s|, i requires 0 <= i < |s| => if s[i] == '\r' then '\n' else s[i])
  }

  function Lines(s: string): seq<string> {
    LinesFrom("", s)
  }

  function LinesFrom(line: string, s: string): seq<string>
    decreases |s|
  {
    if s == "" then (if line == "" then [] else [line])
    else if s[0] == '\n' then [line] + LinesFrom("", s[1..])
    else LinesFrom(line + [s[0]], s[1..])
  }

  function NormalizedLines(lines: seq<string>): (r: seq<string>)
    ensures forall i :: 0 <= i < |r| ==> r[i] != ""
  {
    if lines == [] then []
    else
      var line := NormalizedLine(lines[0]);
      (if line == "" then [] else [line]) + NormalizedLines(lines[1..])
  }

  function EchoLines(text: string): seq<string> {
    NormalizedLines(Lines(CarriageReturnsToNewlines(StripAnsiControls(text))))
  }

  /** No escape, carriage return or newline. */
  predicate IsPlain(line: string) {
    forall i :: 0 <= i < |line| ==> line[i] != Escape && line[i] != '\r' && line[i] != '\n'
  }

  /** Lines written one after the other, each ended by a newline. */
  function Printed(lines: seq<string>): string {
    if lines == [] then "" else lines[0] + "\n" + Printed(lines[1..])
  }

  /** Reading printed plain lines back gives the lines. */
  lemma EchoLinesOfPrinted(lines: seq<string>)
    requires forall i :: 0 <= i < |lines| ==> IsPlain(lines[i])
    ensures EchoLines(Printed(lines)) == NormalizedLines(lines)
  {
    PrintedIsClean(lines);
    NothingToStrip(Printed(lines));
    LinesOfPrinted(lines);
    assert CarriageReturnsToNewlines(Printed(lines)) == Printed(lines);
  }

  lemma {:induction false} PrintedIsClean(lines: seq<string>)
    requires forall i :: 0 <= i < |lines| ==> IsPlain(lines[i])
    ensures forall i :: 0 <= i < |Printed(lines)| ==> Printed(lines)[i] != Escape && Printed(lines)[i] != '\r'
  {
    if lines != [] {
      PrintedIsClean(lines[1..]);
      assert IsPlain(lines[0]);
    }
  }

  lemma {:induction false} NothingToStrip(s: string)
    requires forall i :: 0 <= i < |s| ==> s[i] != Escape
    ensures StripAnsiControls(s) == s
  {
    if s != "" {
      NothingToStrip(s[1..]);
    }
  }

  lemma {:induction false} LinesOfPrinted(lines: seq<string>)
    requires forall i :: 0 <= i < |lines| ==> IsPlain(lines[i])
    ensures Lines(Printed(lines)) == lines
  {
    if lines != [] {
      LinesOfPrinted(lines[1..]);
      assert IsPlain(lines[0]);
      LinesFromLine("", lines[0], Printed(lines[1..]));
      assert "" + lines[0] == lines[0];
      assert lines[0] + "\n" + Printed(lines[1..]) == lines[0] + ("\n" + Printed(lines[1..]));
    }
  }

  lemma {:induction false} LinesFromLine(line: string, more: string, rest: string)
    requires IsPlain(more)
    ensures LinesFrom(line, more + ("\n" + rest)) == [line + more] + LinesFrom("", rest)
    decreases |more|
  {
    var s := more + ("\n" + rest);
    if more == "" {
      assert s == "\n" + rest;
      assert s[1..] == rest;
      assert line + more == line;
    } else {
      assert s[1..] == more[1..] + ("\n" + rest);
      LinesFromLine(line + [more[0]], more[1..], rest);
      assert line + [more[0]] + more[1..] == line + more;
    }
  }
}
