/** What the prompt-echo guard reads off a terminal: text with control sequences, lines
    ended by newline or carriage return, decoration and blanks of any kind
    (src-tauri/src/control.rs, normalized_echo_lines; src-tauri/src/utils/pty_decode.rs). */
module EchoScreen {
  import opened Common
  import opened EchoText

  // ----- decoration and words -----

  /** The characters of prompt decoration by their codes. */
  lemma DecorationCodes(c: char)
    ensures var code := c as int;
            IsPromptPrefixChar(c) <==>
              || IsWhitespace(c)
              || code == 35 || code == 36 || code == 42 || code == 45 || code == 58 || code == 62 || code == 124
              || code == 183 || code == 187 || code == 8226 || code == 8250 || code == 9474 || code == 9475
  {}

  /** Behind its decoration a line begins. */
  lemma LineBehindDecoration(decoration: string, line: string)
    requires forall i :: 0 <= i < |decoration| ==> IsPromptPrefixChar(decoration[i])
    requires line == "" || !IsPromptPrefixChar(line[0])
    ensures DropPrompt(decoration + line) == line
  {
    DropSkips(decoration, line);
  }

  ghost predicate IsGap(s: string) {
    forall i :: 0 <= i < |s| ==> IsWhitespace(s[i])
  }

  /** Words with a gap before each of them and one at the end. */
  ghost function Spaced(gaps: seq<string>, words: seq<string>): string
    requires |gaps| == |words| + 1
  {
    if words == [] then gaps[0] else gaps[0] + words[0] + Spaced(gaps[1..], words[1..])
  }

  ghost predicate AreGaps(gaps: seq<string>, words: seq<string>) {
    && |gaps| == |words| + 1
    && (forall k :: 0 <= k < |gaps| ==> IsGap(gaps[k]))
    && (forall k :: 0 < k < |words| ==> gaps[k] != "")
  }

  /** Whatever blanks stand around and between them, the words are found. */
  lemma {:induction false} SplitOfSpaced(gaps: seq<string>, words: seq<string>)
    requires AreWords(words) && AreGaps(gaps, words)
    ensures SplitWhitespace(Spaced(gaps, words)) == words
    decreases |words|
  {
    if words == [] {
      SplitSkipsGap(gaps[0], "");
      assert gaps[0] + "" == gaps[0];
    } else {
      var rest := Spaced(gaps[1..], words[1..]);
      assert IsGap(gaps[0]) && IsWord(words[0]);
      assert AreGaps(gaps[1..], words[1..]) && AreWords(words[1..]);
      SplitOfSpaced(gaps[1..], words[1..]);
      assert gaps[0] + words[0] + rest == gaps[0] + (words[0] + rest);
      SplitSkipsGap(gaps[0], words[0] + rest);
      RestStartsBlank(gaps, words);
      SplitTakesFirst(words[0], rest);
    }
  }

  lemma RestStartsBlank(gaps: seq<string>, words: seq<string>)
    requires words != [] && AreGaps(gaps, words)
    ensures var rest := Spaced(gaps[1..], words[1..]); rest == "" || IsWhitespace(rest[0])
  {
    assert IsGap(gaps[1]);
    if |words| > 1 {
      assert gaps[1] != "";
    }
  }

  lemma {:induction false} SplitSkipsGap(gap: string, s: string)
    requires IsGap(gap)
    ensures SplitWhitespace(gap + s) == SplitWhitespace(s)
  {
    if gap == "" {
      assert gap + s == s;
    } else {
      SplitSkipsWhitespace(gap + s);
      assert (gap + s)[1..] == gap[1..] + s;
      SplitSkipsGap(gap[1..], s);
    }
  }

  lemma SplitTakesFirst(word: string, rest: string)
    requires IsWord(word) && (rest == "" || IsWhitespace(rest[0]))
    ensures SplitWhitespace(word + rest) == [word] + SplitWhitespace(rest)
  {
    var s := word + rest;
    assert forall i :: 0 <= i < |word| ==> s[i] == word[i];
    WordLengthIs(s, |word|);
    SplitTakesWord(s);
    assert s[..|word|] == word && s[|word|..] == rest;
  }

  // ----- the lines that are left -----

  /** Each line counts for itself: it is left out when nothing is left of it. */
  lemma NormalizedLineAlone(line: string)
    ensures NormalizedLines([line]) == if NormalizedLine(line) == "" then [] else [NormalizedLine(line)]
  {
    assert [line][1..] == [];
  }

  lemma {:induction false} NormalizedLinesOfConcat(left: seq<string>, right: seq<string>)
    ensures NormalizedLines(left + right) == NormalizedLines(left) + NormalizedLines(right)
  {
    hide NormalizedLine;
    if left == [] {
      assert left + right == right;
    } else {
      assert (left + right)[1..] == left[1..] + right;
      NormalizedLinesOfConcat(left[1..], right);
    }
  }

  // ----- control sequences -----

  /** A piece of terminal output: text, or a control sequence with its final byte. */
  datatype Piece = Plain(text: string) | Control(params: string, final: char)

  predicate IsFinal(c: char) {
    64 <= c as int <= 126
  }

  ghost predicate IsPiece(p: Piece) {
    match p
    case Plain(text) => forall i :: 0 <= i < |text| ==> text[i] as int != 27
    case Control(params, final) => IsFinal(final) && forall i :: 0 <= i < |params| ==> !IsFinal(params[i])
  }

  function Raw(p: Piece): string {
    match p
    case Plain(text) => text
    case Control(params, final) => ['\U{001B}', '['] + params + [final]
  }

  function Text(p: Piece): string {
    match p
    case Plain(text) => text
    case Control(_, _) => ""
  }

  function Raws(pieces: seq<Piece>): string {
    if pieces == [] then "" else Raw(pieces[0]) + Raws(pieces[1..])
  }

  function Texts(pieces: seq<Piece>): string {
    if pieces == [] then "" else Text(pieces[0]) + Texts(pieces[1..])
  }

  ghost predicate ArePieces(pieces: seq<Piece>) {
    forall k :: 0 <= k < |pieces| ==> IsPiece(pieces[k])
  }

  lemma Regroup(a: string, b: string, c: string)
    ensures a + b + c == a + (b + c)
  {}

  /** Control sequences vanish, and the text between them stays as it is. */
  lemma {:induction false} StrippedOfPieces(pieces: seq<Piece>, tail: string)
    requires ArePieces(pieces)
    ensures StripAnsiControls(Raws(pieces) + tail) == Texts(pieces) + StripAnsiControls(tail)
  {
    hide StripAnsiControls, Raw, Text, IsPiece;
    if pieces == [] {
      assert "" + tail == tail;
      assert "" + StripAnsiControls(tail) == StripAnsiControls(tail);
    } else {
      var raws, texts := Raws(pieces[1..]), Texts(pieces[1..]);
      assert IsPiece(pieces[0]) && ArePieces(pieces[1..]);
      StrippedOfPieces(pieces[1..], tail);
      StrippedOfPiece(pieces[0], raws + tail);
      Regroup(Raw(pieces[0]), raws, tail);
      Regroup(Text(pieces[0]), texts, StripAnsiControls(tail));
    }
  }

  lemma StrippedOfPiece(p: Piece, rest: string)
    requires IsPiece(p)
    ensures StripAnsiControls(Raw(p) + rest) == Text(p) + StripAnsiControls(rest)
  {
    match p
    case Plain(text) => StrippedOfText(text, rest);
    case Control(params, final) =>
      var s := Raw(p) + rest;
      assert s[0] == Escape && s[1] == '[' && s[2..] == params + [final] + rest;
      SkipsControl(params, final, rest);
      assert "" + StripAnsiControls(rest) == StripAnsiControls(rest);
  }

  lemma {:induction false} StrippedOfText(text: string, rest: string)
    requires forall i :: 0 <= i < |text| ==> text[i] as int != 27
    ensures StripAnsiControls(text + rest) == text + StripAnsiControls(rest)
  {
    if text == "" {
      assert text + rest == rest;
    } else {
      assert (text + rest)[1..] == text[1..] + rest;
      StrippedOfText(text[1..], rest);
      assert text == [text[0]] + text[1..];
    }
  }

  lemma {:induction false} SkipsControl(params: string, final: char, rest: string)
    requires IsFinal(final) && forall i :: 0 <= i < |params| ==> !IsFinal(params[i])
    ensures SkipControl(params + [final] + rest) == rest
  {
    var s := params + [final] + rest;
    if params == "" {
      assert s == [final] + rest && s[1..] == rest;
    } else {
      assert s[1..] == params[1..] + [final] + rest;
      SkipsControl(params[1..], final, rest);
    }
  }

  /** A sequence that is cut off takes the rest with it; an escape that begins none
      stays. */
  lemma {:induction false} CutOffControl(params: string)
    requires forall i :: 0 <= i < |params| ==> !IsFinal(params[i])
    ensures SkipControl(params) == ""
    ensures StripAnsiControls(['\U{001B}', '['] + params) == ""
  {
    var s := ['\U{001B}', '['] + params;
    assert s[2..] == params;
    if params != "" {
      CutOffControl(params[1..]);
    }
  }

  lemma LoneEscapeStays(s: string)
    requires s == "" || s[0] != '['
    ensures StripAnsiControls(['\U{001B}'] + s) == ['\U{001B}'] + StripAnsiControls(s)
  {
    assert (['\U{001B}'] + s)[1..] == s;
  }

  // ----- a whole screen -----

  /** A row of output and the character that ends it. */
  datatype Row = Row(pieces: seq<Piece>, end: char)

  ghost predicate IsRow(row: Row) {
    ArePieces(row.pieces) && IsOneLine(Texts(row.pieces)) && (row.end == '\n' || row.end == '\r')
  }

  ghost predicate IsOneLine(text: string) {
    forall i :: 0 <= i < |text| ==> text[i] != '\n' && text[i] != '\r'
  }

  function Screen(rows: seq<Row>): string {
    if rows == [] then "" else Raws(rows[0].pieces) + [rows[0].end] + Screen(rows[1..])
  }

  function RowTexts(rows: seq<Row>): seq<string> {
    if rows == [] then [] else [Texts(rows[0].pieces)] + RowTexts(rows[1..])
  }

  /** The rows' texts with their ends. */
  function Ended(rows: seq<Row>): string {
    if rows == [] then "" else Texts(rows[0].pieces) + [rows[0].end] + Ended(rows[1..])
  }

  lemma StrippedOfRow(row: Row, rest: string)
    requires IsRow(row)
    ensures StripAnsiControls(Raws(row.pieces) + [row.end] + rest) == Texts(row.pieces) + [row.end] + StripAnsiControls(rest)
  {
    hide StripAnsiControls, Raws, Texts;
    StrippedOfPieces(row.pieces, [row.end] + rest);
    StrippedOfText([row.end], rest);
    Regroup(Raws(row.pieces), [row.end], rest);
    Regroup(Texts(row.pieces), [row.end], StripAnsiControls(rest));
  }

  lemma {:induction false} StrippedOfScreen(rows: seq<Row>, last: seq<Piece>)
    requires (forall k :: 0 <= k < |rows| ==> IsRow(rows[k])) && ArePieces(last)
    ensures StripAnsiControls(Screen(rows) + Raws(last)) == Ended(rows) + Texts(last)
  {
    hide StripAnsiControls, Raws, Texts, IsRow, ArePieces;
    if rows == [] {
      StrippedOfPieces(last, "");
      StrippedOfNothing();
      assert Raws(last) + "" == Raws(last) && Texts(last) + "" == Texts(last);
      assert "" + Raws(last) == Raws(last) && "" + Texts(last) == Texts(last);
    } else {
      var row := rows[0];
      StrippedOfScreen(rows[1..], last);
      StrippedOfRow(row, Screen(rows[1..]) + Raws(last));
      Regroup(Raws(row.pieces) + [row.end], Screen(rows[1..]), Raws(last));
      Regroup(Texts(row.pieces) + [row.end], Ended(rows[1..]), Texts(last));
    }
  }

  lemma StrippedOfNothing()
    ensures StripAnsiControls("") == ""
  {}

  lemma BreaksBecomeNewlines(left: string, right: string)
    ensures CarriageReturnsToNewlines(left + right) == CarriageReturnsToNewlines(left) + CarriageReturnsToNewlines(right)
  {}

  lemma OneLineStays(text: string)
    requires IsOneLine(text)
    ensures CarriageReturnsToNewlines(text) == text
  {}

  lemma {:induction false} TakesLine(line: string, more: string, rest: string)
    requires IsOneLine(more)
    ensures LinesFrom(line, more + ("\n" + rest)) == [line + more] + LinesFrom("", rest)
    ensures LinesFrom(line, more) == if line + more == "" then [] else [line + more]
    decreases |more|
  {
    var s := more + ("\n" + rest);
    if more == "" {
      assert s == "\n" + rest && s[1..] == rest;
      assert line + more == line;
    } else {
      assert s[1..] == more[1..] + ("\n" + rest);
      TakesLine(line + [more[0]], more[1..], rest);
      assert line + [more[0]] + more[1..] == line + more;
    }
  }

  lemma LinesOfRow(row: Row, rest: string)
    requires IsRow(row)
    ensures Lines(CarriageReturnsToNewlines(Texts(row.pieces) + [row.end] + rest))
         == [Texts(row.pieces)] + Lines(CarriageReturnsToNewlines(rest))
  {
    hide Texts, LinesFrom, ArePieces;
    var text := Texts(row.pieces);
    Regroup(text, [row.end], rest);
    BreaksBecomeNewlines(text, [row.end] + rest);
    BreaksBecomeNewlines([row.end], rest);
    OneLineStays(text);
    assert CarriageReturnsToNewlines([row.end]) == "\n";
    TakesLine("", text, CarriageReturnsToNewlines(rest));
    assert "" + text == text;
  }

  lemma {:induction false} LinesOfEnded(rows: seq<Row>, last: string)
    requires (forall k :: 0 <= k < |rows| ==> IsRow(rows[k])) && IsOneLine(last)
    ensures Lines(CarriageReturnsToNewlines(Ended(rows) + last)) == RowTexts(rows) + if last == "" then [] else [last]
  {
    hide Texts, LinesFrom, IsRow, CarriageReturnsToNewlines;
    if rows == [] {
      OneLineStays(last);
      TakesLine("", last, "");
      assert "" + last == last;
      assert RowTexts(rows) + Lines(last) == Lines(last);
    } else {
      LinesOfEnded(rows[1..], last);
      LinesOfRow(rows[0], Ended(rows[1..]) + last);
      Regroup(Texts(rows[0].pieces) + [rows[0].end], Ended(rows[1..]), last);
    }
  }

  /** So the guard reads one line for each row and one for what follows the last row, and
      keeps the normal forms of those of which something is left. */
  lemma ScreenReadsAsLines(rows: seq<Row>, last: seq<Piece>)
    requires (forall k :: 0 <= k < |rows| ==> IsRow(rows[k])) && ArePieces(last) && IsOneLine(Texts(last))
    ensures EchoLines(Screen(rows) + Raws(last)) == NormalizedLines(RowTexts(rows) + [Texts(last)])
  {
    hide NormalizedLines, StripAnsiControls, Lines;
    StrippedOfScreen(rows, last);
    LinesOfEnded(rows, Texts(last));
    NormalizedLinesOfConcat(RowTexts(rows), [Texts(last)]);
    if Texts(last) == "" {
      NothingOfNothing();
      assert RowTexts(rows) + [] == RowTexts(rows);
    }
  }

  lemma NothingOfNothing()
    ensures NormalizedLines([""]) == []
  {
    NormalizedLineAlone("");
    assert NormalizedLine("") == "";
  }
}
