/** Dropped file paths written into a terminal (src/utils/fileDrop.ts), and the
    reading a POSIX shell gives them: token recognition and quoting of the Shell
    Command Language, IEEE Std 1003.1, sections 2.3, 2.2.1 and 2.2.2. */
module FileDrop {
  import opened Common

  // ----- the printer -----

  /** What JavaScript's String.prototype.trim removes. */
  predicate IsScriptWhitespace(c: char) {
    || '\U{0009}' <= c <= '\U{000D}'
    || c == '\U{0020}' || c == '\U{00A0}' || c == '\U{1680}'
    || '\U{2000}' <= c <= '\U{200A}'
    || c == '\U{2028}' || c == '\U{2029}' || c == '\U{202F}' || c == '\U{205F}' || c == '\U{3000}'
    || c == '\U{FEFF}'
  }

  predicate IsBlankPath(path: string) {
    forall i :: 0 <= i < |path| ==> IsScriptWhitespace(path[i])
  }

  function NonBlank(paths: seq<string>): seq<string> {
    if paths == [] then []
    else (if IsBlankPath(paths[0]) then [] else [paths[0]]) + NonBlank(paths[1..])
  }

  predicate IsLetter(c: char) {
    'A' <= c <= 'Z' || 'a' <= c <= 'z'
  }

  function LowerLetter(c: char): char
    requires IsLetter(c)
  {
    if 'A' <= c <= 'Z' then (c as int + 32) as char else c
  }

  predicate StartsWithDrive(path: string) {
    |path| >= 3 && IsLetter(path[0]) && path[1] == ':' && (path[2] == '\\' || path[2] == '/')
  }

  function ForwardSlashes(path: string): (r: string)
    ensures |r| == |path|
    ensures forall i :: 0 <= i < |r| ==> r[i] == if path[i] == '\\' then '/' else path[i]
  {
    seq(|path|, i requires 0 <= i < |path| => if path[i] == '\\' then '/' else path[i])
  }

  function DropSlashes(s: string): (r: string)
    ensures r <= s || exists k :: 0 <= k <= |s| && r == s[k..]
    ensures r == "" || r[0] != '/'
  {
    if s != "" && s[0] == '/' then
      var r := DropSlashes(s[1..]);
      assert forall k :: 0 <= k <= |s[1..]| ==> s[1..][k..] == s[k + 1..];
      r
    else
      assert s == s[0..];
      s
  }

  function PathForTerminalShell(path: string, shellId: string): string {
    if !StartsWithDrive(path) then path
    else if shellId != "bash" && shellId != "git-bash" && shellId != "wsl" then path
    else
      var normalized := ForwardSlashes(path);
      "/" + (if shellId == "wsl" then "mnt/" else "") + [LowerLetter(path[0])] + "/" + DropSlashes(normalized[2..])
  }

  /** Every occurrence of `c` replaced. */
  function Replaced(s: string, c: char, replacement: string): string {
    if s == "" then ""
    else (if s[0] == c then replacement else [s[0]]) + Replaced(s[1..], c, replacement)
  }

  function CaretEscaped(s: string): string {
    if s == "" then ""
    else (if s[0] in "\"^&|<>()" then ['^', s[0]] else [s[0]]) + CaretEscaped(s[1..])
  }

  predicate IsSafeChar(c: char) {
    IsLetter(c) || '0' <= c <= '9' || c == '_' || c == '.' || c == '/' || c == '@' || c == ':' || c == '-'
  }

  predicate IsSafe(path: string) {
    path != "" && forall i :: 0 <= i < |path| ==> IsSafeChar(path[i])
  }

  predicate IsSafeForCmd(path: string) {
    path != "" && forall i :: 0 <= i < |path| ==> IsSafeChar(path[i]) || path[i] == '\\' || path[i] == '+'
  }

  function Quoted(path: string): string {
    "'" + Replaced(path, '\'', "'\\''") + "'"
  }

  function EscapeTerminalPath(path: string, shellId: string): string {
    if shellId == "powershell" || shellId == "pwsh" then
      "'" + Replaced(path, '\'', "''") + "'"
    else if shellId == "cmd" then
      if IsSafeForCmd(path) then path
      else
        var escaped := Replaced(Replaced(CaretEscaped(path), '%', "^%"), '!', "^!");
        "\"" + Replaced(escaped, '"', "\\\"") + "\""
    else if IsSafe(path) then path
    else Quoted(path)
  }

  function Escaped(paths: seq<string>, shellId: string): seq<string> {
    if paths == [] then []
    else [EscapeTerminalPath(PathForTerminalShell(paths[0], shellId), shellId)] + Escaped(paths[1..], shellId)
  }

  function JoinWithSpaces(parts: seq<string>): string {
    if parts == [] then ""
    else if |parts| == 1 then parts[0]
    else parts[0] + " " + JoinWithSpaces(parts[1..])
  }

  function FormatDroppedPathsForTerminal(paths: seq<string>, shellId: string): string {
    var formatted := JoinWithSpaces(Escaped(NonBlank(paths), shellId));
    if formatted != "" then formatted + " " else ""
  }

  // ----- the shell's reading -----

  /** Characters that, unquoted, start an operator, an expansion, a comment or
      another kind of quoting. A text with one of them unquoted has no reading
      here. */
  predicate IsSpecial(c: char) {
    c in "|&;<>()$`\"\n*?[]#~=%!{}^"
  }

  predicate IsBlankChar(c: char) {
    c == ' ' || c == '\t'
  }

  datatype Mode = Unquoted | InSingleQuotes

  function Append(word: Option<string>, c: char): Option<string> {
    Some((if word.Some? then word.value else "") + [c])
  }

  /** The fields of one simple command line after quote removal. `word` is the
      token being delimited, if one has started. */
  function Fields(s: string, mode: Mode, word: Option<string>): Option<seq<string>>
    decreases |s|
  {
    if s == "" then
      if mode.InSingleQuotes? then None
      else Some(if word.Some? then [word.value] else [])
    else if mode.InSingleQuotes? then
      // Section 2.2.2: everything up to the next single quote is literal.
      if s[0] == '\'' then Fields(s[1..], Unquoted, word) else Fields(s[1..], InSingleQuotes, Append(word, s[0]))
    else if s[0] == '\'' then
      Fields(s[1..], InSingleQuotes, Some(if word.Some? then word.value else ""))
    else if s[0] == '\\' then
      // Section 2.2.1: the next character is literal; an escaped newline vanishes.
      if |s| == 1 then None
      else if s[1] == '\n' then Fields(s[2..], Unquoted, word)
      else Fields(s[2..], Unquoted, Append(word, s[1]))
    else if IsBlankChar(s[0]) then
      // Section 2.3: an unquoted blank delimits the current token.
      match Fields(s[1..], Unquoted, None)
      case Some(rest) => Some((if word.Some? then [word.value] else []) + rest)
      case None => None
    else if IsSpecial(s[0]) then None
    else Fields(s[1..], Unquoted, Append(word, s[0]))
  }

  function Tokenize(text: string): Option<seq<string>> {
    Fields(text, Unquoted, None)
  }

  // ----- the round trip -----

  predicate ReadsAsPosix(shellId: string) {
    shellId != "powershell" && shellId != "pwsh" && shellId != "cmd" && shellId != "fish"
  }

  function Translated(paths: seq<string>, shellId: string): seq<string> {
    if paths == [] then [] else [PathForTerminalShell(paths[0], shellId)] + Translated(paths[1..], shellId)
  }

  lemma EscapedQuoteReadsBack(word: string, rest: string)
    ensures Fields("'\\''" + rest, InSingleQuotes, Some(word)) == Fields(rest, InSingleQuotes, Some(word + "'"))
  {
    var s := "'\\''" + rest;
    assert s[1..] == "\\''" + rest;
    assert s[1..][2..] == "'" + rest;
    assert s[1..][2..][1..] == rest;
    assert Fields(s, InSingleQuotes, Some(word)) == Fields(s[1..], Unquoted, Some(word));
    assert Fields(s[1..], Unquoted, Some(word)) == Fields(s[1..][2..], Unquoted, Some(word + "'"));
  }

  /** Inside single quotes the replaced text reads as the path itself. */
  lemma {:induction false} QuotedTextReadsBack(path: string, word: string, tail: string)
    ensures Fields(Replaced(path, '\'', "'\\''") + ("'" + tail), InSingleQuotes, Some(word))
         == Fields(tail, Unquoted, Some(word + path))
    decreases |path|
  {
    var s := Replaced(path, '\'', "'\\''") + ("'" + tail);
    if path == "" {
      assert s == "'" + tail && s[1..] == tail;
      assert word + path == word;
    } else {
      var rest := Replaced(path[1..], '\'', "'\\''") + ("'" + tail);
      QuotedTextReadsBack(path[1..], word + [path[0]], tail);
      assert word + [path[0]] + path[1..] == word + path;
      if path[0] == '\'' {
        EscapedQuoteReadsBack(word, rest);
        assert s == "'\\''" + rest;
        hide Fields;
        assert word + "'" == word + [path[0]];
      } else {
        assert s == [path[0]] + rest;
        assert s[1..] == rest;
      }
    }
  }

  lemma SafeCharReadsBack(c: char, word: Option<string>, rest: string)
    requires IsSafeChar(c)
    ensures Fields([c] + rest, Unquoted, word) == Fields(rest, Unquoted, Append(word, c))
  {
    assert !IsSpecial(c) && !IsBlankChar(c);
    hide IsSpecial;
    assert ([c] + rest)[1..] == rest;
  }

  lemma {:induction false} SafeTextReadsBack(path: string, word: string, tail: string)
    requires forall i :: 0 <= i < |path| ==> IsSafeChar(path[i])
    ensures Fields(path + tail, Unquoted, Some(word)) == Fields(tail, Unquoted, Some(word + path))
    decreases |path|
  {
    hide Fields, IsSafeChar;
    if path == "" {
      assert path + tail == tail && word + path == word;
    } else {
      assert path + tail == [path[0]] + (path[1..] + tail);
      SafeCharReadsBack(path[0], Some(word), path[1..] + tail);
      SafeTextReadsBack(path[1..], word + [path[0]], tail);
      assert word + [path[0]] + path[1..] == word + path;
    }
  }

  lemma EscapedPathReadsBack(path: string, shellId: string, tail: string)
    requires ReadsAsPosix(shellId)
    ensures Fields(EscapeTerminalPath(path, shellId) + tail, Unquoted, None) == Fields(tail, Unquoted, Some(path))
  {
    if IsSafe(path) {
      assert path + tail == [path[0]] + (path[1..] + tail);
      SafeCharReadsBack(path[0], None, path[1..] + tail);
      SafeTextReadsBack(path[1..], [path[0]], tail);
      assert "" + [path[0]] == [path[0]];
      assert [path[0]] + path[1..] == path;
      hide Fields;
    } else {
      var inner := Replaced(path, '\'', "'\\''");
      QuotedTextReadsBack(path, "", tail);
      assert Quoted(path) + tail == "'" + (inner + ("'" + tail));
      assert ("'" + (inner + ("'" + tail)))[1..] == inner + ("'" + tail);
      assert "" + path == path;
    }
  }

  /** Each escaped path followed by one space. */
  function Spaced(parts: seq<string>): string {
    if parts == [] then "" else parts[0] + (" " + Spaced(parts[1..]))
  }

  lemma {:induction false} JoinIsSpaced(parts: seq<string>)
    requires parts != []
    ensures JoinWithSpaces(parts) + " " == Spaced(parts)
  {
    if |parts| > 1 {
      JoinIsSpaced(parts[1..]);
      assert parts[0] + " " + JoinWithSpaces(parts[1..]) + " " == parts[0] + (" " + (JoinWithSpaces(parts[1..]) + " "));
    }
  }

  lemma {:induction false} SpacedReadsBack(paths: seq<string>, shellId: string)
    requires ReadsAsPosix(shellId)
    ensures Tokenize(Spaced(Escaped(paths, shellId))) == Some(Translated(paths, shellId))
  {
    if paths != [] {
      var tail := " " + Spaced(Escaped(paths[1..], shellId));
      SpacedReadsBack(paths[1..], shellId);
      EscapedPathReadsBack(PathForTerminalShell(paths[0], shellId), shellId, tail);
      assert Escaped(paths, shellId)[1..] == Escaped(paths[1..], shellId);
      assert tail[1..] == Spaced(Escaped(paths[1..], shellId));
    }
  }

  /** A POSIX shell reads the formatted text back as exactly the non-blank paths,
      drive letters translated: for every list of paths and whatever quotes, spaces
      and newlines they hold. */
  lemma FormattedPathsReadBack(paths: seq<string>, shellId: string)
    requires ReadsAsPosix(shellId)
    ensures Tokenize(FormatDroppedPathsForTerminal(paths, shellId)) == Some(Translated(NonBlank(paths), shellId))
  {
    var kept := NonBlank(paths);
    var parts := Escaped(kept, shellId);
    if kept != [] {
      NonBlankKeepsText(paths);
      TranslationKeepsText(kept[0], shellId);
      assert parts[0] != "";
      JoinIsSpaced(parts);
      SpacedReadsBack(kept, shellId);
    }
  }

  lemma {:induction false} NonBlankKeepsText(paths: seq<string>)
    ensures forall i :: 0 <= i < |NonBlank(paths)| ==> !IsBlankPath(NonBlank(paths)[i])
  {
    if paths != [] {
      NonBlankKeepsText(paths[1..]);
    }
  }

  lemma TranslationKeepsText(path: string, shellId: string)
    requires path != ""
    ensures PathForTerminalShell(path, shellId) != ""
  {}

  // ----- the translation of drive letters, character by character -----

  predicate IsSlash(c: char) {
    c == '/' || c == '\\'
  }

  /** The path names a drive, and what lies below it begins at `k`. */
  ghost predicate IsDrivePath(path: string, k: int) {
    && 3 <= k <= |path| && path[1] == ':'
    && (65 <= path[0] as int <= 90 || 97 <= path[0] as int <= 122)
    && (forall i :: 2 <= i < k ==> IsSlash(path[i]))
    && (k < |path| ==> !IsSlash(path[k]))
  }

  /** Where the shell mounts drives, if it does. */
  ghost predicate MountsDrives(shellId: string, mount: string) {
    (mount == "/mnt/" && shellId == "wsl") || (mount == "/" && (shellId == "bash" || shellId == "git-bash"))
  }

  ghost predicate SameDrive(c: char, d: char) {
    (c == d && 'a' <= d <= 'z') || ('A' <= c <= 'Z' && d as int == c as int + 32)
  }

  /** The mount point, the drive in lower case, and what lies below it with forward
      slashes. */
  ghost predicate IsMounted(path: string, k: int, mount: string, r: string)
    requires 3 <= k <= |path|
  {
    var m := |mount|;
    && |r| == m + 2 + |path| - k
    && r[..m] == mount && SameDrive(path[0], r[m]) && r[m + 1] == '/'
    && forall i :: k <= i < |path| ==> r[m + 2 + i - k] == if path[i] == '\\' then '/' else path[i]
  }

  /** What the shell calls the path. */
  ghost predicate IsNameOf(path: string, shellId: string, r: string) {
    if exists k, mount :: IsDrivePath(path, k) && MountsDrives(shellId, mount) then
      exists k, mount :: IsDrivePath(path, k) && MountsDrives(shellId, mount) && IsMounted(path, k, mount, r)
    else r == path
  }

  lemma {:induction false} DropSlashesIs(s: string) returns (n: nat)
    ensures n <= |s| && DropSlashes(s) == s[n..] && (n < |s| ==> s[n] != '/')
    ensures forall i :: 0 <= i < n ==> s[i] == '/'
  {
    if s != "" && s[0] == '/' {
      var rest := DropSlashesIs(s[1..]);
      n := rest + 1;
      assert s[1..][rest..] == s[n..];
      assert forall i :: 1 <= i < n ==> s[i] == s[1..][i - 1];
    } else {
      n := 0;
      assert s[0..] == s;
    }
  }

  /** The beginning of what lies below the drive. */
  lemma DriveEnd(path: string) returns (k: nat)
    requires StartsWithDrive(path)
    ensures IsDrivePath(path, k)
    ensures DropSlashes(ForwardSlashes(path)[2..]) == ForwardSlashes(path)[k..]
  {
    var s := ForwardSlashes(path);
    var n := DropSlashesIs(s[2..]);
    k := n + 2;
    assert s[2..][n..] == s[k..];
    assert s[2..][0] == '/';
    forall i | 2 <= i < k
      ensures IsSlash(path[i])
    {
      assert s[i] == s[2..][i - 2];
    }
    if k < |path| {
      assert s[k] == s[2..][n];
    }
  }

  lemma NameParts(path: string, shellId: string, mount: string)
    requires StartsWithDrive(path) && MountsDrives(shellId, mount)
    ensures PathForTerminalShell(path, shellId)
         == mount + [LowerLetter(path[0])] + "/" + DropSlashes(ForwardSlashes(path)[2..])
  {
    hide DropSlashes;
    var letter, below := [LowerLetter(path[0])], DropSlashes(ForwardSlashes(path)[2..]);
    assert "/" + "" == "/" && "/" + "mnt/" == "/mnt/";
    if shellId == "wsl" {
      assert PathForTerminalShell(path, shellId) == "/" + "mnt/" + letter + "/" + below;
    } else {
      assert PathForTerminalShell(path, shellId) == "/" + "" + letter + "/" + below;
    }
  }

  lemma PartsAreMounted(path: string, k: nat, mount: string, letter: char, below: string)
    requires 3 <= k <= |path| && SameDrive(path[0], letter) && |below| == |path| - k
    requires forall i :: k <= i < |path| ==> below[i - k] == if path[i] == '\\' then '/' else path[i]
    ensures IsMounted(path, k, mount, mount + [letter] + "/" + below)
  {
    hide SameDrive;
    var m := |mount|;
    var r := mount + [letter] + "/" + below;
    assert r[..m] == mount && r[m] == letter && r[m + 1] == '/';
    assert r[m + 2..] == below;
    forall i | k <= i < |path|
      ensures r[m + 2 + i - k] == if path[i] == '\\' then '/' else path[i]
    {
      assert r[m + 2 + i - k] == r[m + 2..][i - k];
    }
  }

  lemma MountIs(path: string, shellId: string, k: nat, mount: string)
    requires StartsWithDrive(path) && MountsDrives(shellId, mount) && k <= |path| && k >= 3
    requires DropSlashes(ForwardSlashes(path)[2..]) == ForwardSlashes(path)[k..]
    ensures IsMounted(path, k, mount, PathForTerminalShell(path, shellId))
  {
    hide DropSlashes, PathForTerminalShell, MountsDrives, IsMounted;
    NameParts(path, shellId, mount);
    PartsAreMounted(path, k, mount, LowerLetter(path[0]), ForwardSlashes(path)[k..]);
  }

  lemma DrivesStart(path: string, k: int)
    requires IsDrivePath(path, k)
    ensures StartsWithDrive(path)
  {
    assert IsSlash(path[2]);
  }

  lemma Mounting(shellId: string) returns (mount: string)
    ensures shellId in {"bash", "git-bash", "wsl"} ==> MountsDrives(shellId, mount)
    ensures (exists m :: MountsDrives(shellId, m)) <==> shellId in {"bash", "git-bash", "wsl"}
  {
    mount := if shellId == "wsl" then "/mnt/" else "/";
    if shellId in {"bash", "git-bash", "wsl"} {
      assert MountsDrives(shellId, mount);
    }
  }

  lemma NotMounted(path: string, shellId: string)
    requires !StartsWithDrive(path) || shellId !in {"bash", "git-bash", "wsl"}
    ensures PathForTerminalShell(path, shellId) == path
  {
    hide DropSlashes, StartsWithDrive;
  }

  /** A drive path is mounted under its lower-case letter where the shell mounts drives,
      and every other path stays as it is. */
  lemma PathIsNamed(path: string, shellId: string)
    ensures IsNameOf(path, shellId, PathForTerminalShell(path, shellId))
  {
    hide IsDrivePath, IsMounted, DropSlashes, PathForTerminalShell, MountsDrives, StartsWithDrive;
    var mount := Mounting(shellId);
    if StartsWithDrive(path) && shellId in {"bash", "git-bash", "wsl"} {
      var k := DriveEnd(path);
      DriveIsLong(path, k);
      MountIs(path, shellId, k, mount);
    } else {
      NotMounted(path, shellId);
      if k, m :| IsDrivePath(path, k) && MountsDrives(shellId, m) {
        DrivesStart(path, k);
      }
    }
  }

  lemma DriveIsLong(path: string, k: int)
    requires IsDrivePath(path, k)
    ensures 3 <= k <= |path|
  {}

  // ----- the whole drop -----

  /** The positions of the paths with text, in order. */
  ghost predicate ArePositionsOfText(paths: seq<string>, positions: seq<nat>) {
    && (forall i :: 0 <= i < |positions| ==> positions[i] < |paths|)
    && (forall i, j :: 0 <= i < j < |positions| ==> positions[i] < positions[j])
    && (forall p: nat :: p < |paths| ==> (p in positions <==> HasText(paths[p])))
  }

  ghost predicate HasText(path: string) {
    exists i :: 0 <= i < |path| && !IsScriptBlank(path[i])
  }

  /** White space and line terminators of ECMA-262, sections 12.2 and 12.3, by code: tab,
      vertical tab, form feed, no-break spaces, the space separators of Unicode, line feed,
      carriage return, line and paragraph separators. */
  ghost predicate IsScriptBlank(c: char) {
    var code := c as int;
    || code == 9 || code == 11 || code == 12 || code == 32 || code == 160 || code == 65279
    || code == 5760 || 8192 <= code <= 8202 || code == 8239 || code == 8287 || code == 12288
    || code == 10 || code == 13 || code == 8232 || code == 8233
  }

  /** In a POSIX shell a path is written as it is iff it has these characters only. */
  lemma PlainIffSafe(path: string, shellId: string)
    requires ReadsAsPosix(shellId)
    ensures EscapeTerminalPath(path, shellId) == path
       <==> path != "" && forall i :: 0 <= i < |path| ==> StaysPlain(path[i])
  {
    if !IsSafe(path) {
      QuotingIsLonger(path);
    }
    hide Replaced;
  }

  ghost predicate StaysPlain(c: char) {
    var code := c as int;
    || 48 <= code <= 57 || 65 <= code <= 90 || 97 <= code <= 122
    || c == '_' || c == '.' || c == '/' || c == '@' || c == ':' || c == '-'
  }

  lemma QuotingIsLonger(path: string)
    ensures |Quoted(path)| >= |path| + 2
  {
    ReplacedIsLonger(path);
  }

  lemma {:induction false} ReplacedIsLonger(path: string)
    ensures |Replaced(path, '\'', "'\\''")| >= |path|
  {
    if path != "" {
      ReplacedIsLonger(path[1..]);
    }
  }

  lemma {:induction false} NonBlankIs(paths: seq<string>) returns (positions: seq<nat>)
    ensures ArePositionsOfText(paths, positions)
    ensures |NonBlank(paths)| == |positions|
    ensures forall i :: 0 <= i < |positions| ==> positions[i] < |paths| && NonBlank(paths)[i] == paths[positions[i]]
  {
    hide HasText, IsBlankPath;
    if paths == [] {
      positions := [];
    } else {
      var rest := NonBlankIs(paths[1..]);
      BlankIff(paths[0]);
      positions := MorePositions(paths, rest);
      hide ArePositionsOfText;
    }
  }

  lemma MorePositions(paths: seq<string>, rest: seq<nat>) returns (positions: seq<nat>)
    requires paths != [] && ArePositionsOfText(paths[1..], rest)
    ensures ArePositionsOfText(paths, positions)
    ensures var n := if HasText(paths[0]) then 1 else 0;
            && |positions| == n + |rest|
            && (n == 1 ==> positions[0] == 0)
            && forall i :: 0 <= i < |rest| ==> positions[n + i] == rest[i] + 1
  {
    hide HasText;
    var shifted := seq(|rest|, i requires 0 <= i < |rest| => rest[i] + 1);
    var first := if HasText(paths[0]) then [0] else [];
    positions := first + shifted;
    forall p: nat | p < |paths|
      ensures p in positions <==> HasText(paths[p])
    {
      Shifted(rest, shifted, p);
      if p > 0 {
        assert paths[1..][p - 1] == paths[p];
        assert p - 1 in rest <==> HasText(paths[1..][p - 1]);
      }
    }
  }

  lemma Shifted(rest: seq<nat>, shifted: seq<nat>, p: nat)
    requires |shifted| == |rest| && forall i :: 0 <= i < |rest| ==> shifted[i] == rest[i] + 1
    ensures p in shifted <==> p > 0 && p - 1 in rest
  {
    if p > 0 && p - 1 in rest {
      var i :| 0 <= i < |rest| && rest[i] == p - 1;
      assert shifted[i] == p;
    }
  }

  lemma BlankIff(path: string)
    ensures IsBlankPath(path) <==> !HasText(path)
  {}

  lemma {:induction false} TranslatedAt(paths: seq<string>, shellId: string)
    ensures |Translated(paths, shellId)| == |paths|
    ensures forall i :: 0 <= i < |paths| ==> Translated(paths, shellId)[i] == PathForTerminalShell(paths[i], shellId)
  {
    if paths != [] {
      TranslatedAt(paths[1..], shellId);
    }
  }

  /** So the shell reads one field for each dropped path with text, in order, and each
      field is what the shell calls that path. */
  lemma DropReadsBack(paths: seq<string>, shellId: string) returns (fields: seq<string>, positions: seq<nat>)
    requires ReadsAsPosix(shellId)
    ensures Tokenize(FormatDroppedPathsForTerminal(paths, shellId)) == Some(fields)
    ensures ArePositionsOfText(paths, positions) && |fields| == |positions|
    ensures forall i :: 0 <= i < |positions| ==> IsNameOf(paths[positions[i]], shellId, fields[i])
  {
    hide Tokenize, FormatDroppedPathsForTerminal, NonBlank, Translated, PathForTerminalShell, ArePositionsOfText, IsNameOf,
      ReadsAsPosix;
    FormattedPathsReadBack(paths, shellId);
    fields := Translated(NonBlank(paths), shellId);
    positions := NonBlankIs(paths);
    PositionsAreInside(paths, positions);
    TranslatedAt(NonBlank(paths), shellId);
    forall i | 0 <= i < |positions|
      ensures IsNameOf(paths[positions[i]], shellId, fields[i])
    {
      PathIsNamed(paths[positions[i]], shellId);
    }
  }

  /** Whatever the shell, a drop without text writes nothing, and any other ends with one
      space, ready for the next word. */
  lemma DropEndsWithSpace(paths: seq<string>, shellId: string)
    ensures var text := FormatDroppedPathsForTerminal(paths, shellId);
            && (text == "" <==> forall i :: 0 <= i < |paths| ==> !HasText(paths[i]))
            && (text != "" ==> |text| > 1 && text[|text| - 1] == ' ')
  {
    hide EscapeTerminalPath, PathForTerminalShell, HasText, IsBlankPath;
    var positions := NonBlankIs(paths);
    var kept := NonBlank(paths);
    if kept != [] {
      assert positions[0] in positions;
      NonBlankKeepsText(paths);
      TextIsNotEmpty(kept[0]);
      TranslationKeepsText(kept[0], shellId);
      EscapingKeepsText(PathForTerminalShell(kept[0], shellId), shellId);
      JoinHasFirst(Escaped(kept, shellId));
    }
  }

  lemma TextIsNotEmpty(path: string)
    requires !IsBlankPath(path)
    ensures path != ""
  {}

  lemma EscapingKeepsText(path: string, shellId: string)
    requires path != ""
    ensures EscapeTerminalPath(path, shellId) != ""
  {
    hide Replaced, CaretEscaped, IsSafe, IsSafeForCmd;
  }

  lemma JoinHasFirst(parts: seq<string>)
    requires parts != [] && parts[0] != ""
    ensures JoinWithSpaces(parts) != ""
  {}

  lemma PositionsAreInside(paths: seq<string>, positions: seq<nat>)
    requires ArePositionsOfText(paths, positions)
    ensures forall i :: 0 <= i < |positions| ==> positions[i] < |paths|
  {}

  /** A translated drive path is absolute and has forward slashes only, so it is not
      translated again. */
  lemma TranslationIsIdempotent(path: string, shellId: string)
    ensures PathForTerminalShell(PathForTerminalShell(path, shellId), shellId) == PathForTerminalShell(path, shellId)
    ensures StartsWithDrive(path) && shellId in {"bash", "git-bash", "wsl"} ==> '\\' !in PathForTerminalShell(path, shellId)
  {
    hide DropSlashes, PathForTerminalShell, IsDrivePath, IsMounted, MountsDrives;
    var mount := Mounting(shellId);
    var r := PathForTerminalShell(path, shellId);
    if StartsWithDrive(path) && shellId in {"bash", "git-bash", "wsl"} {
      var k := DriveEnd(path);
      DriveIsLong(path, k);
      MountIs(path, shellId, k, mount);
      MountedIsAbsolute(path, shellId, k, mount, r);
      NotMounted(r, shellId);
    } else {
      NotMounted(path, shellId);
    }
  }

  lemma MountedIsAbsolute(path: string, shellId: string, k: int, mount: string, r: string)
    requires 3 <= k <= |path| && MountsDrives(shellId, mount) && IsMounted(path, k, mount, r)
    ensures r != "" && r[0] == '/' && !StartsWithDrive(r) && '\\' !in r
  {
    assert r[0] == r[..|mount|][0] == '/';
    forall i | 0 <= i < |r|
      ensures r[i] != '\\'
    {
      if i < |mount| {
        assert r[i] == r[..|mount|][i];
      } else if i >= |mount| + 2 {
        var j := i - |mount| - 2 + k;
        assert r[|mount| + 2 + j - k] == if path[j] == '\\' then '/' else path[j];
      }
    }
  }

  /** Two drops that are formatted alike are read alike: no path is confused with
      several, or with part of one. */
  lemma FormattingIsInjective(paths: seq<string>, others: seq<string>, shellId: string)
    requires ReadsAsPosix(shellId)
    requires FormatDroppedPathsForTerminal(paths, shellId) == FormatDroppedPathsForTerminal(others, shellId)
    ensures Translated(NonBlank(paths), shellId) == Translated(NonBlank(others), shellId)
  {
    FormattedPathsReadBack(paths, shellId);
    FormattedPathsReadBack(others, shellId);
  }
}
