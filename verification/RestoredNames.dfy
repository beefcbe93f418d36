/** The display names pass 1 gives to restored agents (src-tauri/src/lib.rs, the
    name block of the pass-1 loop). */
module RestoredNames {

  predicate IsNameChar(c: char) {
    'a' <= c <= 'z' || 'A' <= c <= 'Z' || '0' <= c <= '9' || c == '_' || c == '-'
  }

  /** The characters of names by their ASCII codes: letters, digits, '_' (95) and '-' (45). */
  predicate MayStay(c: char) {
    var code := c as int;
    48 <= code <= 57 || 65 <= code <= 90 || 97 <= code <= 122 || code == 95 || code == 45
  }

  /** Non-empty, over [A-Za-z0-9_-]. */
  predicate IsCleanName(s: string) {
    s != "" && forall i :: 0 <= i < |s| ==> IsNameChar(s[i])
  }

  function Sanitize(raw: string): (r: string)
    ensures |r| == |raw|
    ensures forall i :: 0 <= i < |r| ==> r[i] == if IsNameChar(raw[i]) then raw[i] else '-'
  {
    if raw == "" then ""
    else [if IsNameChar(raw[0]) then raw[0] else '-'] + Sanitize(raw[1..])
  }

  function BaseName(raw: string): (r: string)
    ensures IsCleanName(r)
    ensures IsCleanName(raw) ==> r == raw
    ensures raw == "" ==> r == "agent"
    ensures raw != "" ==> |r| == |raw| && forall i :: 0 <= i < |r| ==> r[i] == if MayStay(raw[i]) then raw[i] else '-'
  {
    var r := Sanitize(raw);
    if r == "" then "agent" else r
  }

  function Digit(d: nat): char
    requires d < 10
  {
    ['0', '1', '2', '3', '4', '5', '6', '7', '8', '9'][d]
  }

  function Decimal(n: nat): (r: string)
    ensures IsCleanName(r)
  {
    if n < 10 then [Digit(n)] else Decimal(n / 10) + [Digit(n % 10)]
  }

  /** The number that a text of digits stands for. */
  function ValueOf(digits: string): int {
    if digits == "" then 0
    else 10 * ValueOf(digits[..|digits| - 1]) + digits[|digits| - 1] as int - '0' as int
  }

  /** A counter is printed in decimal: its text reads back as the counter, has digits
      only, and does not begin with a zero unless it is the zero itself. */
  lemma {:induction false} DecimalReadsBack(n: nat)
    ensures ValueOf(Decimal(n)) == n
    ensures forall i :: 0 <= i < |Decimal(n)| ==> '0' <= Decimal(n)[i] <= '9'
    ensures Decimal(n)[0] == '0' ==> n == 0
  {
    var s := Decimal(n);
    DecimalShape(n);
    if n >= 10 {
      DecimalReadsBack(n / 10);
      assert s == Decimal(n / 10) + [Digit(n % 10)];
    } else {
      assert s[..0] == "";
    }
  }

  /** The candidates for a name: the name itself, then the name with a counter. */
  lemma CandidateIs(base: string, k: nat)
    requires IsCleanName(base)
    ensures k == 0 ==> Candidate(base, k) == base
    ensures k > 0 ==> exists digits :: Candidate(base, k) == base + "-" + digits && ValueOf(digits) == k
  {
    DecimalReadsBack(k);
    if k > 0 {
      assert Candidate(base, k) == base + "-" + Decimal(k) && ValueOf(Decimal(k)) == k;
    }
  }

  lemma {:induction false} DecimalIsInjective(m: nat, n: nat)
    requires Decimal(m) == Decimal(n)
    ensures m == n
  {
    var s, t := Decimal(m), Decimal(n);
    DecimalShape(m);
    DecimalShape(n);
    assert s[|s| - 1] == t[|t| - 1];
    if m >= 10 {
      assert s[..|s| - 1] == t[..|t| - 1];
      DecimalIsInjective(m / 10, n / 10);
    }
  }

  lemma DecimalShape(n: nat)
    ensures var s := Decimal(n);
            && s[|s| - 1] == Digit(n % 10)
            && (|s| == 1 <==> n < 10)
            && (n >= 10 ==> s[..|s| - 1] == Decimal(n / 10))
  {}

  /** format!("{}-{}", base, k). */
  function Suffixed(base: string, k: nat): (r: string)
    requires IsCleanName(base)
    ensures IsCleanName(r)
  {
    base + "-" + Decimal(k)
  }

  lemma SuffixesDiffer(base: string, j: nat, k: nat)
    requires IsCleanName(base)
    ensures Suffixed(base, j) != base
    ensures Suffixed(base, j) == Suffixed(base, k) ==> j == k
  {
    assert |Suffixed(base, j)| > |base|;
    if Suffixed(base, j) == Suffixed(base, k) {
      assert Suffixed(base, j)[|base| + 1..] == Decimal(j);
      assert Suffixed(base, k)[|base| + 1..] == Decimal(k);
      DecimalIsInjective(j, k);
    }
  }

  /** The k-th candidate: the base itself, then the suffixed names. */
  function Candidate(base: string, k: nat): string
    requires IsCleanName(base)
  {
    if k == 0 then base else Suffixed(base, k)
  }

  lemma CandidatesDiffer(base: string, j: nat, k: nat)
    requires IsCleanName(base) && j != k
    ensures Candidate(base, j) != Candidate(base, k)
  {
    SuffixesDiffer(base, j, k);
    SuffixesDiffer(base, k, j);
  }

  /** The name is the first candidate nobody took. */
  ghost predicate FirstFree(base: string, seen: set<string>, name: string, k: nat) {
    && IsCleanName(base)
    && name == Candidate(base, k)
    && name !in seen
    && forall j :: 0 <= j < k ==> Candidate(base, j) in seen
  }

  /** Distinct candidates cannot outnumber a set that holds them all. */
  lemma {:induction false} TakenCandidatesFit(base: string, seen: set<string>, k: nat)
    requires IsCleanName(base) && forall j :: 0 <= j < k ==> Candidate(base, j) in seen
    ensures k <= |seen|
  {
    if k > 0 {
      var last := Candidate(base, k - 1);
      forall j | 0 <= j < k - 1
        ensures Candidate(base, j) in seen - {last}
      {
        CandidatesDiffer(base, j, k - 1);
      }
      TakenCandidatesFit(base, seen - {last}, k - 1);
    }
  }

  /** The suffix loop. It stops because the names taken are finitely many; the
      counter never exceeds their number plus one. */
  method UniqueName(raw: string, seen: set<string>) returns (name: string, counter: nat)
    ensures 1 <= counter <= |seen| + 1
    ensures FirstFree(BaseName(raw), seen, name, counter - 1)
    ensures IsCleanName(name)
  {
    var base := BaseName(raw);
    name := base;
    counter := 1;
    while name in seen
      invariant 1 <= counter <= |seen| + 1 && name == Candidate(base, counter - 1)
      invariant forall j :: 0 <= j < counter - 1 ==> Candidate(base, j) in seen
      decreases |seen| + 1 - counter
    {
      TakenCandidatesFit(base, seen, counter);
      name := Suffixed(base, counter);
      counter := counter + 1;
    }
  }

  function Elements(names: seq<string>): set<string> {
    set name | name in names
  }

  /** The i-th name is the first candidate that no earlier agent took. */
  ghost predicate NamedInTurn(raw: string, names: seq<string>, i: nat)
    requires i < |names|
  {
    exists k :: 0 <= k <= i && FirstFree(BaseName(raw), Elements(names[..i]), names[i], k)
  }

  /** Pass 1 over the saved names of the agents it claimed, in roster order. */
  method RestoreNames(raw: seq<string>) returns (names: seq<string>)
    ensures |names| == |raw|
    ensures forall i :: 0 <= i < |names| ==> IsCleanName(names[i])
    ensures forall i, j :: 0 <= i < j < |names| ==> names[i] != names[j]
    ensures forall i :: 0 <= i < |names| ==>
      NamedInTurn(raw[i], names, i)
  {
    hide FirstFree, BaseName, IsCleanName, IsNameChar;
    names := [];
    var seenNames: set<string> := {};
    while |names| < |raw|
      invariant |names| <= |raw|
      invariant seenNames == Elements(names) && |seenNames| <= |names|
      invariant forall i :: 0 <= i < |names| ==> IsCleanName(names[i])
      invariant forall i, j :: 0 <= i < j < |names| ==> names[i] != names[j]
      invariant forall i :: 0 <= i < |names| ==>
        NamedInTurn(raw[i], names, i)
      decreases |raw| - |names|
    {
      var name, counter := UniqueName(raw[|names|], seenNames);
      ghost var before := names;
      names := names + [name];
      seenNames := seenNames + {name};
      assert names[..|before|] == before;
      assert FirstFree(BaseName(raw[|before|]), Elements(names[..|before|]), names[|before|], counter - 1);
      forall i | 0 <= i < |names|
        ensures NamedInTurn(raw[i], names, i)
      {
        if i < |before| {
          assert NamedInTurn(raw[i], before, i) && names[..i] == before[..i];
        }
      }
    }
  }

  /** A clean name that no earlier agent uses is kept as it was saved. */
  lemma CleanNamesAreKept(raw: string, seen: set<string>, name: string, k: nat)
    requires IsCleanName(raw) && raw !in seen
    requires FirstFree(BaseName(raw), seen, name, k)
    ensures name == raw && k == 0
  {
    assert k > 0 ==> Candidate(raw, 0) in seen;
  }
}
