/** Values shared by the models: optional results, sums over sequences and the
    trimming used by the lease and delivery code. */
module Common {

  datatype Option<+T> = None | Some(value: T)

  datatype Result<+T, +E> = Ok(value: T) | Err(error: E)

  /** The sum of a weight over a sequence. */
  ghost function Total<T>(xs: seq<T>, weight: T -> nat): nat {
    if xs == [] then 0 else weight(xs[0]) + Total(xs[1..], weight)
  }

  lemma {:induction false} TotalOfConcat<T>(xs: seq<T>, ys: seq<T>, weight: T -> nat)
    ensures Total(xs + ys, weight) == Total(xs, weight) + Total(ys, weight)
  {
    if xs == [] {
      assert xs + ys == ys;
    } else {
      assert (xs + ys)[1..] == xs[1..] + ys;
      TotalOfConcat(xs[1..], ys, weight);
    }
  }

  lemma {:induction false} TotalOfUpdate<T>(xs: seq<T>, k: nat, x: T, weight: T -> nat)
    requires k < |xs|
    ensures Total(xs[k := x], weight) + weight(xs[k]) == Total(xs, weight) + weight(x)
  {
    if k == 0 {
      assert xs[k := x][1..] == xs[1..];
    } else {
      assert xs[k := x][1..] == xs[1..][k - 1 := x];
      TotalOfUpdate(xs[1..], k - 1, x, weight);
    }
  }

  lemma {:induction false} TotalBoundsPart<T>(xs: seq<T>, k: nat, weight: T -> nat)
    requires k < |xs|
    ensures weight(xs[k]) <= Total(xs, weight)
  {
    if k > 0 {
      TotalBoundsPart(xs[1..], k - 1, weight);
    }
  }

  lemma {:induction false} PositiveTotalHasPart<T>(xs: seq<T>, weight: T -> nat) returns (k: nat)
    requires Total(xs, weight) > 0
    ensures k < |xs| && weight(xs[k]) > 0
  {
    if weight(xs[0]) > 0 {
      k := 0;
    } else {
      k := PositiveTotalHasPart(xs[1..], weight);
      k := k + 1;
    }
  }

  /** Unicode White_Space, as Rust's char::is_whitespace and str::trim use it. */
  predicate IsWhitespace(c: char) {
    || '\U{0009}' <= c <= '\U{000D}'
    || c == '\U{0020}' || c == '\U{0085}' || c == '\U{00A0}' || c == '\U{1680}'
    || '\U{2000}' <= c <= '\U{200A}'
    || c == '\U{2028}' || c == '\U{2029}' || c == '\U{202F}' || c == '\U{205F}' || c == '\U{3000}'
  }

  /** The same characters by their codes in the Unicode Character Database. */
  lemma WhitespaceCodes(c: char)
    ensures var code := c as int;
            IsWhitespace(c) <==>
              || 9 <= code <= 13 || code == 32 || code == 133 || code == 160 || code == 5760
              || 8192 <= code <= 8202 || code == 8232 || code == 8233 || code == 8239 || code == 8287 || code == 12288
  {}

  function TrimStart(s: string): (r: string)
    ensures |r| <= |s|
    ensures r == "" || !IsWhitespace(r[0])
  {
    if s != "" && IsWhitespace(s[0]) then TrimStart(s[1..]) else s
  }

  function TrimEnd(s: string): (r: string)
    ensures |r| <= |s|
    ensures r == "" || !IsWhitespace(r[|r| - 1])
  {
    if s != "" && IsWhitespace(s[|s| - 1]) then TrimEnd(s[..|s| - 1]) else s
  }

  function Trim(s: string): string {
    TrimEnd(TrimStart(s))
  }

  predicate IsBlank(s: string) {
    Trim(s) == ""
  }

  /** Trimming removes whitespace only. */
  lemma TrimKeepsInk(s: string, c: char)
    requires c in s && !IsWhitespace(c)
    ensures c in Trim(s)
  {
    TrimStartKeepsInk(s, c);
    TrimEndKeepsInk(TrimStart(s), c);
  }

  lemma {:induction false} TrimStartKeepsInk(s: string, c: char)
    requires c in s && !IsWhitespace(c)
    ensures c in TrimStart(s)
  {
    if IsWhitespace(s[0]) {
      assert s == [s[0]] + s[1..];
      TrimStartKeepsInk(s[1..], c);
    }
  }

  lemma {:induction false} TrimEndKeepsInk(s: string, c: char)
    requires c in s && !IsWhitespace(c)
    ensures c in TrimEnd(s)
  {
    if IsWhitespace(s[|s| - 1]) {
      assert s == s[..|s| - 1] + [s[|s| - 1]];
      TrimEndKeepsInk(s[..|s| - 1], c);
    }
  }

  /** The text is there and is not blank throughout. */
  ghost predicate HasInk(text: Option<string>) {
    text.Some? && exists i :: 0 <= i < |text.value| && !IsWhitespace(text.value[i])
  }

  lemma {:induction false} TrimStartOfInk(s: string)
    ensures TrimStart(s) != "" <==> HasInk(Some(s))
  {
    if s != "" {
      TrimStartOfInk(s[1..]);
      if k :| 0 <= k < |s| && !IsWhitespace(s[k]) {
        assert k > 0 ==> s[1..][k - 1] == s[k];
      }
      assert HasInk(Some(s[1..])) ==> HasInk(Some(s)) by {
        if k :| 0 <= k < |s[1..]| && !IsWhitespace(s[1..][k]) {
          assert s[k + 1] == s[1..][k];
        }
      }
    }
  }

  lemma {:induction false} TrimEndOfInk(s: string)
    requires s != "" && !IsWhitespace(s[0])
    ensures TrimEnd(s) != ""
  {
    if IsWhitespace(s[|s| - 1]) {
      TrimEndOfInk(s[..|s| - 1]);
    }
  }

  /** Blank texts are those without ink. */
  lemma BlankHasNoInk(s: string)
    ensures IsBlank(s) <==> !HasInk(Some(s))
  {
    TrimStartOfInk(s);
    if HasInk(Some(s)) {
      TrimEndOfInk(TrimStart(s));
    }
  }

  lemma NoneHasNoInk()
    ensures !HasInk(None)
  {}
}
