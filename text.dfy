/** String helpers shared by the database layer and the command replies:
    decimal rendering of ids, Python's `str.join`, substring search and
    the case folding used on SQL text. */
module Text {

  /** The ASCII digit for `d`. */
  function DigitChar(d: nat): (c: char)
    requires d < 10
    ensures '0' <= c <= '9'
  {
    (48 + d) as char
  }

  /** Decimal rendering of a non-negative integer, as Python's f-string
      interpolation of an `int` gives it. */
  function NatToString(n: nat): (s: string)
    ensures |s| >= 1
    ensures forall i :: 0 <= i < |s| ==> '0' <= s[i] <= '9'
    decreases n
  {
    if n < 10 then [DigitChar(n)] else NatToString(n / 10) + [DigitChar(n % 10)]
  }

  /** Different numbers render differently, so anything keyed by the
      rendering of an id is keyed by the id itself. */
  lemma {:induction false} NatToStringInjective(a: nat, b: nat)
    requires NatToString(a) == NatToString(b)
    ensures a == b
  {
    var s := NatToString(a);
    if a >= 10 && b >= 10 {
      var pa, pb := NatToString(a / 10), NatToString(b / 10);
      assert s == pa + [DigitChar(a % 10)] == pb + [DigitChar(b % 10)];
      assert |pa| == |pb|;
      assert s[|s| - 1] == DigitChar(a % 10) == DigitChar(b % 10);
      assert pa == s[..|s| - 1] == pb;
      NatToStringInjective(a / 10, b / 10);
    }
  }

  /** Python's `sep.join(xs)`. */
  function Join(sep: string, xs: seq<string>): string
    decreases |xs|
  {
    if |xs| == 0 then ""
    else if |xs| == 1 then xs[0]
    else xs[0] + sep + Join(sep, xs[1..])
  }

  /** Python's `pattern in s` for strings: some slice of `s` equals `pattern`. */
  predicate Contains(s: string, pattern: string)
    decreases |s|
  {
    if |s| < |pattern| then false
    else s[..|pattern|] == pattern || Contains(s[1..], pattern)
  }

  /** Case folding of one character; only A-Z are folded (see README). */
  function FoldChar(c: char): char
  {
    if 'A' <= c <= 'Z' then (c as int + 32) as char else c
  }

  /** `s.casefold()`, restricted to ASCII letters. */
  function CaseFold(s: string): string
  {
    seq(|s|, i requires 0 <= i < |s| => FoldChar(s[i]))
  }

  /** Folding preserves occurrences: if `pattern` occurs in `s`, its folded
      form occurs in the folded `s`. */
  lemma {:induction false} ContainsFolded(s: string, pattern: string)
    requires Contains(s, pattern)
    ensures Contains(CaseFold(s), CaseFold(pattern))
    decreases |s|
  {
    var fs, fp := CaseFold(s), CaseFold(pattern);
    if s[..|pattern|] == pattern {
      assert fs[..|fp|] == CaseFold(s[..|pattern|]);
    } else {
      ContainsFolded(s[1..], pattern);
      assert fs[1..] == CaseFold(s[1..]);
    }
  }
}
