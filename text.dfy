/** String helpers the source gets from Python's `str`: ASCII lower-casing, the substring test `pat in text`,
    and the decimal rendering of integers used inside f-strings. */
module Text {
  import opened Wrappers

  predicate IsUpper(c: char) { 'A' <= c <= 'Z' }

  /** `c.lower()` restricted to ASCII. */
  function LowerChar(c: char): (r: char)
    ensures IsUpper(c) ==> r as int == c as int + 32
    ensures !IsUpper(c) ==> r == c
    ensures !IsUpper(r)
  {
    if IsUpper(c) then (c as int + 32) as char else c
  }

  /** `s.lower()` restricted to ASCII: upper-case letters become lower case, every other character stays. */
  function Lower(s: string): (r: string)
    ensures |r| == |s|
    ensures forall i :: 0 <= i < |s| && IsUpper(s[i]) ==> r[i] as int == s[i] as int + 32
    ensures forall i :: 0 <= i < |s| && !IsUpper(s[i]) ==> r[i] == s[i]
    ensures forall i :: 0 <= i < |r| ==> !IsUpper(r[i])
  {
    seq(|s|, i requires 0 <= i < |s| => LowerChar(s[i]))
  }

  /** `pat` occurs in `text` starting at position `i`. */
  predicate OccursAt(pat: string, text: string, i: int) {
    0 <= i <= |text| - |pat| && text[i..i + |pat|] == pat
  }

  /** `pat` occurs in `text` as a contiguous block. */
  ghost predicate IsInfix(pat: string, text: string) {
    exists i :: OccursAt(pat, text, i)
  }

  lemma InfixShift(pat: string, text: string)
    requires |pat| <= |text| && text[..|pat|] != pat
    ensures IsInfix(pat, text) <==> IsInfix(pat, text[1..])
  {
    if IsInfix(pat, text) {
      var i :| OccursAt(pat, text, i);
      assert i != 0;
      assert text[1..][i - 1..i - 1 + |pat|] == text[i..i + |pat|];
      assert OccursAt(pat, text[1..], i - 1);
    }
    if IsInfix(pat, text[1..]) {
      var j :| OccursAt(pat, text[1..], j);
      assert text[j + 1..j + 1 + |pat|] == text[1..][j..j + |pat|];
      assert OccursAt(pat, text, j + 1);
    }
  }

  /** Python's `pat in text` for strings: a left-to-right search of every start position. */
  function Contains(text: string, pat: string): (r: bool)
    ensures r <==> IsInfix(pat, text)
    decreases |text|
  {
    if |text| < |pat| then false
    else if text[..|pat|] == pat then (assert OccursAt(pat, text, 0); true)
    else InfixShift(pat, text); Contains(text[1..], pat)
  }

  /** `any(p in text for p in pats)`: some pattern of `pats` occurs in `text`. */
  function AnyContains(text: string, pats: seq<string>): (r: bool)
    ensures r <==> exists k :: 0 <= k < |pats| && IsInfix(pats[k], text)
  {
    if pats == [] then false
    else Contains(text, pats[0]) || AnyContains(text, pats[1..])
  }

  predicate IsDigit(c: char) { '0' <= c <= '9' }

  predicate AllDigits(s: string) { forall i :: 0 <= i < |s| ==> IsDigit(s[i]) }

  function DigitChar(d: nat): (c: char)
    requires d < 10
    ensures IsDigit(c) && c as int - '0' as int == d
  {
    ('0' as int + d) as char
  }

  /** Decimal digits of `n`, most significant first, without leading zeros. */
  function NatToString(n: nat): (s: string)
    ensures |s| >= 1 && AllDigits(s)
    ensures |s| > 1 ==> s[0] != '0'
  {
    if n < 10 then [DigitChar(n)] else NatToString(n / 10) + [DigitChar(n % 10)]
  }

  /** Python's `str(n)` for an `int`, as an f-string renders it. */
  function IntToString(n: int): (s: string)
    ensures |s| >= 1
    ensures n < 0 <==> s[0] == '-'
  {
    if n < 0 then "-" + NatToString(-n) else NatToString(n)
  }

  /** The value of a string of decimal digits. */
  function DigitsValue(s: string): nat
    requires AllDigits(s)
  {
    if s == [] then 0 else 10 * DigitsValue(s[..|s| - 1]) + (s[|s| - 1] as int - '0' as int)
  }

  /** Reads back what `IntToString` writes: an optional `-` followed by one or more digits. */
  function ParseInt(s: string): (r: Option<int>)
    ensures r.Some? ==> |s| >= 1
  {
    if |s| >= 2 && s[0] == '-' && AllDigits(s[1..]) then var v: int := DigitsValue(s[1..]); Some(-v)
    else if |s| >= 1 && AllDigits(s) then Some(DigitsValue(s))
    else None
  }

  lemma {:induction false} NatToStringValue(n: nat)
    ensures DigitsValue(NatToString(n)) == n
  {
    if n >= 10 {
      var s := NatToString(n);
      assert s[..|s| - 1] == NatToString(n / 10);
      NatToStringValue(n / 10);
    }
  }

  /** Rendering an integer and reading it back gives the integer: the rendering loses nothing. */
  lemma IntToStringRoundTrip(n: int)
    ensures ParseInt(IntToString(n)) == Some(n)
  {
    var s := IntToString(n);
    if n < 0 {
      var digits := NatToString(-n);
      assert s == "-" + digits;
      assert s[1..] == digits;
      assert |s| >= 2 && s[0] == '-' && AllDigits(s[1..]);
      NatToStringValue(-n);
    } else {
      assert s == NatToString(n);
      assert s[0] != '-' && AllDigits(s);
      NatToStringValue(n);
    }
  }
}
