/** Shared vocabulary: optional and failing results, the engine's error
    kinds, string prefix/substring tests and the decimal integer literals
    that Python's `int()` accepts in the configuration strings. */
module Base {

  datatype Option<+T> = None | Some(value: T)

  datatype Result<+R, +E> = Success(value: R) | Failure(error: E)

  /** The two ways the engine raises `ValueError`: `int()` rejecting a
      literal, and a similarity string of neither accepted form. */
  datatype Error =
    | InvalidLiteral(text: string)
    | InvalidSimilarity(text: string)

  /** `s.startswith(p)` */
  predicate IsPrefix(p: string, s: string) {
    |p| <= |s| && s[..|p|] == p
  }

  /** `needle in hay` for strings: `needle` occurs contiguously in `hay`. */
  predicate IsInfix(needle: string, hay: string) {
    exists k :: 0 <= k <= |hay| - |needle| && OccursAt(needle, hay, k)
  }

  /** `needle` occurs in `hay` starting at offset `k`. */
  predicate OccursAt(needle: string, hay: string, k: int) {
    0 <= k <= |hay| - |needle| && hay[k..k + |needle|] == needle
  }

  predicate IsDigit(c: char) {
    '0' <= c <= '9'
  }

  predicate IsDigits(s: string) {
    |s| > 0 && forall i :: 0 <= i < |s| ==> IsDigit(s[i])
  }

  function DigitValue(c: char): nat
    requires IsDigit(c)
  {
    (c as int) - ('0' as int)
  }

  /** Value of a string of decimal digits, most significant first. */
  function DigitsValue(s: string): nat
    requires forall i :: 0 <= i < |s| ==> IsDigit(s[i])
  {
    if s == [] then 0 else DigitsValue(s[..|s| - 1]) * 10 + DigitValue(s[|s| - 1])
  }

  /** Python's `int(s)` on a string: an optional sign followed by one or
      more ASCII digits; anything else is `None` (the `ValueError`). */
  function ParseInt(s: string): (r: Option<int>)
    ensures r.Some? && |s| > 0 && s[0] == '-' ==> r.value <= 0
    ensures r.Some? && |s| > 0 && s[0] != '-' ==> r.value >= 0
    ensures r.Some? ==> exists i :: 0 <= i < |s| && IsDigit(s[i])
    ensures r.Some? <==> IsDigits(s) || (|s| > 0 && (s[0] == '-' || s[0] == '+') && IsDigits(s[1..]))
  {
    if |s| > 0 && (s[0] == '-' || s[0] == '+') then
      if IsDigits(s[1..]) then
        assert IsDigit(s[1..][0]);
        var v: int := DigitsValue(s[1..]);
        Some(if s[0] == '-' then -v else v)
      else None
    else if IsDigits(s) then
      assert IsDigit(s[0]);
      Some(DigitsValue(s))
    else None
  }

  function DigitChar(d: nat): (c: char)
    requires d < 10
    ensures IsDigit(c) && DigitValue(c) == d
  {
    ('0' as int + d) as char
  }

  /** Decimal rendering of a natural number, the inverse of `DigitsValue`. */
  function ShowNat(n: nat): (s: string)
    ensures IsDigits(s)
  {
    if n < 10 then [DigitChar(n)] else ShowNat(n / 10) + [DigitChar(n % 10)]
  }

  function ShowInt(n: int): string {
    if n < 0 then "-" + ShowNat(-n) else ShowNat(n)
  }

  lemma {:induction false} DigitsValueOfShowNat(n: nat)
    ensures DigitsValue(ShowNat(n)) == n
  {
    var s := ShowNat(n);
    if n >= 10 {
      assert s[..|s| - 1] == ShowNat(n / 10);
      DigitsValueOfShowNat(n / 10);
    }
  }

  /** A decimal rendering ends in a digit. */
  lemma {:induction false} ShowIntEndsInDigit(n: int)
    ensures var s := ShowInt(n); |s| > 0 && IsDigit(s[|s| - 1])
  {
    var d := ShowNat(if n < 0 then -n else n);
    assert IsDigit(d[|d| - 1]);
    if n < 0 {
      assert ShowInt(n)[|ShowInt(n)| - 1] == d[|d| - 1];
    }
  }

  /** `int(str(n)) == n`: rendering then parsing is the identity. */
  lemma {:induction false} ParseShowInt(n: int)
    ensures ParseInt(ShowInt(n)) == Some(n)
  {
    var s := ShowInt(n);
    if n < 0 {
      assert s[0] == '-' && s[1..] == ShowNat(-n);
      DigitsValueOfShowNat(-n);
    } else {
      assert IsDigits(s) && IsDigit(s[0]);
      DigitsValueOfShowNat(n);
    }
  }
}
