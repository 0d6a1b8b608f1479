/** The `molecule_similarity` configuration and the acceptance test of a
    finished molecule (atomic_search/form_molecules.py:7-15 and 63-79;
    atomic_search.py:59-67 and 123-141). */
module Similarity {
  import opened Base
  import Gestalt

  /** Percent mode carries `similarity_threshold`; tolerance mode carries
      the number of characters a molecule may miss. */
  datatype Similarity = Percent(threshold: int) | Tolerance(missing: nat)

  predicate EndsWithPercent(s: string) {
    |s| > 0 && s[|s| - 1] == '%'
  }

  predicate StartsWithMinus(s: string) {
    |s| > 0 && s[0] == '-'
  }

  /** `abs()` of Python. */
  function Abs(n: int): (r: nat)
    ensures r == n || r == -n
  {
    if n < 0 then -n else n
  }

  /** The `'%'` suffix is tested first, then the `'-'` prefix; any other
      form is rejected, and `int()` may reject the digits. */
  function ParseSimilarity(s: string): (r: Result<Similarity, Error>)
    ensures r.Success? && r.value.Percent? ==> EndsWithPercent(s)
    ensures r.Success? && r.value.Tolerance? ==> StartsWithMinus(s) && !EndsWithPercent(s)
    ensures r == Failure(InvalidSimilarity(s)) <==> !EndsWithPercent(s) && !StartsWithMinus(s)
    ensures EndsWithPercent(s) ==>
      && (r.Success? <==> ParseInt(s[..|s| - 1]).Some?)
      && (r.Success? ==> r.value == Percent(ParseInt(s[..|s| - 1]).value))
      && (r.Failure? ==> r.error == InvalidLiteral(s[..|s| - 1]))
    ensures StartsWithMinus(s) && !EndsWithPercent(s) ==>
      && (r.Success? <==> ParseInt(s).Some?)
      && (r.Success? ==> r.value == Tolerance(Abs(ParseInt(s).value)))
      && (r.Failure? ==> r.error == InvalidLiteral(s))
  {
    if EndsWithPercent(s) then
      match ParseInt(s[..|s| - 1])
      case Some(n) => Success(Percent(n))
      case None => Failure(InvalidLiteral(s[..|s| - 1]))
    else if StartsWithMinus(s) then
      match ParseInt(s)
      case Some(n) => Success(Tolerance(Abs(n)))
      case None => Failure(InvalidLiteral(s))
    else
      Failure(InvalidSimilarity(s))
  }

  /** `"N%"` parses back to percent mode with threshold `N`. */
  lemma {:induction false} ParsePercent(n: int)
    ensures ParseSimilarity(ShowInt(n) + "%") == Success(Percent(n))
  {
    var s := ShowInt(n) + "%";
    assert s[..|s| - 1] == ShowInt(n);
    ParseShowInt(n);
  }

  /** `"-k"` parses back to tolerance mode with `k` missing characters. */
  lemma {:induction false} ParseTolerance(k: nat)
    ensures ParseSimilarity("-" + ShowNat(k)) == Success(Tolerance(k))
  {
    var s := "-" + ShowNat(k);
    assert s[1..] == ShowNat(k);
    assert IsDigit(s[|s| - 1]);
    DigitsValueOfShowNat(k);
  }

  /** Literals that `int()` accepts without being canonical carry the value
      `int()` gives, and digits `int()` rejects fail with the literal. */
  lemma {:induction false} ParseNonCanonical()
    ensures ParseSimilarity("+5%") == Success(Percent(5))
    ensures ParseSimilarity("007%") == Success(Percent(7))
    ensures ParseSimilarity("-05") == Success(Tolerance(5))
    ensures ParseSimilarity("abc%") == Failure(InvalidLiteral("abc"))
    ensures ParseSimilarity("-7x") == Failure(InvalidLiteral("-7x"))
  {
    assert "+5%"[..2] == "+5" && "+5"[1..] == "5" && "5"[..0] == [];
    assert "007%"[..3] == "007" && "007"[..2] == "00" && "00"[..1] == "0" && "0"[..0] == [];
    assert "-05"[1..] == "05" && "05"[..1] == "0";
    assert "abc%"[..3] == "abc";
  }

  /** `SequenceMatcher(None, a, b).ratio() * 100 >= threshold`, with the
      ratio `2 * M / (|a| + |b|)` (1.0 for two empty strings) compared
      exactly rather than in floating point. */
  predicate RatioAtLeast(a: string, b: string, threshold: int) {
    var total := |a| + |b|;
    if total == 0 then 100 >= threshold
    else 200 * Gestalt.MatchCount(a, b) >= threshold * total
  }

  /** Whether a molecule that did not overflow the target is accepted. */
  predicate Accepts(sim: Similarity, molecule: string, target: string) {
    match sim
    case Percent(threshold) => RatioAtLeast(molecule, target, threshold)
    case Tolerance(missing) => |molecule| >= |target| - missing
  }

  /** The closed form of acceptance for a molecule spelling `p` characters
      of an `n`-character target. */
  predicate PrefixAccepted(sim: Similarity, p: nat, n: nat) {
    match sim
    case Percent(threshold) => 200 * p >= threshold * (p + n)
    case Tolerance(missing) => p >= n - missing
  }

  /** For a molecule that spells the first `p > 0` characters of the target,
      percent mode reduces to the integer test `200p >= threshold * (p + n)`
      and tolerance mode to `p >= n - missing`. */
  lemma {:induction false} AcceptsPrefix(sim: Similarity, target: string, p: nat)
    requires 0 < p <= |target|
    ensures Accepts(sim, target[..p], target) <==> PrefixAccepted(sim, p, |target|)
  {
    Gestalt.PrefixMatchCount(target, p);
  }

  /** Under `"100%"` only a molecule spelling the whole target is accepted. */
  lemma {:induction false} FullThresholdNeedsWholeTarget(target: string, p: nat)
    requires 0 < p <= |target|
    ensures Accepts(Percent(100), target[..p], target) <==> p == |target|
  {
    AcceptsPrefix(Percent(100), target, p);
  }
}
