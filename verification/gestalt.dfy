/** The similarity score used in percent mode:
    `difflib.SequenceMatcher(None, molecule, target).ratio()`, the
    Ratcliff/Obershelp "gestalt" measure. It finds the longest common block
    (the earliest in `a`, then the earliest in `b`, among the longest),
    recurses on the parts left and right of it, and the ratio is
    `2 * M / (|a| + |b|)` for the total matched length `M`.

    No junk function is given, and the "popular element" heuristic only
    applies to a second string of 200 or more characters, which is outside
    this model; without either, difflib's dynamic-programming search and
    the exhaustive search below pick the same block. */
module Gestalt {

  /** A matching block: `a[i..i + size] == b[j..j + size]`. */
  datatype Block = Block(i: nat, j: nat, size: nat)

  /** Length of the common run of `a` from `i` and `b` from `j`. */
  function RunLength(a: string, b: string, i: nat, j: nat): (k: nat)
    requires i <= |a| && j <= |b|
    ensures i + k <= |a| && j + k <= |b|
    ensures a[i..i + k] == b[j..j + k]
    ensures i + k < |a| && j + k < |b| ==> a[i + k] != b[j + k]
    decreases |a| - i
  {
    if i < |a| && j < |b| && a[i] == b[j] then
      var k' := RunLength(a, b, i + 1, j + 1);
      RunCons(a, b, i, j, k');
      1 + k'
    else 0
  }

  /** A common run extends by one character to the left when the characters
      before it agree. */
  lemma {:induction false} RunCons(a: string, b: string, i: nat, j: nat, k: nat)
    requires i + 1 + k <= |a| && j + 1 + k <= |b| && a[i] == b[j]
    requires a[i + 1..i + 1 + k] == b[j + 1..j + 1 + k]
    ensures a[i..i + 1 + k] == b[j..j + 1 + k]
  {
    assert a[i..i + 1 + k] == [a[i]] + a[i + 1..i + 1 + k];
    assert b[j..j + 1 + k] == [b[j]] + b[j + 1..j + 1 + k];
  }

  /** Start `(i', j')` comes before start `(i, j)` in the search order. */
  predicate Before(i': int, j': int, i: int, j: int) {
    i' < i || (i' == i && j' < j)
  }

  /** `best` is no match at all, or a maximal run starting inside both strings. */
  ghost predicate Candidate(a: string, b: string, best: Block) {
    if best.size == 0 then best == Block(0, 0, 0)
    else best.i < |a| && best.j < |b| && RunLength(a, b, best.i, best.j) == best.size
  }

  /** Every start before `(i, j)` has a run no longer than `best`, and every
      start before `best` has a strictly shorter one. */
  ghost predicate BestSoFar(a: string, b: string, i: nat, j: nat, best: Block) {
    && (forall i': nat, j': nat :: Before(i', j', i, j) && i' < |a| && j' < |b| ==> RunLength(a, b, i', j') <= best.size)
    && (best.size > 0 ==>
          forall i': nat, j': nat :: Before(i', j', best.i, best.j) && i' < |a| && j' < |b| ==> RunLength(a, b, i', j') < best.size)
  }

  /** The search for the longest match from start `(i, j)` on, visiting
      starts row by row; a start replaces the best so far only when its run
      is strictly longer, which is what makes the earliest one win. */
  function Scan(a: string, b: string, i: nat, j: nat, best: Block): (r: Block)
    requires i <= |a| && j <= |b|
    requires Candidate(a, b, best) && BestSoFar(a, b, i, j, best)
    requires best.size > 0 ==> Before(best.i, best.j, i, j)
    ensures Candidate(a, b, r) && BestSoFar(a, b, |a|, 0, r)
    decreases |a| - i, |b| - j
  {
    if i == |a| then best
    else if j == |b| then
      RowDone(a, b, i, best);
      Scan(a, b, i + 1, 0, best)
    else
      var k := RunLength(a, b, i, j);
      var best' := if k > best.size then Block(i, j, k) else best;
      ScanStep(a, b, i, j, best);
      Scan(a, b, i, j + 1, best')
  }

  lemma {:induction false} RowDone(a: string, b: string, i: nat, best: Block)
    requires i < |a|
    requires BestSoFar(a, b, i, |b|, best)
    ensures BestSoFar(a, b, i + 1, 0, best)
  {
    forall i': nat, j': nat | Before(i', j', i + 1, 0) && i' < |a| && j' < |b|
      ensures RunLength(a, b, i', j') <= best.size
    {
      assert Before(i', j', i, |b|);
    }
  }

  lemma {:induction false} ScanStep(a: string, b: string, i: nat, j: nat, best: Block)
    requires i < |a| && j < |b|
    requires Candidate(a, b, best) && BestSoFar(a, b, i, j, best)
    requires best.size > 0 ==> Before(best.i, best.j, i, j)
    ensures var k := RunLength(a, b, i, j);
      var best' := if k > best.size then Block(i, j, k) else best;
      Candidate(a, b, best') && BestSoFar(a, b, i, j + 1, best') && (best'.size > 0 ==> Before(best'.i, best'.j, i, j + 1))
  {
    var k := RunLength(a, b, i, j);
    if k > best.size {
      var best' := Block(i, j, k);
      forall i': nat, j': nat | Before(i', j', i, j + 1) && i' < |a| && j' < |b|
        ensures RunLength(a, b, i', j') <= k
      {
        if Before(i', j', i, j) {
        } else {
          assert i' == i && j' == j;
        }
      }
      forall i': nat, j': nat | Before(i', j', i, j) && i' < |a| && j' < |b|
        ensures RunLength(a, b, i', j') < k
      {
      }
    } else {
      forall i': nat, j': nat | Before(i', j', i, j + 1) && i' < |a| && j' < |b|
        ensures RunLength(a, b, i', j') <= best.size
      {
        if Before(i', j', i, j) {
        } else {
          assert i' == i && j' == j;
        }
      }
    }
  }

  /** `find_longest_match` over the whole of both strings. */
  function LongestMatch(a: string, b: string): (r: Block)
    ensures r.i + r.size <= |a| && r.j + r.size <= |b|
    ensures a[r.i..r.i + r.size] == b[r.j..r.j + r.size]
    ensures forall i: nat, j: nat :: i < |a| && j < |b| ==> RunLength(a, b, i, j) <= r.size
    ensures r.size > 0 ==> forall i: nat, j: nat :: Before(i, j, r.i, r.j) && i < |a| && j < |b| ==> RunLength(a, b, i, j) < r.size
    ensures r.size == 0 ==> r == Block(0, 0, 0)
  {
    var r := Scan(a, b, 0, 0, Block(0, 0, 0));
    assert forall i: nat, j: nat :: i < |a| && j < |b| ==> Before(i, j, |a|, 0);
    r
  }

  /** The total length of the matching blocks (`sum of get_matching_blocks`). */
  function MatchCount(a: string, b: string): (m: nat)
    ensures m <= |a| && m <= |b|
    decreases |a| + |b|
  {
    var blk := LongestMatch(a, b);
    if blk.size == 0 then 0
    else
      blk.size
      + MatchCount(a[..blk.i], b[..blk.j])
      + MatchCount(a[blk.i + blk.size..], b[blk.j + blk.size..])
  }

  /** A prefix of `t` of length `p` matches `t` in exactly `p` characters:
      the longest block is the whole prefix, found at the start of both, and
      nothing is left on its left or in the prefix on its right. */
  lemma {:induction false} PrefixMatchCount(t: string, p: nat)
    requires p <= |t|
    ensures MatchCount(t[..p], t) == p
  {
    var a := t[..p];
    if p > 0 {
      var blk := LongestMatch(a, t);
      var k := RunLength(a, t, 0, 0);
      assert k == p;
      assert blk.size == p && blk.i == 0;
      assert |a[..blk.i]| == 0 && |a[blk.i + blk.size..]| == 0;
    }
  }
}
