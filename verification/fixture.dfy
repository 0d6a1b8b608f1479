/** The pool of the repository's tests (tests/test_extract_atoms.py:6-7)
    and the `"mencarik"` assembly run on it (tests/test_form_molecule.py:5-14),
    traced start by start. The trace is driven by first letters: a
    candidate whose first letter is not the next letter of the target can
    never extend the molecule, and a start whose first letter is not the
    target's cannot begin one. */
module Fixture {
  import opened Base
  import opened Extraction
  import opened Similarity
  import opened Assembly

  // ---------------------------------------------------------------------
  // Reasoning by first letters
  // ---------------------------------------------------------------------

  /** A string whose first letter differs from `s`'s is no prefix of `s`. */
  lemma {:induction false} HeadsDiffer(p: string, s: string)
    requires p != [] && s != [] && p[0] != s[0]
    ensures !IsPrefix(p, s)
  {
  }

  /** Candidate `c` is used, or cannot spell the next letter of `rest`. */
  predicate Blocked(atoms: seq<Atom>, used: seq<bool>, c: nat, rest: string)
    requires WellFormed(atoms, used) && c < |atoms| && rest != []
  {
    used[c] || atoms[c].value[0] != rest[0]
  }

  /** Every candidate at a position in `[k, q)` is blocked. */
  predicate AllBlocked(atoms: seq<Atom>, used: seq<bool>, cands: seq<nat>, rest: string, k: nat, q: nat)
    requires WellFormed(atoms, used) && ValidIds(atoms, cands) && k <= q <= |cands| && rest != []
    decreases q - k
  {
    k == q || (Blocked(atoms, used, cands[k], rest) && AllBlocked(atoms, used, cands, rest, k + 1, q))
  }

  /** Atom `c` begins with another letter than every atom of `local` from
      position `k` on. */
  predicate HeadsApart(atoms: seq<Atom>, used: seq<bool>, local: seq<nat>, c: nat, k: nat)
    requires WellFormed(atoms, used) && ValidIds(atoms, local) && c < |atoms| && k <= |local|
    decreases |local| - k
  {
    k == |local| || (atoms[local[k]].value[0] != atoms[c].value[0] && HeadsApart(atoms, used, local, c, k + 1))
  }

  /** An atom whose first letter differs from that of every claimed atom is
      not claimed, under either rule. */
  lemma {:induction false} HeadsApartUnclaimed(rule: ClaimRule, atoms: seq<Atom>, used: seq<bool>, local: seq<nat>, c: nat)
    requires WellFormed(atoms, used) && ValidIds(atoms, local) && c < |atoms|
    requires HeadsApart(atoms, used, local, c, 0)
    ensures !Claimed(rule, atoms, used, local, c)
  {
    HeadsApartFrom(atoms, used, local, c, 0);
    if rule == ByValue {
      NotSameAtomIn(atoms, used, local, c);
    }
  }

  lemma {:induction false} HeadsApartFrom(atoms: seq<Atom>, used: seq<bool>, local: seq<nat>, c: nat, k: nat)
    requires WellFormed(atoms, used) && ValidIds(atoms, local) && c < |atoms| && k <= |local|
    requires HeadsApart(atoms, used, local, c, k)
    ensures forall j :: k <= j < |local| ==> atoms[local[j]].value[0] != atoms[c].value[0]
    decreases |local| - k
  {
    if k < |local| {
      HeadsApartFrom(atoms, used, local, c, k + 1);
    }
  }

  lemma {:induction false} NotSameAtomIn(atoms: seq<Atom>, used: seq<bool>, local: seq<nat>, c: nat)
    requires WellFormed(atoms, used) && ValidIds(atoms, local) && c < |atoms|
    requires forall j :: 0 <= j < |local| ==> atoms[local[j]].value[0] != atoms[c].value[0]
    ensures !SameAtomIn(atoms, used, local, c)
    decreases |local|
  {
    if local != [] {
      NotSameAtomIn(atoms, used, local[1..], c);
    }
  }

  /** Blocked candidates are passed over by the scan for the next atom. */
  lemma {:induction false} FirstFitPast(rule: ClaimRule, atoms: seq<Atom>, used: seq<bool>, cands: seq<nat>,
                                        local: seq<nat>, rest: string, k: nat, q: nat)
    requires WellFormed(atoms, used) && ValidIds(atoms, cands) && ValidIds(atoms, local)
    requires k <= q <= |cands| && rest != [] && AllBlocked(atoms, used, cands, rest, k, q)
    ensures FirstFit(rule, atoms, used, cands, local, rest, k) == FirstFit(rule, atoms, used, cands, local, rest, q)
    decreases q - k
  {
    if k < q {
      var c := cands[k];
      if atoms[c].value[0] != rest[0] {
        HeadsDiffer(atoms[c].value, rest);
      }
      FirstFitPast(rule, atoms, used, cands, local, rest, k + 1, q);
    }
  }

  /** The scan stops at position `q` when every earlier candidate is
      blocked and the candidate at `q` is unused, unclaimed and spells the
      next part of the target. */
  lemma {:induction false} FirstFitAt(rule: ClaimRule, atoms: seq<Atom>, used: seq<bool>, cands: seq<nat>,
                                      local: seq<nat>, rest: string, q: nat)
    requires WellFormed(atoms, used) && ValidIds(atoms, cands) && ValidIds(atoms, local)
    requires q < |cands| && rest != [] && AllBlocked(atoms, used, cands, rest, 0, q)
    requires !used[cands[q]] && HeadsApart(atoms, used, local, cands[q], 0) && IsPrefix(atoms[cands[q]].value, rest)
    ensures FirstFit(rule, atoms, used, cands, local, rest, 0) == Some(q)
  {
    FirstFitPast(rule, atoms, used, cands, local, rest, 0, q);
    HeadsApartUnclaimed(rule, atoms, used, local, cands[q]);
  }

  /** No start at a position in `[s, t)` begins with the target's first letter. */
  predicate StartsOff(atoms: seq<Atom>, cands: seq<nat>, target: string, s: nat, t: nat)
    requires ValidIds(atoms, cands) && s <= t <= |cands| && target != []
    requires forall id :: 0 <= id < |atoms| ==> atoms[id].value != []
    decreases t - s
  {
    s == t || (atoms[cands[s]].value[0] != target[0] && StartsOff(atoms, cands, target, s + 1, t))
  }

  /** Those starts change nothing. */
  lemma {:induction false} SkipStarts(rule: ClaimRule, atoms: seq<Atom>, cands: seq<nat>, target: string,
                                      sim: Similarity, s: nat, t: nat, st: Tally)
    requires WellFormed(atoms, st.used) && ValidIds(atoms, cands) && s <= t <= |cands| && target != []
    requires StartsOff(atoms, cands, target, s, t)
    ensures AssembleFrom(rule, atoms, cands, target, sim, s, st) == AssembleFrom(rule, atoms, cands, target, sim, t, st)
    decreases t - s
  {
    if s < t {
      HeadsDiffer(atoms[cands[s]].value, target);
      assert Step(rule, atoms, cands, target, sim, s, st) == st;
      SkipStarts(rule, atoms, cands, target, sim, s + 1, t, st);
    }
  }

  /** Filing one more atom extends a bucket by its id or not at all. */
  lemma {:induction false} BucketSnoc(atoms: seq<Atom>, key: string, n: nat)
    requires n < |atoms|
    ensures Bucket(atoms[..n + 1], key) == Bucket(atoms[..n], key) + if atoms[n].owner == key then [n] else []
  {
    var pre := atoms[..n + 1];
    assert pre[..n] == atoms[..n] && pre[n] == atoms[n];
  }

  // ---------------------------------------------------------------------
  // The test pool
  // ---------------------------------------------------------------------

  /** `extract_atoms(["mencarik", "test", "apa"], ..., 1)` on the test's
      search text, as an arena: atom `i` of the pool. */
  function TestAtom(i: int): Atom {
    match i
    case 0 => Atom("men", "mencarik")
    case 1 => Atom("rik", "mencarik")
    case 2 => Atom("ca", "mencarik")
    case 3 => Atom("nc", "mencarik")
    case 4 => Atom("a", AmbiguousKey)
    case 5 => Atom("m", "mencarik")
    case 6 => Atom("e", AmbiguousKey)
    case 7 => Atom("ar", "mencarik")
    case 8 => Atom("nc", "mencarik")
    case 9 => Atom("i", "mencarik")
    case 10 => Atom("k", "mencarik")
    case 11 => Atom("a", AmbiguousKey)
    case 12 => Atom("st", "test")
    case 13 => Atom("pa", "apa")
    case 14 => Atom("te", "test")
    case 15 => Atom("pa", "apa")
    case 16 => Atom("a", AmbiguousKey)
    case _ => Atom("pa", "apa")
  }

  function TestPool(): seq<Atom> {
    seq(18, TestAtom)
  }

  /** The candidates of `"mencarik"`: its bucket, then the ambiguous one. */
  function Order(): seq<nat> {
    seq(13, k => OrderAt(k))
  }

  function OrderAt(k: int): nat {
    match k
    case 0 => 0
    case 1 => 1
    case 2 => 2
    case 3 => 3
    case 4 => 5
    case 5 => 7
    case 6 => 8
    case 7 => 9
    case 8 => 10
    case 9 => 4
    case 10 => 6
    case 11 => 11
    case _ => 16
  }

  lemma {:induction false} PoolFacts(used: seq<bool>)
    requires |used| == 18
    ensures WellFormed(TestPool(), used) && ValidIds(TestPool(), Order())
  {
  }

  lemma {:induction false} MencarikUpto2()
    ensures Bucket(TestPool()[..2], "mencarik") == [0, 1]
  {
    var atoms := TestPool();
    assert atoms[..0] == [];
    BucketSnoc(atoms, "mencarik", 0);
    assert Bucket(atoms[..1], "mencarik") == [0];
    BucketSnoc(atoms, "mencarik", 1);
  }

  lemma {:induction false} MencarikUpto4()
    ensures Bucket(TestPool()[..4], "mencarik") == [0, 1, 2, 3]
  {
    var atoms := TestPool();
    MencarikUpto2();
    BucketSnoc(atoms, "mencarik", 2);
    assert Bucket(atoms[..3], "mencarik") == [0, 1, 2];
    BucketSnoc(atoms, "mencarik", 3);
  }

  lemma {:induction false} MencarikUpto6()
    ensures Bucket(TestPool()[..6], "mencarik") == [0, 1, 2, 3, 5]
  {
    var atoms := TestPool();
    MencarikUpto4();
    BucketSnoc(atoms, "mencarik", 4);
    assert Bucket(atoms[..5], "mencarik") == [0, 1, 2, 3];
    BucketSnoc(atoms, "mencarik", 5);
  }

  lemma {:induction false} MencarikUpto8()
    ensures Bucket(TestPool()[..8], "mencarik") == [0, 1, 2, 3, 5, 7]
  {
    var atoms := TestPool();
    MencarikUpto6();
    BucketSnoc(atoms, "mencarik", 6);
    assert Bucket(atoms[..7], "mencarik") == [0, 1, 2, 3, 5];
    BucketSnoc(atoms, "mencarik", 7);
  }

  lemma {:induction false} MencarikUpto10()
    ensures Bucket(TestPool()[..10], "mencarik") == [0, 1, 2, 3, 5, 7, 8, 9]
  {
    var atoms := TestPool();
    MencarikUpto8();
    BucketSnoc(atoms, "mencarik", 8);
    assert Bucket(atoms[..9], "mencarik") == [0, 1, 2, 3, 5, 7, 8];
    BucketSnoc(atoms, "mencarik", 9);
  }

  lemma {:induction false} MencarikUpto12()
    ensures Bucket(TestPool()[..12], "mencarik") == [0, 1, 2, 3, 5, 7, 8, 9, 10]
  {
    var atoms := TestPool();
    MencarikUpto10();
    BucketSnoc(atoms, "mencarik", 10);
    assert Bucket(atoms[..11], "mencarik") == [0, 1, 2, 3, 5, 7, 8, 9, 10];
    BucketSnoc(atoms, "mencarik", 11);
  }

  lemma {:induction false} MencarikUpto14()
    ensures Bucket(TestPool()[..14], "mencarik") == [0, 1, 2, 3, 5, 7, 8, 9, 10]
  {
    var atoms := TestPool();
    MencarikUpto12();
    BucketSnoc(atoms, "mencarik", 12);
    assert Bucket(atoms[..13], "mencarik") == [0, 1, 2, 3, 5, 7, 8, 9, 10];
    BucketSnoc(atoms, "mencarik", 13);
  }

  lemma {:induction false} MencarikUpto16()
    ensures Bucket(TestPool()[..16], "mencarik") == [0, 1, 2, 3, 5, 7, 8, 9, 10]
  {
    var atoms := TestPool();
    MencarikUpto14();
    BucketSnoc(atoms, "mencarik", 14);
    assert Bucket(atoms[..15], "mencarik") == [0, 1, 2, 3, 5, 7, 8, 9, 10];
    BucketSnoc(atoms, "mencarik", 15);
  }

  lemma {:induction false} MencarikUpto18()
    ensures Bucket(TestPool()[..18], "mencarik") == [0, 1, 2, 3, 5, 7, 8, 9, 10]
  {
    var atoms := TestPool();
    MencarikUpto16();
    BucketSnoc(atoms, "mencarik", 16);
    assert Bucket(atoms[..17], "mencarik") == [0, 1, 2, 3, 5, 7, 8, 9, 10];
    BucketSnoc(atoms, "mencarik", 17);
  }

  lemma {:induction false} AmbiguousUpto2()
    ensures Bucket(TestPool()[..2], AmbiguousKey) == []
  {
    var atoms := TestPool();
    assert atoms[..0] == [];
    BucketSnoc(atoms, AmbiguousKey, 0);
    assert Bucket(atoms[..1], AmbiguousKey) == [];
    BucketSnoc(atoms, AmbiguousKey, 1);
  }

  lemma {:induction false} AmbiguousUpto4()
    ensures Bucket(TestPool()[..4], AmbiguousKey) == []
  {
    var atoms := TestPool();
    AmbiguousUpto2();
    BucketSnoc(atoms, AmbiguousKey, 2);
    assert Bucket(atoms[..3], AmbiguousKey) == [];
    BucketSnoc(atoms, AmbiguousKey, 3);
  }

  lemma {:induction false} AmbiguousUpto6()
    ensures Bucket(TestPool()[..6], AmbiguousKey) == [4]
  {
    var atoms := TestPool();
    AmbiguousUpto4();
    BucketSnoc(atoms, AmbiguousKey, 4);
    assert Bucket(atoms[..5], AmbiguousKey) == [4];
    BucketSnoc(atoms, AmbiguousKey, 5);
  }

  lemma {:induction false} AmbiguousUpto8()
    ensures Bucket(TestPool()[..8], AmbiguousKey) == [4, 6]
  {
    var atoms := TestPool();
    AmbiguousUpto6();
    BucketSnoc(atoms, AmbiguousKey, 6);
    assert Bucket(atoms[..7], AmbiguousKey) == [4, 6];
    BucketSnoc(atoms, AmbiguousKey, 7);
  }

  lemma {:induction false} AmbiguousUpto10()
    ensures Bucket(TestPool()[..10], AmbiguousKey) == [4, 6]
  {
    var atoms := TestPool();
    AmbiguousUpto8();
    BucketSnoc(atoms, AmbiguousKey, 8);
    assert Bucket(atoms[..9], AmbiguousKey) == [4, 6];
    BucketSnoc(atoms, AmbiguousKey, 9);
  }

  lemma {:induction false} AmbiguousUpto12()
    ensures Bucket(TestPool()[..12], AmbiguousKey) == [4, 6, 11]
  {
    var atoms := TestPool();
    AmbiguousUpto10();
    BucketSnoc(atoms, AmbiguousKey, 10);
    assert Bucket(atoms[..11], AmbiguousKey) == [4, 6];
    BucketSnoc(atoms, AmbiguousKey, 11);
  }

  lemma {:induction false} AmbiguousUpto14()
    ensures Bucket(TestPool()[..14], AmbiguousKey) == [4, 6, 11]
  {
    var atoms := TestPool();
    AmbiguousUpto12();
    BucketSnoc(atoms, AmbiguousKey, 12);
    assert Bucket(atoms[..13], AmbiguousKey) == [4, 6, 11];
    BucketSnoc(atoms, AmbiguousKey, 13);
  }

  lemma {:induction false} AmbiguousUpto16()
    ensures Bucket(TestPool()[..16], AmbiguousKey) == [4, 6, 11]
  {
    var atoms := TestPool();
    AmbiguousUpto14();
    BucketSnoc(atoms, AmbiguousKey, 14);
    assert Bucket(atoms[..15], AmbiguousKey) == [4, 6, 11];
    BucketSnoc(atoms, AmbiguousKey, 15);
  }

  lemma {:induction false} AmbiguousUpto18()
    ensures Bucket(TestPool()[..18], AmbiguousKey) == [4, 6, 11, 16]
  {
    var atoms := TestPool();
    AmbiguousUpto16();
    BucketSnoc(atoms, AmbiguousKey, 16);
    assert Bucket(atoms[..17], AmbiguousKey) == [4, 6, 11, 16];
    BucketSnoc(atoms, AmbiguousKey, 17);
  }

  lemma {:induction false} TestCandidates()
    ensures Candidates(TestPool(), "mencarik") == Order()
  {
    var atoms := TestPool();
    MencarikUpto18();
    AmbiguousUpto18();
    assert atoms[..18] == atoms;
    assert [0, 1, 2, 3, 5, 7, 8, 9, 10] + [4, 6, 11, 16] == Order();
  }

  // ---------------------------------------------------------------------
  // The "mencarik" run under "100%"
  // ---------------------------------------------------------------------

  /** Every atom unused, as extracted. */
  function Fresh(): seq<bool> {
    seq(18, _ => false)
  }

  /** After the first molecule `men|ca|rik`. */
  function AfterFirst(): seq<bool> {
    seq(18, i => i <= 2)
  }

  /** After the second molecule `m|e|nc|ar|i|k`. */
  function AfterSecond(): seq<bool> {
    seq(18, i => i <= 3 || (5 <= i <= 7) || i == 9 || i == 10)
  }

  /** From start 0 (`men`) the scan for `carik` skips `men` and `rik` and
      takes `ca`. */
  lemma {:induction false} FirstFitCa(rule: ClaimRule, atoms: seq<Atom>, used: seq<bool>, cands: seq<nat>, target: string)
    requires atoms == TestPool() && used == Fresh() && cands == Order() && target == "mencarik"
    ensures FirstFit(rule, atoms, used, cands, [0], target[3..], 0) == Some(2)
  {
    PoolFacts(used);
    assert target[3..] == "carik";
    FirstFitAt(rule, atoms, used, cands, [0], target[3..], 2);
  }

  /** Then the scan for `rik` takes `rik`. */
  lemma {:induction false} FirstFitRik(rule: ClaimRule, atoms: seq<Atom>, used: seq<bool>, cands: seq<nat>, target: string)
    requires atoms == TestPool() && used == Fresh() && cands == Order() && target == "mencarik"
    ensures FirstFit(rule, atoms, used, cands, [0, 2], target[5..], 0) == Some(1)
  {
    PoolFacts(used);
    assert target[5..] == "rik";
    FirstFitAt(rule, atoms, used, cands, [0, 2], target[5..], 1);
  }

  /** From start 4 (the second `m`), with the first molecule's atoms used,
      the scan for `encarik` passes over everything up to the ambiguous
      `e`. */
  lemma {:induction false} FirstFitE(rule: ClaimRule, atoms: seq<Atom>, used: seq<bool>, cands: seq<nat>, target: string)
    requires atoms == TestPool() && used == AfterFirst() && cands == Order() && target == "mencarik"
    ensures FirstFit(rule, atoms, used, cands, [5], target[1..], 0) == Some(10)
  {
    PoolFacts(used);
    assert target[1..] == "encarik";
    FirstFitAt(rule, atoms, used, cands, [5], target[1..], 10);
  }

  /** The scan for `ncarik` takes the first `nc`. */
  lemma {:induction false} FirstFitNc(rule: ClaimRule, atoms: seq<Atom>, used: seq<bool>, cands: seq<nat>, target: string)
    requires atoms == TestPool() && used == AfterFirst() && cands == Order() && target == "mencarik"
    ensures FirstFit(rule, atoms, used, cands, [5, 6], target[2..], 0) == Some(3)
  {
    PoolFacts(used);
    assert target[2..] == "ncarik";
    FirstFitAt(rule, atoms, used, cands, [5, 6], target[2..], 3);
  }

  /** The scan for `arik` takes `ar`. */
  lemma {:induction false} FirstFitAr(rule: ClaimRule, atoms: seq<Atom>, used: seq<bool>, cands: seq<nat>, target: string)
    requires atoms == TestPool() && used == AfterFirst() && cands == Order() && target == "mencarik"
    ensures FirstFit(rule, atoms, used, cands, [5, 6, 3], target[4..], 0) == Some(5)
  {
    PoolFacts(used);
    assert target[4..] == "arik";
    FirstFitAt(rule, atoms, used, cands, [5, 6, 3], target[4..], 5);
  }

  /** The scan for `ik` takes `i`. */
  lemma {:induction false} FirstFitI(rule: ClaimRule, atoms: seq<Atom>, used: seq<bool>, cands: seq<nat>, target: string)
    requires atoms == TestPool() && used == AfterFirst() && cands == Order() && target == "mencarik"
    ensures FirstFit(rule, atoms, used, cands, [5, 6, 3, 7], target[6..], 0) == Some(7)
  {
    PoolFacts(used);
    assert target[6..] == "ik";
    FirstFitAt(rule, atoms, used, cands, [5, 6, 3, 7], target[6..], 7);
  }

  /** The scan for `k` takes `k`. */
  lemma {:induction false} FirstFitK(rule: ClaimRule, atoms: seq<Atom>, used: seq<bool>, cands: seq<nat>, target: string)
    requires atoms == TestPool() && used == AfterFirst() && cands == Order() && target == "mencarik"
    ensures FirstFit(rule, atoms, used, cands, [5, 6, 3, 7, 9], target[7..], 0) == Some(8)
  {
    PoolFacts(used);
    assert target[7..] == "k";
    FirstFitAt(rule, atoms, used, cands, [5, 6, 3, 7, 9], target[7..], 8);
  }

  lemma {:induction false} TurnCa(rule: ClaimRule, atoms: seq<Atom>, used: seq<bool>, cands: seq<nat>, target: string)
    requires atoms == TestPool() && used == Fresh() && cands == Order() && target == "mencarik"
    ensures WellFormed(atoms, used) && ValidIds(atoms, cands)
    ensures Extend(rule, atoms, used, cands, target, [0], 3)
         == Extend(rule, atoms, used, cands, target, [0, 2], 5)
  {
    PoolFacts(used);
    FirstFitCa(rule, atoms, used, cands, target);
    ExtendNext(rule, atoms, used, cands, target, [0], 3, 2);
    assert cands[2] == 2 && |atoms[2].value| == 2;
    assert [0] + [2] == [0, 2];
  }

  lemma {:induction false} TurnRik(rule: ClaimRule, atoms: seq<Atom>, used: seq<bool>, cands: seq<nat>, target: string)
    requires atoms == TestPool() && used == Fresh() && cands == Order() && target == "mencarik"
    ensures WellFormed(atoms, used) && ValidIds(atoms, cands)
    ensures Extend(rule, atoms, used, cands, target, [0, 2], 5)
         == Extend(rule, atoms, used, cands, target, [0, 2, 1], 8)
  {
    PoolFacts(used);
    FirstFitRik(rule, atoms, used, cands, target);
    ExtendNext(rule, atoms, used, cands, target, [0, 2], 5, 1);
    assert cands[1] == 1 && |atoms[1].value| == 3;
    assert [0, 2] + [1] == [0, 2, 1];
  }

  lemma {:induction false} TurnE(rule: ClaimRule, atoms: seq<Atom>, used: seq<bool>, cands: seq<nat>, target: string)
    requires atoms == TestPool() && used == AfterFirst() && cands == Order() && target == "mencarik"
    ensures WellFormed(atoms, used) && ValidIds(atoms, cands)
    ensures Extend(rule, atoms, used, cands, target, [5], 1)
         == Extend(rule, atoms, used, cands, target, [5, 6], 2)
  {
    PoolFacts(used);
    FirstFitE(rule, atoms, used, cands, target);
    ExtendNext(rule, atoms, used, cands, target, [5], 1, 10);
    assert cands[10] == 6 && |atoms[6].value| == 1;
    assert [5] + [6] == [5, 6];
  }

  lemma {:induction false} TurnNc(rule: ClaimRule, atoms: seq<Atom>, used: seq<bool>, cands: seq<nat>, target: string)
    requires atoms == TestPool() && used == AfterFirst() && cands == Order() && target == "mencarik"
    ensures WellFormed(atoms, used) && ValidIds(atoms, cands)
    ensures Extend(rule, atoms, used, cands, target, [5, 6], 2)
         == Extend(rule, atoms, used, cands, target, [5, 6, 3], 4)
  {
    PoolFacts(used);
    FirstFitNc(rule, atoms, used, cands, target);
    ExtendNext(rule, atoms, used, cands, target, [5, 6], 2, 3);
    assert cands[3] == 3 && |atoms[3].value| == 2;
    assert [5, 6] + [3] == [5, 6, 3];
  }

  lemma {:induction false} TurnAr(rule: ClaimRule, atoms: seq<Atom>, used: seq<bool>, cands: seq<nat>, target: string)
    requires atoms == TestPool() && used == AfterFirst() && cands == Order() && target == "mencarik"
    ensures WellFormed(atoms, used) && ValidIds(atoms, cands)
    ensures Extend(rule, atoms, used, cands, target, [5, 6, 3], 4)
         == Extend(rule, atoms, used, cands, target, [5, 6, 3, 7], 6)
  {
    PoolFacts(used);
    FirstFitAr(rule, atoms, used, cands, target);
    ExtendNext(rule, atoms, used, cands, target, [5, 6, 3], 4, 5);
    assert cands[5] == 7 && |atoms[7].value| == 2;
    assert [5, 6, 3] + [7] == [5, 6, 3, 7];
  }

  lemma {:induction false} TurnI(rule: ClaimRule, atoms: seq<Atom>, used: seq<bool>, cands: seq<nat>, target: string)
    requires atoms == TestPool() && used == AfterFirst() && cands == Order() && target == "mencarik"
    ensures WellFormed(atoms, used) && ValidIds(atoms, cands)
    ensures Extend(rule, atoms, used, cands, target, [5, 6, 3, 7], 6)
         == Extend(rule, atoms, used, cands, target, [5, 6, 3, 7, 9], 7)
  {
    PoolFacts(used);
    FirstFitI(rule, atoms, used, cands, target);
    ExtendNext(rule, atoms, used, cands, target, [5, 6, 3, 7], 6, 7);
    assert cands[7] == 9 && |atoms[9].value| == 1;
    assert [5, 6, 3, 7] + [9] == [5, 6, 3, 7, 9];
  }

  lemma {:induction false} TurnK(rule: ClaimRule, atoms: seq<Atom>, used: seq<bool>, cands: seq<nat>, target: string)
    requires atoms == TestPool() && used == AfterFirst() && cands == Order() && target == "mencarik"
    ensures WellFormed(atoms, used) && ValidIds(atoms, cands)
    ensures Extend(rule, atoms, used, cands, target, [5, 6, 3, 7, 9], 7)
         == Extend(rule, atoms, used, cands, target, [5, 6, 3, 7, 9, 10], 8)
  {
    PoolFacts(used);
    FirstFitK(rule, atoms, used, cands, target);
    ExtendNext(rule, atoms, used, cands, target, [5, 6, 3, 7, 9], 7, 8);
    assert cands[8] == 10 && |atoms[10].value| == 1;
    assert [5, 6, 3, 7, 9] + [10] == [5, 6, 3, 7, 9, 10];
  }

  /** The attempt from start 0 claims `men`, `ca`, `rik` and spells the
      whole target. */
  lemma {:induction false} FirstAttempt(rule: ClaimRule, atoms: seq<Atom>, used: seq<bool>, cands: seq<nat>, target: string)
    requires atoms == TestPool() && used == Fresh() && cands == Order() && target == "mencarik"
    ensures WellFormed(atoms, used) && ValidIds(atoms, cands)
    ensures Attempt(rule, atoms, used, cands, target, 0) == Some(([0, 2, 1], 8))
  {
    PoolFacts(used);
    assert cands[0] == 0 && IsPrefix(atoms[0].value, target) && |atoms[0].value| == 3;
    TurnCa(rule, atoms, used, cands, target);
    TurnRik(rule, atoms, used, cands, target);
    ExtendStops(rule, atoms, used, cands, target, [0, 2, 1], 8);
  }

  /** The attempt from start 4 claims `m`, `e`, `nc`, `ar`, `i`, `k`. */
  lemma {:induction false} SecondAttempt(rule: ClaimRule, atoms: seq<Atom>, used: seq<bool>, cands: seq<nat>, target: string)
    requires atoms == TestPool() && used == AfterFirst() && cands == Order() && target == "mencarik"
    ensures WellFormed(atoms, used) && ValidIds(atoms, cands)
    ensures Attempt(rule, atoms, used, cands, target, 4) == Some(([5, 6, 3, 7, 9, 10], 8))
  {
    PoolFacts(used);
    assert cands[4] == 5 && IsPrefix(atoms[5].value, target) && |atoms[5].value| == 1;
    TurnE(rule, atoms, used, cands, target);
    TurnNc(rule, atoms, used, cands, target);
    TurnAr(rule, atoms, used, cands, target);
    TurnI(rule, atoms, used, cands, target);
    TurnK(rule, atoms, used, cands, target);
    ExtendStops(rule, atoms, used, cands, target, [5, 6, 3, 7, 9, 10], 8);
  }

  lemma {:induction false} MarkFirst()
    ensures MarkUsed(Fresh(), [0, 2, 1]) == AfterFirst()
  {
    var r := MarkUsed(Fresh(), [0, 2, 1]);
    assert forall id :: 0 <= id < 18 ==> r[id] == AfterFirst()[id];
  }

  lemma {:induction false} MarkSecond()
    ensures MarkUsed(AfterFirst(), [5, 6, 3, 7, 9, 10]) == AfterSecond()
  {
    var r := MarkUsed(AfterFirst(), [5, 6, 3, 7, 9, 10]);
    assert forall id :: 0 <= id < 18 ==> r[id] == AfterSecond()[id];
  }

  /** Both molecules spell the whole target and are accepted. */
  lemma {:induction false} FirstStep(rule: ClaimRule, atoms: seq<Atom>, cands: seq<nat>, target: string)
    requires atoms == TestPool() && cands == Order() && target == "mencarik"
    ensures WellFormed(atoms, Fresh()) && ValidIds(atoms, cands)
    ensures Step(rule, atoms, cands, target, Percent(100), 0, Tally(0, Fresh())) == Tally(1, AfterFirst())
  {
    FirstAttempt(rule, atoms, Fresh(), cands, target);
    StepAccepts(rule, atoms, cands, target, Percent(100), 0, Tally(0, Fresh()));
    MarkFirst();
  }

  lemma {:induction false} SecondStep(rule: ClaimRule, atoms: seq<Atom>, cands: seq<nat>, target: string)
    requires atoms == TestPool() && cands == Order() && target == "mencarik"
    ensures WellFormed(atoms, AfterFirst()) && ValidIds(atoms, cands)
    ensures Step(rule, atoms, cands, target, Percent(100), 4, Tally(1, AfterFirst())) == Tally(2, AfterSecond())
  {
    SecondAttempt(rule, atoms, AfterFirst(), cands, target);
    StepAccepts(rule, atoms, cands, target, Percent(100), 4, Tally(1, AfterFirst()));
    MarkSecond();
  }

  /** Starts 1 to 3 (`rik`, `ca`, `nc`) and 5 to 12 (`ar`, `nc`, `i`, `k`
      and the ambiguous `a`, `e`, `a`, `a`) do not begin the target. */
  lemma {:induction false} OtherStarts(atoms: seq<Atom>, cands: seq<nat>, target: string)
    requires atoms == TestPool() && cands == Order() && target == "mencarik"
    ensures forall id :: 0 <= id < |atoms| ==> atoms[id].value != []
    ensures ValidIds(atoms, cands)
    ensures StartsOff(atoms, cands, target, 1, 4) && StartsOff(atoms, cands, target, 5, 13)
  {
    PoolFacts(Fresh());
  }

  /** `form_molecule(common_atoms, "mencarik", "100%")` counts 2 molecules
      under either claim rule, and leaves the atoms of both marked used. */
  lemma {:induction false} MencarikCount(rule: ClaimRule)
    ensures WellFormed(TestPool(), Fresh())
    ensures Assemble(rule, TestPool(), Fresh(), "mencarik", Percent(100)) == Tally(2, AfterSecond())
  {
    var atoms, cands, target, sim := TestPool(), Order(), "mencarik", Percent(100);
    TestCandidates();
    FirstStep(rule, atoms, cands, target);
    SecondStep(rule, atoms, cands, target);
    OtherStarts(atoms, cands, target);
    assert AssembleFrom(rule, atoms, cands, target, sim, 0, Tally(0, Fresh()))
        == AssembleFrom(rule, atoms, cands, target, sim, 1, Tally(1, AfterFirst()));
    SkipStarts(rule, atoms, cands, target, sim, 1, 4, Tally(1, AfterFirst()));
    assert AssembleFrom(rule, atoms, cands, target, sim, 4, Tally(1, AfterFirst()))
        == AssembleFrom(rule, atoms, cands, target, sim, 5, Tally(2, AfterSecond()));
    SkipStarts(rule, atoms, cands, target, sim, 5, 13, Tally(2, AfterSecond()));
  }
}
