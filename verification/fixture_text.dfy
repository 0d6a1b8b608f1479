/** The extraction test of the repository (tests/test_extract_atoms.py:6-7):
    `extract_atoms(["mencarik", "test", "apa"], text, 1)` on the test's
    search text yields the test pool of the assembly run. The text is
    written as its letter runs and the letter-free gaps between them, which
    spell `men+rik++ca:/++nc+++,nk+mend++a++m++td++e+ar+nc+i+k+a+st+pa+te+cd+stt+aa+pa+a+pa`. */
module FixtureText {
  import opened Base
  import opened Extraction
  import opened Fixture

  function Targets(): seq<string> {
    ["mencarik", "test", "apa"]
  }

  /** The `k`-th letter run of the search text, left to right. */
  function RunAt(k: int): string {
    match k
    case 0 => "men"
    case 1 => "rik"
    case 2 => "ca"
    case 3 => "nc"
    case 4 => "nk"
    case 5 => "mend"
    case 6 => "a"
    case 7 => "m"
    case 8 => "td"
    case 9 => "e"
    case 10 => "ar"
    case 11 => "nc"
    case 12 => "i"
    case 13 => "k"
    case 14 => "a"
    case 15 => "st"
    case 16 => "pa"
    case 17 => "te"
    case 18 => "cd"
    case 19 => "stt"
    case 20 => "aa"
    case 21 => "pa"
    case 22 => "a"
    case _ => "pa"
  }

  function Runs(): seq<string> {
    seq(24, k => RunAt(k))
  }

  /** The gaps between consecutive runs. */
  function InnerGaps(): seq<string> {
    ["+", "++", ":/++", "+++,", "+", "++", "++", "++", "++", "+", "+", "+", "+", "+", "+", "+", "+", "+", "+", "+", "+", "+", "+"]
  }

  /** The text has no gap before its first run or after its last. */
  function Gaps(): seq<string> {
    [""] + InnerGaps() + [""]
  }

  function TestText(): string {
    Interleave(Gaps(), Runs())
  }

  // ---------------------------------------------------------------------
  // Fragmenting
  // ---------------------------------------------------------------------

  /** The runs and gaps form a split of the text. */
  lemma {:induction false} TextSplits()
    ensures SplitsInto(TestText(), Runs(), Gaps())
  {
    var runs, gaps := Runs(), Gaps();
    forall k | 0 <= k < |runs| ensures runs[k] != [] && AllLetters(runs[k]) {
      RunIsWord(k);
    }
    forall g | g in gaps ensures NoLetters(g) {
    }
    forall k | 0 <= k < |gaps| ensures NoLetters(gaps[k]) {
      assert gaps[k] in gaps;
    }
    assert "" !in InnerGaps();
    forall k | 0 < k < |runs| ensures gaps[k] != [] {
      assert gaps[k] == InnerGaps()[k - 1];
      assert InnerGaps()[k - 1] in InnerGaps();
    }
  }

  lemma {:induction false} RunIsWord(k: int)
    requires 0 <= k < 24
    ensures RunAt(k) != [] && AllLetters(RunAt(k))
  {
  }

  /** `re.split` on the test text, empty pieces dropped, gives the runs. */
  lemma {:induction false} TextFragments()
    ensures Fragments(TestText()) == Runs()
  {
    TextSplits();
    SplitDeterminesFragments(TestText(), Runs(), Gaps());
  }

  // ---------------------------------------------------------------------
  // Matching each run against the targets
  // ---------------------------------------------------------------------

  /** With size 1 a non-empty run matches a target iff it is a substring of it. */
  lemma {:induction false} MatchesInfix(c: string, t: string)
    requires c != []
    ensures Matches(c, t, Letters(1)) <==> IsInfix(c, t)
  {
    AnyWindowIffInfix(c, t);
  }

  /** A string whose first letter does not occur in `t` is no substring of it. */
  lemma {:induction false} FirstLetterMissing(c: string, t: string)
    requires c != [] && c[0] !in t
    ensures !IsInfix(c, t)
  {
    forall k | 0 <= k <= |t| - |c| ensures !OccursAt(c, t, k) {
      assert t[k..k + |c|][0] == t[k];
    }
  }

  /** The fragments whose first letter occurs in a target they are no
      substring of. */
  lemma {:induction false} HardMisses()
    ensures !IsInfix("nk", "mencarik")
    ensures !IsInfix("mend", "mencarik")
    ensures !IsInfix("td", "test")
    ensures !IsInfix("ar", "apa")
    ensures !IsInfix("cd", "mencarik")
    ensures !IsInfix("stt", "test")
    ensures !IsInfix("aa", "mencarik")
    ensures !IsInfix("aa", "apa")
  {
    forall k | 0 <= k <= |"mencarik"| - |"nk"| ensures !OccursAt("nk", "mencarik", k) {
      var c, t := "nk", "mencarik";
      assert t[k..k + |c|][0] == t[k] && t[k..k + |c|][1] == t[k + 1] && t[k..k + |c|][|c| - 1] == t[k + |c| - 1];
    }
    forall k | 0 <= k <= |"mencarik"| - |"mend"| ensures !OccursAt("mend", "mencarik", k) {
      var c, t := "mend", "mencarik";
      assert t[k..k + |c|][0] == t[k] && t[k..k + |c|][1] == t[k + 1] && t[k..k + |c|][|c| - 1] == t[k + |c| - 1];
    }
    forall k | 0 <= k <= |"test"| - |"td"| ensures !OccursAt("td", "test", k) {
      var c, t := "td", "test";
      assert t[k..k + |c|][0] == t[k] && t[k..k + |c|][1] == t[k + 1] && t[k..k + |c|][|c| - 1] == t[k + |c| - 1];
    }
    forall k | 0 <= k <= |"apa"| - |"ar"| ensures !OccursAt("ar", "apa", k) {
      var c, t := "ar", "apa";
      assert t[k..k + |c|][0] == t[k] && t[k..k + |c|][1] == t[k + 1] && t[k..k + |c|][|c| - 1] == t[k + |c| - 1];
    }
    forall k | 0 <= k <= |"mencarik"| - |"cd"| ensures !OccursAt("cd", "mencarik", k) {
      var c, t := "cd", "mencarik";
      assert t[k..k + |c|][0] == t[k] && t[k..k + |c|][1] == t[k + 1] && t[k..k + |c|][|c| - 1] == t[k + |c| - 1];
    }
    forall k | 0 <= k <= |"test"| - |"stt"| ensures !OccursAt("stt", "test", k) {
      var c, t := "stt", "test";
      assert t[k..k + |c|][0] == t[k] && t[k..k + |c|][1] == t[k + 1] && t[k..k + |c|][|c| - 1] == t[k + |c| - 1];
    }
    forall k | 0 <= k <= |"mencarik"| - |"aa"| ensures !OccursAt("aa", "mencarik", k) {
      var c, t := "aa", "mencarik";
      assert t[k..k + |c|][0] == t[k] && t[k..k + |c|][1] == t[k + 1] && t[k..k + |c|][|c| - 1] == t[k + |c| - 1];
    }
    forall k | 0 <= k <= |"apa"| - |"aa"| ensures !OccursAt("aa", "apa", k) {
      var c, t := "aa", "apa";
      assert t[k..k + |c|][0] == t[k] && t[k..k + |c|][1] == t[k + 1] && t[k..k + |c|][|c| - 1] == t[k + |c| - 1];
    }
  }

  /** A fragment in `mencarik` whose first letter is in neither `test`
      nor `apa` belongs to `mencarik`. */
  lemma {:induction false} SoleMencarik(c: string, k: int, targets: seq<string>)
    requires targets == Targets() && c != [] && OccursAt(c, "mencarik", k) && c[0] !in "test" && c[0] !in "apa"
    ensures OwnerOf(c, targets, Letters(1)) == Some("mencarik")
  {
    assert IsInfix(c, "mencarik");
    MatchesInfix(c, "mencarik");
    MatchesInfix(c, "test");
    FirstLetterMissing(c, "test");
    MatchesInfix(c, "apa");
    FirstLetterMissing(c, "apa");
    assert targets[1..] == ["test", "apa"] && targets[1..][1..] == ["apa"] && targets[1..][1..][1..] == [];
    assert MatchingTargets(c, targets[1..][1..][1..], Letters(1)) == [];
    assert MatchingTargets(c, targets[1..][1..], Letters(1)) == [];
    assert MatchingTargets(c, targets[1..], Letters(1)) == [];
    assert MatchingTargets(c, targets, Letters(1)) == ["mencarik"];
  }

  /** A fragment in `test` whose first letter is in neither `mencarik`
      nor `apa` belongs to `test`. */
  lemma {:induction false} SoleTest(c: string, k: int, targets: seq<string>)
    requires targets == Targets() && c != [] && OccursAt(c, "test", k) && c[0] !in "mencarik" && c[0] !in "apa"
    ensures OwnerOf(c, targets, Letters(1)) == Some("test")
  {
    assert IsInfix(c, "test");
    MatchesInfix(c, "mencarik");
    FirstLetterMissing(c, "mencarik");
    MatchesInfix(c, "test");
    MatchesInfix(c, "apa");
    FirstLetterMissing(c, "apa");
    assert targets[1..] == ["test", "apa"] && targets[1..][1..] == ["apa"] && targets[1..][1..][1..] == [];
    assert MatchingTargets(c, targets[1..][1..][1..], Letters(1)) == [];
    assert MatchingTargets(c, targets[1..][1..], Letters(1)) == [];
    assert MatchingTargets(c, targets[1..], Letters(1)) == ["test"];
    assert MatchingTargets(c, targets, Letters(1)) == ["test"];
  }

  /** A fragment in no target is dropped. */
  lemma {:induction false} NoTarget(c: string, targets: seq<string>)
    requires targets == Targets() && c != []
    requires !IsInfix(c, "mencarik") && !IsInfix(c, "test") && !IsInfix(c, "apa")
    ensures OwnerOf(c, targets, Letters(1)) == None
  {
    MatchesInfix(c, "mencarik");
    MatchesInfix(c, "test");
    MatchesInfix(c, "apa");
    assert targets[1..] == ["test", "apa"] && targets[1..][1..] == ["apa"] && targets[1..][1..][1..] == [];
    assert MatchingTargets(c, targets[1..][1..][1..], Letters(1)) == [];
    assert MatchingTargets(c, targets[1..][1..], Letters(1)) == [];
    assert MatchingTargets(c, targets[1..], Letters(1)) == [];
    assert MatchingTargets(c, targets, Letters(1)) == [];
  }

  /** `a` is in both `mencarik` and `apa`, so it is ambiguous. */
  lemma {:induction false} OwnerA(targets: seq<string>)
    requires targets == Targets()
    ensures OwnerOf("a", targets, Letters(1)) == Some(AmbiguousKey)
  {
    MatchesInfix("a", "mencarik");
    assert OccursAt("a", "mencarik", 4);
    MatchesInfix("a", "test");
    FirstLetterMissing("a", "test");
    MatchesInfix("a", "apa");
    assert OccursAt("a", "apa", 0);
    assert targets[1..] == ["test", "apa"] && targets[1..][1..] == ["apa"] && targets[1..][1..][1..] == [];
  }

  /** `e` is in both `mencarik` and `test`, so it is ambiguous. */
  lemma {:induction false} OwnerE(targets: seq<string>)
    requires targets == Targets()
    ensures OwnerOf("e", targets, Letters(1)) == Some(AmbiguousKey)
  {
    MatchesInfix("e", "mencarik");
    assert OccursAt("e", "mencarik", 1);
    MatchesInfix("e", "test");
    assert OccursAt("e", "test", 1);
    MatchesInfix("e", "apa");
    FirstLetterMissing("e", "apa");
    assert targets[1..] == ["test", "apa"] && targets[1..][1..] == ["apa"] && targets[1..][1..][1..] == [];
  }

  /** `ar` is in `mencarik` only: its `a` is in `apa`, but `ar` is not. */
  lemma {:induction false} OwnerAr(targets: seq<string>)
    requires targets == Targets()
    ensures OwnerOf("ar", targets, Letters(1)) == Some("mencarik")
  {
    MatchesInfix("ar", "mencarik");
    assert OccursAt("ar", "mencarik", 4);
    MatchesInfix("ar", "test");
    FirstLetterMissing("ar", "test");
    MatchesInfix("ar", "apa");
    HardMisses();
    assert targets[1..] == ["test", "apa"] && targets[1..][1..] == ["apa"] && targets[1..][1..][1..] == [];
  }

  /** `pa` belongs to `apa`. */
  lemma {:induction false} OwnerPa(targets: seq<string>)
    requires targets == Targets()
    ensures OwnerOf("pa", targets, Letters(1)) == Some("apa")
  {
    MatchesInfix("pa", "mencarik");
    FirstLetterMissing("pa", "mencarik");
    MatchesInfix("pa", "test");
    FirstLetterMissing("pa", "test");
    MatchesInfix("pa", "apa");
    assert OccursAt("pa", "apa", 1);
    assert targets[1..] == ["test", "apa"] && targets[1..][1..] == ["apa"] && targets[1..][1..][1..] == [];
  }

  /** `mend` is a substring of no target, so it is dropped. */
  lemma {:induction false} OwnerMend(targets: seq<string>)
    requires targets == Targets()
    ensures OwnerOf("mend", targets, Letters(1)) == None
  {
    HardMisses();
    FirstLetterMissing("mend", "test");
    FirstLetterMissing("mend", "apa");
    NoTarget("mend", targets);
  }

  // ---------------------------------------------------------------------
  // Classifying the runs
  // ---------------------------------------------------------------------

  /** A fragment with no owner adds nothing to the classification. */
  lemma {:induction false} ClassifyDrops(frags: seq<string>, targets: seq<string>, size: AtomSize, n: nat,
                                         atoms: seq<Atom>, m: nat)
    requires n < |frags| && m <= |atoms| && Classify(frags[..n], targets, size) == atoms[..m]
    requires OwnerOf(frags[n], targets, size).None?
    ensures Classify(frags[..n + 1], targets, size) == atoms[..m]
  {
    assert frags[..n + 1][..n] == frags[..n];
  }

  /** A fragment with an owner adds its atom to the classification. */
  lemma {:induction false} ClassifyKeeps(frags: seq<string>, targets: seq<string>, size: AtomSize, n: nat,
                                         atoms: seq<Atom>, m: nat)
    requires n < |frags| && m < |atoms| && Classify(frags[..n], targets, size) == atoms[..m]
    requires atoms[m].value == frags[n] && OwnerOf(frags[n], targets, size) == Some(atoms[m].owner)
    ensures Classify(frags[..n + 1], targets, size) == atoms[..m + 1]
  {
    assert frags[..n + 1][..n] == frags[..n];
    assert atoms[..m + 1] == atoms[..m] + [atoms[m]];
  }

  /** Classifying the first `n` runs gives the first atoms of the test pool. */
  lemma {:induction false} ClassifiedUpto1(runs: seq<string>, targets: seq<string>, pool: seq<Atom>)
    requires runs == Runs() && targets == Targets() && pool == TestPool()
    ensures Classify(runs[..1], targets, Letters(1)) == pool[..1]
  {
    assert Classify(runs[..0], targets, Letters(1)) == pool[..0] by {
      assert runs[..0] == [] && pool[..0] == [];
    }
    assert pool[0].value == runs[0] && OwnerOf(runs[0], targets, Letters(1)) == Some(pool[0].owner) by {
      assert runs[0] == "men" && pool[0] == Atom("men", "mencarik");
      SoleMencarik("men", 0, targets);
    }
    ClassifyKeeps(runs, targets, Letters(1), 0, pool, 0);
  }

  lemma {:induction false} ClassifiedUpto2(runs: seq<string>, targets: seq<string>, pool: seq<Atom>)
    requires runs == Runs() && targets == Targets() && pool == TestPool()
    ensures Classify(runs[..2], targets, Letters(1)) == pool[..2]
  {
    assert pool[1].value == runs[1] && OwnerOf(runs[1], targets, Letters(1)) == Some(pool[1].owner) by {
      assert runs[1] == "rik" && pool[1] == Atom("rik", "mencarik");
      SoleMencarik("rik", 5, targets);
    }
    ClassifiedUpto1(runs, targets, pool);
    ClassifyKeeps(runs, targets, Letters(1), 1, pool, 1);
  }

  lemma {:induction false} ClassifiedUpto3(runs: seq<string>, targets: seq<string>, pool: seq<Atom>)
    requires runs == Runs() && targets == Targets() && pool == TestPool()
    ensures Classify(runs[..3], targets, Letters(1)) == pool[..3]
  {
    assert pool[2].value == runs[2] && OwnerOf(runs[2], targets, Letters(1)) == Some(pool[2].owner) by {
      assert runs[2] == "ca" && pool[2] == Atom("ca", "mencarik");
      SoleMencarik("ca", 3, targets);
    }
    ClassifiedUpto2(runs, targets, pool);
    ClassifyKeeps(runs, targets, Letters(1), 2, pool, 2);
  }

  lemma {:induction false} ClassifiedUpto4(runs: seq<string>, targets: seq<string>, pool: seq<Atom>)
    requires runs == Runs() && targets == Targets() && pool == TestPool()
    ensures Classify(runs[..4], targets, Letters(1)) == pool[..4]
  {
    assert pool[3].value == runs[3] && OwnerOf(runs[3], targets, Letters(1)) == Some(pool[3].owner) by {
      assert runs[3] == "nc" && pool[3] == Atom("nc", "mencarik");
      SoleMencarik("nc", 2, targets);
    }
    ClassifiedUpto3(runs, targets, pool);
    ClassifyKeeps(runs, targets, Letters(1), 3, pool, 3);
  }

  lemma {:induction false} ClassifiedUpto5(runs: seq<string>, targets: seq<string>, pool: seq<Atom>)
    requires runs == Runs() && targets == Targets() && pool == TestPool()
    ensures Classify(runs[..5], targets, Letters(1)) == pool[..4]
  {
    assert OwnerOf(runs[4], targets, Letters(1)).None? by {
      assert runs[4] == "nk";
      HardMisses();
      FirstLetterMissing("nk", "test");
      FirstLetterMissing("nk", "apa");
      NoTarget("nk", targets);
    }
    ClassifiedUpto4(runs, targets, pool);
    ClassifyDrops(runs, targets, Letters(1), 4, pool, 4);
  }

  lemma {:induction false} ClassifiedUpto6(runs: seq<string>, targets: seq<string>, pool: seq<Atom>)
    requires runs == Runs() && targets == Targets() && pool == TestPool()
    ensures Classify(runs[..6], targets, Letters(1)) == pool[..4]
  {
    assert OwnerOf(runs[5], targets, Letters(1)).None? by {
      assert runs[5] == "mend";
      OwnerMend(targets);
    }
    ClassifiedUpto5(runs, targets, pool);
    ClassifyDrops(runs, targets, Letters(1), 5, pool, 4);
  }

  lemma {:induction false} ClassifiedUpto7(runs: seq<string>, targets: seq<string>, pool: seq<Atom>)
    requires runs == Runs() && targets == Targets() && pool == TestPool()
    ensures Classify(runs[..7], targets, Letters(1)) == pool[..5]
  {
    assert pool[4].value == runs[6] && OwnerOf(runs[6], targets, Letters(1)) == Some(pool[4].owner) by {
      assert runs[6] == "a" && pool[4] == Atom("a", AmbiguousKey);
      OwnerA(targets);
    }
    ClassifiedUpto6(runs, targets, pool);
    ClassifyKeeps(runs, targets, Letters(1), 6, pool, 4);
  }

  lemma {:induction false} ClassifiedUpto8(runs: seq<string>, targets: seq<string>, pool: seq<Atom>)
    requires runs == Runs() && targets == Targets() && pool == TestPool()
    ensures Classify(runs[..8], targets, Letters(1)) == pool[..6]
  {
    assert pool[5].value == runs[7] && OwnerOf(runs[7], targets, Letters(1)) == Some(pool[5].owner) by {
      assert runs[7] == "m" && pool[5] == Atom("m", "mencarik");
      SoleMencarik("m", 0, targets);
    }
    ClassifiedUpto7(runs, targets, pool);
    ClassifyKeeps(runs, targets, Letters(1), 7, pool, 5);
  }

  lemma {:induction false} ClassifiedUpto9(runs: seq<string>, targets: seq<string>, pool: seq<Atom>)
    requires runs == Runs() && targets == Targets() && pool == TestPool()
    ensures Classify(runs[..9], targets, Letters(1)) == pool[..6]
  {
    assert OwnerOf(runs[8], targets, Letters(1)).None? by {
      assert runs[8] == "td";
      HardMisses();
      FirstLetterMissing("td", "mencarik");
      FirstLetterMissing("td", "apa");
      NoTarget("td", targets);
    }
    ClassifiedUpto8(runs, targets, pool);
    ClassifyDrops(runs, targets, Letters(1), 8, pool, 6);
  }

  lemma {:induction false} ClassifiedUpto10(runs: seq<string>, targets: seq<string>, pool: seq<Atom>)
    requires runs == Runs() && targets == Targets() && pool == TestPool()
    ensures Classify(runs[..10], targets, Letters(1)) == pool[..7]
  {
    assert pool[6].value == runs[9] && OwnerOf(runs[9], targets, Letters(1)) == Some(pool[6].owner) by {
      assert runs[9] == "e" && pool[6] == Atom("e", AmbiguousKey);
      OwnerE(targets);
    }
    ClassifiedUpto9(runs, targets, pool);
    ClassifyKeeps(runs, targets, Letters(1), 9, pool, 6);
  }

  lemma {:induction false} ClassifiedUpto11(runs: seq<string>, targets: seq<string>, pool: seq<Atom>)
    requires runs == Runs() && targets == Targets() && pool == TestPool()
    ensures Classify(runs[..11], targets, Letters(1)) == pool[..8]
  {
    assert pool[7].value == runs[10] && OwnerOf(runs[10], targets, Letters(1)) == Some(pool[7].owner) by {
      assert runs[10] == "ar" && pool[7] == Atom("ar", "mencarik");
      OwnerAr(targets);
    }
    ClassifiedUpto10(runs, targets, pool);
    ClassifyKeeps(runs, targets, Letters(1), 10, pool, 7);
  }

  lemma {:induction false} ClassifiedUpto12(runs: seq<string>, targets: seq<string>, pool: seq<Atom>)
    requires runs == Runs() && targets == Targets() && pool == TestPool()
    ensures Classify(runs[..12], targets, Letters(1)) == pool[..9]
  {
    assert pool[8].value == runs[11] && OwnerOf(runs[11], targets, Letters(1)) == Some(pool[8].owner) by {
      assert runs[11] == "nc" && pool[8] == Atom("nc", "mencarik");
      SoleMencarik("nc", 2, targets);
    }
    ClassifiedUpto11(runs, targets, pool);
    ClassifyKeeps(runs, targets, Letters(1), 11, pool, 8);
  }

  lemma {:induction false} ClassifiedUpto13(runs: seq<string>, targets: seq<string>, pool: seq<Atom>)
    requires runs == Runs() && targets == Targets() && pool == TestPool()
    ensures Classify(runs[..13], targets, Letters(1)) == pool[..10]
  {
    assert pool[9].value == runs[12] && OwnerOf(runs[12], targets, Letters(1)) == Some(pool[9].owner) by {
      assert runs[12] == "i" && pool[9] == Atom("i", "mencarik");
      SoleMencarik("i", 6, targets);
    }
    ClassifiedUpto12(runs, targets, pool);
    ClassifyKeeps(runs, targets, Letters(1), 12, pool, 9);
  }

  lemma {:induction false} ClassifiedUpto14(runs: seq<string>, targets: seq<string>, pool: seq<Atom>)
    requires runs == Runs() && targets == Targets() && pool == TestPool()
    ensures Classify(runs[..14], targets, Letters(1)) == pool[..11]
  {
    assert pool[10].value == runs[13] && OwnerOf(runs[13], targets, Letters(1)) == Some(pool[10].owner) by {
      assert runs[13] == "k" && pool[10] == Atom("k", "mencarik");
      SoleMencarik("k", 7, targets);
    }
    ClassifiedUpto13(runs, targets, pool);
    ClassifyKeeps(runs, targets, Letters(1), 13, pool, 10);
  }

  lemma {:induction false} ClassifiedUpto15(runs: seq<string>, targets: seq<string>, pool: seq<Atom>)
    requires runs == Runs() && targets == Targets() && pool == TestPool()
    ensures Classify(runs[..15], targets, Letters(1)) == pool[..12]
  {
    assert pool[11].value == runs[14] && OwnerOf(runs[14], targets, Letters(1)) == Some(pool[11].owner) by {
      assert runs[14] == "a" && pool[11] == Atom("a", AmbiguousKey);
      OwnerA(targets);
    }
    ClassifiedUpto14(runs, targets, pool);
    ClassifyKeeps(runs, targets, Letters(1), 14, pool, 11);
  }

  lemma {:induction false} ClassifiedUpto16(runs: seq<string>, targets: seq<string>, pool: seq<Atom>)
    requires runs == Runs() && targets == Targets() && pool == TestPool()
    ensures Classify(runs[..16], targets, Letters(1)) == pool[..13]
  {
    assert pool[12].value == runs[15] && OwnerOf(runs[15], targets, Letters(1)) == Some(pool[12].owner) by {
      assert runs[15] == "st" && pool[12] == Atom("st", "test");
      SoleTest("st", 2, targets);
    }
    ClassifiedUpto15(runs, targets, pool);
    ClassifyKeeps(runs, targets, Letters(1), 15, pool, 12);
  }

  lemma {:induction false} ClassifiedUpto17(runs: seq<string>, targets: seq<string>, pool: seq<Atom>)
    requires runs == Runs() && targets == Targets() && pool == TestPool()
    ensures Classify(runs[..17], targets, Letters(1)) == pool[..14]
  {
    assert pool[13].value == runs[16] && OwnerOf(runs[16], targets, Letters(1)) == Some(pool[13].owner) by {
      assert runs[16] == "pa" && pool[13] == Atom("pa", "apa");
      OwnerPa(targets);
    }
    ClassifiedUpto16(runs, targets, pool);
    ClassifyKeeps(runs, targets, Letters(1), 16, pool, 13);
  }

  lemma {:induction false} ClassifiedUpto18(runs: seq<string>, targets: seq<string>, pool: seq<Atom>)
    requires runs == Runs() && targets == Targets() && pool == TestPool()
    ensures Classify(runs[..18], targets, Letters(1)) == pool[..15]
  {
    assert pool[14].value == runs[17] && OwnerOf(runs[17], targets, Letters(1)) == Some(pool[14].owner) by {
      assert runs[17] == "te" && pool[14] == Atom("te", "test");
      SoleTest("te", 0, targets);
    }
    ClassifiedUpto17(runs, targets, pool);
    ClassifyKeeps(runs, targets, Letters(1), 17, pool, 14);
  }

  lemma {:induction false} ClassifiedUpto19(runs: seq<string>, targets: seq<string>, pool: seq<Atom>)
    requires runs == Runs() && targets == Targets() && pool == TestPool()
    ensures Classify(runs[..19], targets, Letters(1)) == pool[..15]
  {
    assert OwnerOf(runs[18], targets, Letters(1)).None? by {
      assert runs[18] == "cd";
      HardMisses();
      FirstLetterMissing("cd", "test");
      FirstLetterMissing("cd", "apa");
      NoTarget("cd", targets);
    }
    ClassifiedUpto18(runs, targets, pool);
    ClassifyDrops(runs, targets, Letters(1), 18, pool, 15);
  }

  lemma {:induction false} ClassifiedUpto20(runs: seq<string>, targets: seq<string>, pool: seq<Atom>)
    requires runs == Runs() && targets == Targets() && pool == TestPool()
    ensures Classify(runs[..20], targets, Letters(1)) == pool[..15]
  {
    assert OwnerOf(runs[19], targets, Letters(1)).None? by {
      assert runs[19] == "stt";
      HardMisses();
      FirstLetterMissing("stt", "mencarik");
      FirstLetterMissing("stt", "apa");
      NoTarget("stt", targets);
    }
    ClassifiedUpto19(runs, targets, pool);
    ClassifyDrops(runs, targets, Letters(1), 19, pool, 15);
  }

  lemma {:induction false} ClassifiedUpto21(runs: seq<string>, targets: seq<string>, pool: seq<Atom>)
    requires runs == Runs() && targets == Targets() && pool == TestPool()
    ensures Classify(runs[..21], targets, Letters(1)) == pool[..15]
  {
    assert OwnerOf(runs[20], targets, Letters(1)).None? by {
      assert runs[20] == "aa";
      HardMisses();
      FirstLetterMissing("aa", "test");
      NoTarget("aa", targets);
    }
    ClassifiedUpto20(runs, targets, pool);
    ClassifyDrops(runs, targets, Letters(1), 20, pool, 15);
  }

  lemma {:induction false} ClassifiedUpto22(runs: seq<string>, targets: seq<string>, pool: seq<Atom>)
    requires runs == Runs() && targets == Targets() && pool == TestPool()
    ensures Classify(runs[..22], targets, Letters(1)) == pool[..16]
  {
    assert pool[15].value == runs[21] && OwnerOf(runs[21], targets, Letters(1)) == Some(pool[15].owner) by {
      assert runs[21] == "pa" && pool[15] == Atom("pa", "apa");
      OwnerPa(targets);
    }
    ClassifiedUpto21(runs, targets, pool);
    ClassifyKeeps(runs, targets, Letters(1), 21, pool, 15);
  }

  lemma {:induction false} ClassifiedUpto23(runs: seq<string>, targets: seq<string>, pool: seq<Atom>)
    requires runs == Runs() && targets == Targets() && pool == TestPool()
    ensures Classify(runs[..23], targets, Letters(1)) == pool[..17]
  {
    assert pool[16].value == runs[22] && OwnerOf(runs[22], targets, Letters(1)) == Some(pool[16].owner) by {
      assert runs[22] == "a" && pool[16] == Atom("a", AmbiguousKey);
      OwnerA(targets);
    }
    ClassifiedUpto22(runs, targets, pool);
    ClassifyKeeps(runs, targets, Letters(1), 22, pool, 16);
  }

  lemma {:induction false} ClassifiedUpto24(runs: seq<string>, targets: seq<string>, pool: seq<Atom>)
    requires runs == Runs() && targets == Targets() && pool == TestPool()
    ensures Classify(runs[..24], targets, Letters(1)) == pool[..18]
  {
    assert pool[17].value == runs[23] && OwnerOf(runs[23], targets, Letters(1)) == Some(pool[17].owner) by {
      assert runs[23] == "pa" && pool[17] == Atom("pa", "apa");
      OwnerPa(targets);
    }
    ClassifiedUpto23(runs, targets, pool);
    ClassifyKeeps(runs, targets, Letters(1), 23, pool, 17);
  }

  /** Classifying all the runs gives the test pool. */
  lemma {:induction false} ClassifiedRuns()
    ensures Classify(Runs(), Targets(), Letters(1)) == TestPool()
  {
    ClassifiedUpto24(Runs(), Targets(), TestPool());
    assert Runs()[..24] == Runs() && TestPool()[..18] == TestPool();
  }

  /** `extract_atoms(["mencarik", "test", "apa"], text, 1)` is the test pool. */
  lemma {:induction false} ExtractTestPool()
    ensures ExtractAtoms(Targets(), TestText(), IntArg(1)) == Success(TestPool())
  {
    TextFragments();
    ClassifiedRuns();
  }

  // ---------------------------------------------------------------------
  // The buckets assembly does not read
  // ---------------------------------------------------------------------

  /** No atom filed under `key`: an empty bucket. */
  lemma {:induction false} BucketEmpty(atoms: seq<Atom>, key: string)
    requires forall id :: 0 <= id < |atoms| ==> atoms[id].owner != key
    ensures Bucket(atoms, key) == []
    decreases |atoms|
  {
    if atoms != [] {
      var n := |atoms| - 1;
      assert forall id :: 0 <= id < n ==> atoms[..n][id] == atoms[id];
      BucketEmpty(atoms[..n], key);
    }
  }

  lemma {:induction false} TestUpto12(pool: seq<Atom>)
    requires pool == TestPool()
    ensures Bucket(pool[..12], "test") == []
  {
    forall id | 0 <= id < 12 ensures pool[..12][id].owner != "test" {
      assert pool[..12][id] == TestAtom(id);
    }
    BucketEmpty(pool[..12], "test");
  }

  lemma {:induction false} TestUpto14(pool: seq<Atom>)
    requires pool == TestPool()
    ensures Bucket(pool[..14], "test") == [12]
  {
    assert pool[12].owner == TestAtom(12).owner && pool[13].owner == TestAtom(13).owner;
    TestUpto12(pool);
    BucketSnoc(pool, "test", 12);
    assert Bucket(pool[..13], "test") == [12];
    BucketSnoc(pool, "test", 13);
  }

  lemma {:induction false} TestUpto16(pool: seq<Atom>)
    requires pool == TestPool()
    ensures Bucket(pool[..16], "test") == [12, 14]
  {
    assert pool[14].owner == TestAtom(14).owner && pool[15].owner == TestAtom(15).owner;
    TestUpto14(pool);
    BucketSnoc(pool, "test", 14);
    assert Bucket(pool[..15], "test") == [12, 14];
    BucketSnoc(pool, "test", 15);
  }

  lemma {:induction false} TestUpto18(pool: seq<Atom>)
    requires pool == TestPool()
    ensures Bucket(pool[..18], "test") == [12, 14]
  {
    assert pool[16].owner == TestAtom(16).owner && pool[17].owner == TestAtom(17).owner;
    TestUpto16(pool);
    BucketSnoc(pool, "test", 16);
    assert Bucket(pool[..17], "test") == [12, 14];
    BucketSnoc(pool, "test", 17);
  }

  /** The `test` bucket of the test pool. */
  lemma {:induction false} TestBucket()
    ensures Bucket(TestPool(), "test") == [12, 14]
  {
    TestUpto18(TestPool());
    assert TestPool()[..18] == TestPool();
  }

  lemma {:induction false} ApaUpto13(pool: seq<Atom>)
    requires pool == TestPool()
    ensures Bucket(pool[..13], "apa") == []
  {
    forall id | 0 <= id < 13 ensures pool[..13][id].owner != "apa" {
      assert pool[..13][id] == TestAtom(id);
    }
    BucketEmpty(pool[..13], "apa");
  }

  lemma {:induction false} ApaUpto15(pool: seq<Atom>)
    requires pool == TestPool()
    ensures Bucket(pool[..15], "apa") == [13]
  {
    assert pool[13].owner == TestAtom(13).owner && pool[14].owner == TestAtom(14).owner;
    ApaUpto13(pool);
    BucketSnoc(pool, "apa", 13);
    assert Bucket(pool[..14], "apa") == [13];
    BucketSnoc(pool, "apa", 14);
  }

  lemma {:induction false} ApaUpto17(pool: seq<Atom>)
    requires pool == TestPool()
    ensures Bucket(pool[..17], "apa") == [13, 15]
  {
    assert pool[15].owner == TestAtom(15).owner && pool[16].owner == TestAtom(16).owner;
    ApaUpto15(pool);
    BucketSnoc(pool, "apa", 15);
    assert Bucket(pool[..16], "apa") == [13, 15];
    BucketSnoc(pool, "apa", 16);
  }

  lemma {:induction false} ApaUpto18(pool: seq<Atom>)
    requires pool == TestPool()
    ensures Bucket(pool[..18], "apa") == [13, 15, 17]
  {
    ApaUpto17(pool);
    assert pool[17].owner == TestAtom(17).owner;
    BucketSnoc(pool, "apa", 17);
  }

  /** The `apa` bucket of the test pool. */
  lemma {:induction false} ApaBucket()
    ensures Bucket(TestPool(), "apa") == [13, 15, 17]
  {
    ApaUpto18(TestPool());
    assert TestPool()[..18] == TestPool();
  }
}
