/** Concrete runs of the model: the fixture pool of the repository's tests,
    and small pools on which the two claim rules part ways, or on which a
    start is counted again although its atom is already used (the start is
    never tested for `used`, atomic_search/form_molecules.py:19-25). */
module Vectors {
  import opened Base
  import opened Extraction
  import opened Similarity
  import opened Assembly
  import opened Search

  /** Two distinct atoms with the same value, both filed under `"aa"`. */
  function TwinPool(): seq<Atom> {
    [Atom("a", "aa"), Atom("a", "aa")]
  }

  lemma {:induction false} TwinCandidates()
    ensures Candidates(TwinPool(), "aa") == [0, 1]
  {
    var atoms := TwinPool();
    assert atoms[..1][..0] == [];
    assert Bucket(atoms[..1], "aa") == [0];
    assert Bucket(atoms, "aa") == [0, 1];
    assert Bucket(atoms[..1], AmbiguousKey) == [];
    assert Bucket(atoms, AmbiguousKey) == [];
  }

  /** By id, the attempt from the first `"a"` goes on with the second. */
  lemma {:induction false} TwinAttemptById()
    ensures Attempt(ById, TwinPool(), [false, false], [0, 1], "aa", 0) == Some(([0, 1], 2))
  {
    var atoms, used, cands := TwinPool(), [false, false], [0, 1];
    assert Fits(ById, atoms, used, [0], 1, "a");
    assert !Fits(ById, atoms, used, [0], 0, "a");
    assert FirstFit(ById, atoms, used, cands, [0], "aa"[1..], 1) == Some(1);
    assert FirstFit(ById, atoms, used, cands, [0], "aa"[1..], 0) == Some(1);
    ExtendNext(ById, atoms, used, cands, "aa", [0], 1, 1);
    assert [0] + [cands[1]] == [0, 1];
    ExtendStops(ById, atoms, used, cands, "aa", [0, 1], 2);
    assert IsPrefix(atoms[0].value, "aa");
    assert Extend(ById, atoms, used, cands, "aa", [0], 1) == ([0, 1], 2);
  }

  /** By value, the second `"a"` equals the claimed first one, so the
      attempt stops after one atom. */
  lemma {:induction false} TwinAttemptByValue(s: nat)
    requires s < 2
    ensures Attempt(ByValue, TwinPool(), [false, false], [0, 1], "aa", s) == Some(([s], 1))
  {
    var atoms, used, cands := TwinPool(), [false, false], [0, 1];
    assert SameAtomIn(atoms, used, [s], 0) && SameAtomIn(atoms, used, [s], 1);
    assert FirstFit(ByValue, atoms, used, cands, [s], "aa"[1..], 2) == None;
    assert FirstFit(ByValue, atoms, used, cands, [s], "aa"[1..], 1) == None;
    assert FirstFit(ByValue, atoms, used, cands, [s], "aa"[1..], 0) == None;
    ExtendStops(ByValue, atoms, used, cands, "aa", [s], 1);
  }

  /** Once both atoms are used, the attempt from the second stops at once. */
  lemma {:induction false} TwinAttemptExhausted()
    ensures Attempt(ById, TwinPool(), [true, true], [0, 1], "aa", 1) == Some(([1], 1))
  {
    var atoms, used, cands := TwinPool(), [true, true], [0, 1];
    assert FirstFit(ById, atoms, used, cands, [1], "aa"[1..], 2) == None;
    assert FirstFit(ById, atoms, used, cands, [1], "aa"[1..], 1) == None;
    assert FirstFit(ById, atoms, used, cands, [1], "aa"[1..], 0) == None;
    ExtendStops(ById, atoms, used, cands, "aa", [1], 1);
  }

  /** A call over two candidates is two steps. */
  lemma {:induction false} AssembleTwo(rule: ClaimRule, atoms: seq<Atom>, cands: seq<nat>, target: string,
                                       sim: Similarity, st: Tally)
    requires WellFormed(atoms, st.used) && ValidIds(atoms, cands) && |cands| == 2
    ensures AssembleFrom(rule, atoms, cands, target, sim, 0, st)
         == Step(rule, atoms, cands, target, sim, 1, Step(rule, atoms, cands, target, sim, 0, st))
  {
    var st1 := Step(rule, atoms, cands, target, sim, 0, st);
    var st2 := Step(rule, atoms, cands, target, sim, 1, st1);
    assert AssembleFrom(rule, atoms, cands, target, sim, 2, st2) == st2;
  }

  /** A call on the twin pool for `"aa"` is the steps from its two atoms. */
  lemma {:induction false} TwinSteps(rule: ClaimRule, atoms: seq<Atom>, used: seq<bool>, target: string, sim: Similarity)
    requires atoms == TwinPool() && target == "aa" && |used| == 2
    ensures Assemble(rule, atoms, used, target, sim)
         == Step(rule, atoms, [0, 1], target, sim, 1, Step(rule, atoms, [0, 1], target, sim, 0, Tally(0, used)))
  {
    TwinCandidates();
    AssembleTwo(rule, atoms, [0, 1], target, sim, Tally(0, used));
  }

  /** By id, the first start spells `"aa"` and claims both atoms. */
  lemma {:induction false} TwinFirstStepById(atoms: seq<Atom>, target: string, sim: Similarity)
    requires atoms == TwinPool() && target == "aa" && sim == Percent(100)
    ensures Step(ById, atoms, [0, 1], target, sim, 0, Tally(0, [false, false])) == Tally(1, [true, true])
  {
    TwinAttemptById();
    StepAccepts(ById, atoms, [0, 1], target, sim, 0, Tally(0, [false, false]));
    MarkBoth();
  }

  lemma {:induction false} MarkBoth()
    ensures MarkUsed([false, false], [0, 1]) == [true, true]
  {
  }

  /** The second start then spells only `"a"`, which is rejected. */
  lemma {:induction false} TwinSecondStepById(atoms: seq<Atom>, target: string, sim: Similarity)
    requires atoms == TwinPool() && target == "aa" && sim == Percent(100)
    ensures Step(ById, atoms, [0, 1], target, sim, 1, Tally(1, [true, true])) == Tally(1, [true, true])
  {
    TwinAttemptExhausted();
    StepAccepts(ById, atoms, [0, 1], target, sim, 1, Tally(1, [true, true]));
  }

  /** By value, each start spells only `"a"`, which is rejected. */
  lemma {:induction false} TwinStepByValue(atoms: seq<Atom>, target: string, sim: Similarity, s: nat)
    requires atoms == TwinPool() && target == "aa" && sim == Percent(100) && s < 2
    ensures Step(ByValue, atoms, [0, 1], target, sim, s, Tally(0, [false, false])) == Tally(0, [false, false])
  {
    TwinAttemptByValue(s);
    StepAccepts(ByValue, atoms, [0, 1], target, sim, s, Tally(0, [false, false]));
  }

  /** The two claim rules disagree: with ids the second `"a"` completes the
      molecule `"aa"` and both atoms end up used; with dict equality it
      counts as already claimed (it equals the first `"a"` in value and
      flag), so no molecule is complete and nothing is used. */
  lemma {:induction false} ClaimRulesDiffer()
    ensures Assemble(ById, TwinPool(), [false, false], "aa", Percent(100)) == Tally(1, [true, true])
    ensures Assemble(ByValue, TwinPool(), [false, false], "aa", Percent(100)) == Tally(0, [false, false])
  {
    var atoms, target, sim := TwinPool(), "aa", Percent(100);
    TwinSteps(ById, atoms, [false, false], target, sim);
    TwinFirstStepById(atoms, target, sim);
    TwinSecondStepById(atoms, target, sim);
    TwinSteps(ByValue, atoms, [false, false], target, sim);
    TwinStepByValue(atoms, target, sim, 0);
    TwinStepByValue(atoms, target, sim, 1);
  }

  /** A single atom `"ab"` filed under `"ab"`. */
  function SoloPool(): seq<Atom> {
    [Atom("ab", "ab")]
  }

  lemma {:induction false} SoloCandidates()
    ensures Candidates(SoloPool(), "ab") == [0]
  {
    var atoms := SoloPool();
    assert atoms[..0] == [];
    assert Bucket(atoms, "ab") == [0];
    assert Bucket(atoms, AmbiguousKey) == [];
  }

  /** The atom spells the whole target on its own, used or not. */
  lemma {:induction false} SoloAttempt(rule: ClaimRule, used: seq<bool>)
    requires |used| == 1
    ensures Attempt(rule, SoloPool(), used, [0], "ab", 0) == Some(([0], 2))
  {
    ExtendStops(rule, SoloPool(), used, [0], "ab", [0], 2);
  }

  lemma {:induction false} SoloStep(rule: ClaimRule, atoms: seq<Atom>, used: seq<bool>, target: string, sim: Similarity)
    requires atoms == SoloPool() && target == "ab" && sim == Percent(100) && |used| == 1
    ensures Step(rule, atoms, [0], target, sim, 0, Tally(0, used)) == Tally(1, [true])
  {
    SoloAttempt(rule, used);
    StepAccepts(rule, atoms, [0], target, sim, 0, Tally(0, used));
    MarkSolo(used);
  }

  lemma {:induction false} MarkSolo(used: seq<bool>)
    requires |used| == 1
    ensures MarkUsed(used, [0]) == [true]
  {
  }

  /** A call over one candidate is one step. */
  lemma {:induction false} AssembleOne(rule: ClaimRule, atoms: seq<Atom>, cands: seq<nat>, target: string,
                                       sim: Similarity, st: Tally)
    requires WellFormed(atoms, st.used) && ValidIds(atoms, cands) && |cands| == 1
    ensures AssembleFrom(rule, atoms, cands, target, sim, 0, st) == Step(rule, atoms, cands, target, sim, 0, st)
  {
    var st1 := Step(rule, atoms, cands, target, sim, 0, st);
    assert AssembleFrom(rule, atoms, cands, target, sim, 1, st1) == st1;
  }

  lemma {:induction false} SoloAssemble(rule: ClaimRule, atoms: seq<Atom>, used: seq<bool>, target: string, sim: Similarity)
    requires atoms == SoloPool() && target == "ab" && sim == Percent(100) && |used| == 1
    ensures Assemble(rule, atoms, used, target, sim) == Tally(1, [true])
  {
    SoloCandidates();
    AssembleOne(rule, atoms, [0], target, sim, Tally(0, used));
    SoloStep(rule, atoms, used, target, sim);
  }

  /** Calling the assembler again on a pool whose every atom is used does
      not return 0: the starting atom is never checked for being used, so
      the same atom is counted as a molecule a second time. */
  lemma {:induction false} ExhaustedRecount(rule: ClaimRule)
    ensures Assemble(rule, SoloPool(), [false], "ab", Percent(100)) == Tally(1, [true])
    ensures Assemble(rule, SoloPool(), [true], "ab", Percent(100)) == Tally(1, [true])
  {
    SoloAssemble(rule, SoloPool(), [false], "ab", Percent(100));
    SoloAssemble(rule, SoloPool(), [true], "ab", Percent(100));
  }

  /** A pool in which `"ba"` and `"ca"` compete for the one ambiguous `"a"`. */
  function SharedPool(): seq<Atom> {
    [Atom("b", "ba"), Atom("c", "ca"), Atom("a", AmbiguousKey)]
  }

  /** The target owning atom `o` of the shared pool. */
  function Word(o: nat): string {
    if o == 0 then "ba" else "ca"
  }

  lemma {:induction false} SharedCandidates(o: nat)
    requires o < 2
    ensures Candidates(SharedPool(), Word(o)) == [o, 2]
  {
    var atoms := SharedPool();
    assert atoms[..2][..1][..0] == [];
    assert atoms[..2][..1] == atoms[..1];
    assert Bucket(atoms[..1], Word(o)) == if o == 0 then [0] else [];
    assert Bucket(atoms[..2], Word(o)) == [o];
    assert Bucket(atoms, Word(o)) == [o];
    assert Bucket(atoms[..1], AmbiguousKey) == [];
    assert Bucket(atoms[..2], AmbiguousKey) == [];
    assert Bucket(atoms, AmbiguousKey) == [2];
  }

  /** While the `"a"` is free, the own atom and the `"a"` spell the target. */
  lemma {:induction false} SharedAttemptFree(rule: ClaimRule, o: nat, used: seq<bool>)
    requires o < 2 && |used| == 3 && !used[2]
    ensures Attempt(rule, SharedPool(), used, [o, 2], Word(o), 0) == Some(([o, 2], 2))
  {
    var atoms, cands, target := SharedPool(), [o, 2], Word(o);
    SharedFreeFit(rule, o, used);
    ExtendNext(rule, atoms, used, cands, target, [o], 1, 1);
    assert [o] + [cands[1]] == [o, 2];
    ExtendStops(rule, atoms, used, cands, target, [o, 2], 2);
    assert IsPrefix(atoms[o].value, target);
  }

  /** The free `"a"` is the first candidate to extend the own atom. */
  lemma {:induction false} SharedFreeFit(rule: ClaimRule, o: nat, used: seq<bool>)
    requires o < 2 && |used| == 3 && !used[2]
    ensures FirstFit(rule, SharedPool(), used, [o, 2], [o], Word(o)[1..], 0) == Some(1)
  {
    var atoms, cands, target := SharedPool(), [o, 2], Word(o);
    assert target[1..] == "a";
    assert !Fits(rule, atoms, used, [o], o, "a");
    assert [o][1..] == [] && !SameAtomIn(atoms, used, [], 2);
    assert atoms[o].value != atoms[2].value by {
      assert atoms[o].value[0] != 'a';
    }
    assert !SameAtomIn(atoms, used, [o], 2);
    assert Fits(rule, atoms, used, [o], 2, "a");
    assert FirstFit(rule, atoms, used, cands, [o], target[1..], 1) == Some(1);
  }

  /** Once the `"a"` is used, the own atom alone spells half the target. */
  lemma {:induction false} SharedAttemptTaken(rule: ClaimRule, o: nat, used: seq<bool>)
    requires o < 2 && |used| == 3 && used[2]
    ensures Attempt(rule, SharedPool(), used, [o, 2], Word(o), 0) == Some(([o], 1))
  {
    var atoms, cands, target := SharedPool(), [o, 2], Word(o);
    assert target[1..] == "a";
    assert !Fits(rule, atoms, used, [o], o, "a");
    assert !Fits(rule, atoms, used, [o], 2, "a");
    assert FirstFit(rule, atoms, used, cands, [o], target[1..], 2) == None;
    assert FirstFit(rule, atoms, used, cands, [o], target[1..], 1) == None;
    assert FirstFit(rule, atoms, used, cands, [o], target[1..], 0) == None;
    ExtendStops(rule, atoms, used, cands, target, [o], 1);
    assert IsPrefix(atoms[o].value, target);
  }

  /** The target does not begin with `"a"`, so that start is skipped. */
  lemma {:induction false} SharedSkipAmbiguous(rule: ClaimRule, o: nat, sim: Similarity, st: Tally)
    requires o < 2 && |st.used| == 3
    ensures Step(rule, SharedPool(), [o, 2], Word(o), sim, 1, st) == st
  {
    assert Word(o)[..1][0] != 'a';
  }

  /** First in line, a target takes the `"a"` and counts one molecule. */
  lemma {:induction false} SharedFirst(rule: ClaimRule, o: nat, used: seq<bool>)
    requires o < 2 && |used| == 3 && !used[2]
    ensures Assemble(rule, SharedPool(), used, Word(o), Percent(100)) == Tally(1, used[o := true][2 := true])
  {
    var atoms, cands, target, sim := SharedPool(), [o, 2], Word(o), Percent(100);
    SharedCandidates(o);
    AssembleTwo(rule, atoms, cands, target, sim, Tally(0, used));
    SharedAttemptFree(rule, o, used);
    StepAccepts(rule, atoms, cands, target, sim, 0, Tally(0, used));
    MarkPair(used, o);
    SharedSkipAmbiguous(rule, o, sim, Tally(1, used[o := true][2 := true]));
  }

  lemma {:induction false} MarkPair(used: seq<bool>, o: nat)
    requires o < 2 && |used| == 3
    ensures MarkUsed(used, [o, 2]) == used[o := true][2 := true]
  {
    assert [o, 2][..1] == [o];
    assert [o][..0] == [];
  }

  /** Second in line, the `"a"` is gone and the target counts nothing. */
  lemma {:induction false} SharedSecond(rule: ClaimRule, o: nat, used: seq<bool>)
    requires o < 2 && |used| == 3 && used[2]
    ensures Assemble(rule, SharedPool(), used, Word(o), Percent(100)) == Tally(0, used)
  {
    var atoms, cands, target, sim := SharedPool(), [o, 2], Word(o), Percent(100);
    SharedCandidates(o);
    AssembleTwo(rule, atoms, cands, target, sim, Tally(0, used));
    SharedAttemptTaken(rule, o, used);
    StepAccepts(rule, atoms, cands, target, sim, 0, Tally(0, used));
    SharedSkipAmbiguous(rule, o, sim, Tally(0, used));
  }

  /** `"100%"` is percent mode with threshold 100. */
  lemma {:induction false} HundredPercent()
    ensures ParseSimilarity("100%") == Success(Percent(100))
  {
    assert "100%"[..3] == "100";
    assert "100"[..2] == "10" && "10"[..1] == "1" && "1"[..0] == [];
    assert DigitsValue("100") == 100;
  }

  /** One turn of the run loop, in which word `w` gets tally `t`. */
  lemma {:induction false} SearchStep(rule: ClaimRule, atoms: seq<Atom>, targets: seq<string>, similarity: string,
                                      sim: Similarity, i: nat, p: Progress, w: string, t: Tally)
    requires WellFormed(atoms, p.used) && i < |targets| && ParseSimilarity(similarity) == Success(sim)
    requires targets[i] == w && Assemble(rule, atoms, p.used, w, sim) == t
    ensures SearchFrom(rule, atoms, targets, similarity, i, p)
         == SearchFrom(rule, atoms, targets, similarity, i + 1, Progress(p.results[w := t.count], t.used))
  {
  }

  /** The run over `[Word(o), Word(1 - o)]` from flags `used` in which the
      `"a"` is free: the first word takes it ... */
  lemma {:induction false} SharedRunFirst(rule: ClaimRule, o: nat, targets: seq<string>, similarity: string, used: seq<bool>)
    requires o < 2 && |targets| == 2 && targets[0] == Word(o) && ParseSimilarity(similarity) == Success(Percent(100))
    requires |used| == 3 && !used[2]
    ensures SearchFrom(rule, SharedPool(), targets, similarity, 0, Progress(map[], used))
         == SearchFrom(rule, SharedPool(), targets, similarity, 1, Progress(map[Word(o) := 1], used[o := true][2 := true]))
  {
    var t := Tally(1, used[o := true][2 := true]);
    assert Assemble(rule, SharedPool(), used, Word(o), Percent(100)) == t by {
      SharedFirst(rule, o, used);
    }
    SearchStep(rule, SharedPool(), targets, similarity, Percent(100), 0, Progress(map[], used), Word(o), t);
    assert map[][Word(o) := t.count] == map[Word(o) := 1];
  }

  /** ... and the second word finds it gone. */
  lemma {:induction false} SharedRunSecond(rule: ClaimRule, o: nat, targets: seq<string>, similarity: string,
                                           results: map<string, nat>, used: seq<bool>)
    requires o < 2 && |targets| == 2 && targets[1] == Word(1 - o) && ParseSimilarity(similarity) == Success(Percent(100))
    requires |used| == 3 && used[2]
    ensures SearchFrom(rule, SharedPool(), targets, similarity, 1, Progress(results, used))
         == Success(Progress(results[Word(1 - o) := 0], used))
  {
    SharedSecond(rule, 1 - o, used);
    SearchStep(rule, SharedPool(), targets, similarity, Percent(100), 1, Progress(results, used),
               Word(1 - o), Tally(0, used));
    var p := Progress(results[Word(1 - o) := 0], used);
    assert SearchFrom(rule, SharedPool(), targets, similarity, 2, p) == Success(p);
  }

  lemma {:induction false} SharedRun(rule: ClaimRule, o: nat, targets: seq<string>, similarity: string, used: seq<bool>)
    requires o < 2 && targets == [Word(o), Word(1 - o)] && ParseSimilarity(similarity) == Success(Percent(100))
    requires |used| == 3 && !used[2]
    ensures SearchFrom(rule, SharedPool(), targets, similarity, 0, Progress(map[], used))
         == Success(Progress(map[Word(o) := 1][Word(1 - o) := 0], used[o := true][2 := true]))
  {
    SharedRunFirst(rule, o, targets, similarity, used);
    SharedRunSecond(rule, o, targets, similarity, map[Word(o) := 1], used[o := true][2 := true]);
  }

  /** The order of the target words decides which one gets the shared
      ambiguous atom: the same pool gives `{"ba": 1, "ca": 0}` for
      `["ba", "ca"]` and `{"ca": 1, "ba": 0}` for `["ca", "ba"]`. */
  lemma {:induction false} TargetOrderMatters(rule: ClaimRule)
    ensures SearchFrom(rule, SharedPool(), ["ba", "ca"], "100%", 0, Progress(map[], [false, false, false]))
         == Success(Progress(map["ba" := 1, "ca" := 0], [true, false, true]))
    ensures SearchFrom(rule, SharedPool(), ["ca", "ba"], "100%", 0, Progress(map[], [false, false, false]))
         == Success(Progress(map["ca" := 1, "ba" := 0], [false, true, true]))
  {
    HundredPercent();
    SharedFacts();
    SharedRun(rule, 0, ["ba", "ca"], "100%", [false, false, false]);
    SharedRun(rule, 1, ["ca", "ba"], "100%", [false, false, false]);
  }

  lemma {:induction false} SharedFacts()
    ensures Word(0) == "ba" && Word(1) == "ca"
    ensures [false, false, false][0 := true][2 := true] == [true, false, true]
    ensures [false, false, false][1 := true][2 := true] == [false, true, true]
  {
  }
}
