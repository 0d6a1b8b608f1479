/** The orchestrator (`atomic_search`, atomic_search/atomic_search.py:4-18,
    and its copy at atomic_search.py:149-162): the pool is extracted once,
    then `form_molecules` runs for each target word in list order over that
    one pool, so flags set for an earlier target are seen by later ones, and
    each count is stored under its target word. */
module Search {
  import opened Base
  import opened Extraction
  import opened Similarity
  import opened Assembly

  /** The state of a run after some targets: the results so far and the
      pool's used flags. */
  datatype Progress = Progress(results: map<string, nat>, used: seq<bool>)

  /** The loop `for target_word in target_words` from index `i` on. */
  function SearchFrom(rule: ClaimRule, atoms: seq<Atom>, targets: seq<string>, similarity: string,
                      i: nat, p: Progress): (r: Result<Progress, Error>)
    requires WellFormed(atoms, p.used) && i <= |targets|
    ensures r.Failure? <==> i < |targets| && ParseSimilarity(similarity).Failure?
    ensures r.Failure? ==> r.error == ParseSimilarity(similarity).error
    ensures r.Success? ==> |r.value.used| == |p.used|
    decreases |targets| - i
  {
    if i == |targets| then Success(p)
    else
      match FormMoleculesSpec(rule, atoms, p.used, targets[i], similarity)
      case Failure(e) => Failure(e)
      case Success(t) =>
        SearchFrom(rule, atoms, targets, similarity, i + 1, Progress(p.results[targets[i] := t.count], t.used))
  }

  /** The pool as extracted: every atom unused. */
  function FreshFlags(atoms: seq<Atom>): (used: seq<bool>)
    ensures |used| == |atoms| && forall id :: 0 <= id < |used| ==> !used[id]
  {
    seq(|atoms|, _ => false)
  }

  /** The whole run: the final progress, or the first error raised. */
  function RunSpec(rule: ClaimRule, targets: seq<string>, search: string, size: AtomSizeArg,
                   similarity: string): Result<(seq<Atom>, Progress), Error>
  {
    match ExtractAtoms(targets, search, size)
    case Failure(e) => Failure(e)
    case Success(atoms) =>
      ExtractedAtomsWellFormed(targets, search, size);
      match SearchFrom(rule, atoms, targets, similarity, 0, Progress(map[], FreshFlags(atoms)))
      case Failure(e) => Failure(e)
      case Success(p) => Success((atoms, p))
  }

  /** `atomic_search(target_words, search_space, min_atom_size, molecule_similarity)`. */
  function AtomicSearchSpec(rule: ClaimRule, targets: seq<string>, search: string, size: AtomSizeArg,
                            similarity: string): Result<map<string, nat>, Error>
  {
    match RunSpec(rule, targets, search, size, similarity)
    case Failure(e) => Failure(e)
    case Success((_, p)) => Success(p.results)
  }

  /** The imperative orchestrator: one pool, one assembler call per target. */
  method AtomicSearch(targets: seq<string>, search: string, size: AtomSizeArg, similarity: string, rule: ClaimRule)
    returns (r: Result<map<string, nat>, Error>)
    ensures r == AtomicSearchSpec(rule, targets, search, size, similarity)
  {
    var extracted := ExtractAtoms(targets, search, size);
    if extracted.Failure? {
      return Failure(extracted.error);
    }
    ExtractedAtomsWellFormed(targets, search, size);
    var pool := new Pool(extracted.value);
    ghost var goal := SearchFrom(rule, pool.atoms, targets, similarity, 0, Progress(map[], pool.used[..]));
    var results: map<string, nat> := map[];
    for i := 0 to |targets|
      invariant pool.Valid() && pool.atoms == extracted.value
      invariant SearchFrom(rule, pool.atoms, targets, similarity, i, Progress(results, pool.used[..])) == goal
    {
      var count := FormMolecules(pool, targets[i], similarity, rule);
      if count.Failure? {
        return Failure(count.error);
      }
      results := results[targets[i] := count.value];
    }
    return Success(results);
  }

  // ---------------------------------------------------------------------
  // Properties of a run
  // ---------------------------------------------------------------------

  /** Which error a run raises, and when: extraction parses `min_atom_size`
      first, and only when there are targets; the similarity string is
      parsed by the first assembler call, so again only when there are
      targets. With no targets the result is empty whatever the
      configuration. */
  lemma {:induction false} AtomicSearchErrors(rule: ClaimRule, targets: seq<string>, search: string,
                                              size: AtomSizeArg, similarity: string)
    ensures var r := AtomicSearchSpec(rule, targets, search, size, similarity);
      && (targets == [] ==> r == Success(map[]))
      && (targets != [] && ParseAtomSize(size).Failure? ==> r == Failure(ParseAtomSize(size).error))
      && (targets != [] && ParseAtomSize(size).Success? ==>
            (r.Failure? <==> ParseSimilarity(similarity).Failure?)
            && (r.Failure? ==> r.error == ParseSimilarity(similarity).error))
  {
  }

  /** The used flags after the first `j` assembler calls of a run with
      parsed similarity `sim`. */
  function Flags(rule: ClaimRule, atoms: seq<Atom>, targets: seq<string>, sim: Similarity,
                 used0: seq<bool>, j: nat): (used: seq<bool>)
    requires WellFormed(atoms, used0) && j <= |targets|
    ensures |used| == |used0|
  {
    if j == 0 then used0
    else Assemble(rule, atoms, Flags(rule, atoms, targets, sim, used0, j - 1), targets[j - 1], sim).used
  }

  /** The counts the first `j` assembler calls return, in call order. */
  function Counts(rule: ClaimRule, atoms: seq<Atom>, targets: seq<string>, sim: Similarity,
                  used0: seq<bool>, j: nat): (counts: seq<nat>)
    requires WellFormed(atoms, used0) && j <= |targets|
    ensures |counts| == j
  {
    if j == 0 then []
    else
      var used := Flags(rule, atoms, targets, sim, used0, j - 1);
      Counts(rule, atoms, targets, sim, used0, j - 1) + [Assemble(rule, atoms, used, targets[j - 1], sim).count]
  }

  /** `results` holds exactly the targets among the first `i`, each mapped
      to the count of its last call. */
  ghost predicate Recorded(targets: seq<string>, counts: seq<nat>, results: map<string, nat>)
    requires |counts| <= |targets|
  {
    var i := |counts|;
    && (forall t :: t in results <==> t in targets[..i])
    && (forall j :: 0 <= j < i && targets[j] !in targets[j + 1..i] ==>
          targets[j] in results && results[targets[j]] == counts[j])
  }

  /** The keys of the results are exactly the target words; each is mapped
      to the count of its call, the later call winning for a repeated word;
      the pool ends in the state the calls, in list order, leave it. */
  lemma {:induction false} SearchRecordsCalls(rule: ClaimRule, atoms: seq<Atom>, targets: seq<string>,
                                              similarity: string, sim: Similarity, used0: seq<bool>)
    requires WellFormed(atoms, used0) && ParseSimilarity(similarity) == Success(sim)
    ensures var r := SearchFrom(rule, atoms, targets, similarity, 0, Progress(map[], used0));
      && r.Success?
      && r.value.used == Flags(rule, atoms, targets, sim, used0, |targets|)
      && Recorded(targets, Counts(rule, atoms, targets, sim, used0, |targets|), r.value.results)
  {
    SearchFromRecords(rule, atoms, targets, similarity, sim, used0, 0, map[]);
  }

  lemma {:induction false} SearchFromRecords(rule: ClaimRule, atoms: seq<Atom>, targets: seq<string>,
                                             similarity: string, sim: Similarity, used0: seq<bool>,
                                             i: nat, results: map<string, nat>)
    requires WellFormed(atoms, used0) && ParseSimilarity(similarity) == Success(sim) && i <= |targets|
    requires Recorded(targets, Counts(rule, atoms, targets, sim, used0, i), results)
    ensures var used := Flags(rule, atoms, targets, sim, used0, i);
      var r := SearchFrom(rule, atoms, targets, similarity, i, Progress(results, used));
      && r.Success?
      && r.value.used == Flags(rule, atoms, targets, sim, used0, |targets|)
      && Recorded(targets, Counts(rule, atoms, targets, sim, used0, |targets|), r.value.results)
    decreases |targets| - i
  {
    if i < |targets| {
      var used := Flags(rule, atoms, targets, sim, used0, i);
      var t := Assemble(rule, atoms, used, targets[i], sim);
      var counts := Counts(rule, atoms, targets, sim, used0, i);
      assert Counts(rule, atoms, targets, sim, used0, i + 1) == counts + [t.count];
      assert Flags(rule, atoms, targets, sim, used0, i + 1) == t.used;
      RecordedStep(targets, counts, results, t.count);
      SearchFromRecords(rule, atoms, targets, similarity, sim, used0, i + 1, results[targets[i] := t.count]);
    }
  }

  /** Storing the next call's count keeps the results recorded. */
  lemma {:induction false} RecordedStep(targets: seq<string>, counts: seq<nat>, results: map<string, nat>, c: nat)
    requires |counts| < |targets| && Recorded(targets, counts, results)
    ensures Recorded(targets, counts + [c], results[targets[|counts|] := c])
  {
    var i := |counts|;
    var counts', results' := counts + [c], results[targets[i] := c];
    assert targets[..i + 1] == targets[..i] + [targets[i]];
    forall j | 0 <= j < i + 1 && targets[j] !in targets[j + 1..i + 1]
      ensures targets[j] in results' && results'[targets[j]] == counts'[j]
    {
      if j < i {
        assert targets[j + 1..i + 1] == targets[j + 1..i] + [targets[i]];
      }
    }
  }

  /** Flags set by an earlier call stay set for every later call: the pool
      is never reset or rebuilt during a run. */
  lemma {:induction false} FlagsNeverReset(rule: ClaimRule, atoms: seq<Atom>, targets: seq<string>, sim: Similarity,
                                           used0: seq<bool>, j: nat, k: nat)
    requires WellFormed(atoms, used0) && j <= k <= |targets|
    ensures NoReset(Flags(rule, atoms, targets, sim, used0, j), Flags(rule, atoms, targets, sim, used0, k))
  {
    var trace := seq(|targets| + 1, m requires 0 <= m <= |targets| => Flags(rule, atoms, targets, sim, used0, m));
    forall m | 0 <= m < |trace| - 1 ensures NoReset(trace[m], trace[m + 1]) {
      CallNoReset(rule, atoms, targets, sim, used0, m + 1);
    }
    ChainNoReset(trace, j, k);
  }

  /** One call sets flags and never clears them. */
  lemma {:induction false} CallNoReset(rule: ClaimRule, atoms: seq<Atom>, targets: seq<string>, sim: Similarity,
                                       used0: seq<bool>, k: nat)
    requires WellFormed(atoms, used0) && 0 < k <= |targets|
    ensures NoReset(Flags(rule, atoms, targets, sim, used0, k - 1), Flags(rule, atoms, targets, sim, used0, k))
  {
    AssembleFrame(rule, atoms, Flags(rule, atoms, targets, sim, used0, k - 1), targets[k - 1], sim);
  }

  /** Along a sequence of pool states each of which keeps the flags of the
      one before, every later state keeps the flags of every earlier one. */
  lemma {:induction false} ChainNoReset(trace: seq<seq<bool>>, j: nat, k: nat)
    requires j <= k < |trace|
    requires forall m :: 0 <= m < |trace| - 1 ==> NoReset(trace[m], trace[m + 1])
    ensures NoReset(trace[j], trace[k])
    decreases k - j
  {
    if j < k {
      ChainNoReset(trace, j, k - 1);
      assert NoReset(trace[k - 1], trace[k]);
    }
  }
}
