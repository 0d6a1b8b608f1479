/** Molecule assembly (`form_molecules`, atomic_search/form_molecules.py:3-84,
    and its older variant at atomic_search.py:54-146).

    For one target, every atom of the target's bucket followed by the
    ambiguous bucket is tried as a starting atom when the target begins with
    it, whether or not it is already used. From there the molecule is
    extended greedily: the first candidate, in the same order, that is not
    used, not already claimed by this attempt, and spells the next part of
    the target is appended, until the target is spelled out or no candidate
    fits. The molecule is then scored; an accepted molecule is counted and
    every atom it claimed is marked used, a rejected one changes nothing.

    The functions below specify one call on the arena `(atoms, used)`;
    `FormMolecules` is the imperative assembler proved against them. */
module Assembly {
  import opened Base
  import opened Extraction
  import opened Similarity

  /** How an atom already claimed in the current attempt is recognised. */
  datatype ClaimRule =
    | ById     // by the atom's id (atomic_search/form_molecules.py:42)
    | ByValue  // by dict equality on value and used flag (atomic_search.py:99)

  /** What a call leaves behind: its count and the pool's used flags. */
  datatype Tally = Tally(count: nat, used: seq<bool>)

  /** The used flags cover the arena and no atom is empty. */
  predicate WellFormed(atoms: seq<Atom>, used: seq<bool>) {
    |used| == |atoms| && forall id :: 0 <= id < |atoms| ==> atoms[id].value != []
  }

  predicate ValidIds(atoms: seq<Atom>, ids: seq<nat>) {
    forall k :: 0 <= k < |ids| ==> ids[k] < |atoms|
  }

  /** `atoms[target_word] + atoms['ambiguous_word']` */
  function Candidates(atoms: seq<Atom>, target: string): (cands: seq<nat>)
    ensures ValidIds(atoms, cands)
  {
    Bucket(atoms, target) + Bucket(atoms, AmbiguousKey)
  }

  /** Atom `c` counts as already taken by the attempt that claimed `local`. */
  predicate Claimed(rule: ClaimRule, atoms: seq<Atom>, used: seq<bool>, local: seq<nat>, c: nat)
    requires WellFormed(atoms, used) && ValidIds(atoms, local) && c < |atoms|
  {
    match rule
    case ById => c in local
    case ByValue => SameAtomIn(atoms, used, local, c)
  }

  predicate SameAtomIn(atoms: seq<Atom>, used: seq<bool>, local: seq<nat>, c: nat)
    requires WellFormed(atoms, used) && ValidIds(atoms, local) && c < |atoms|
  {
    local != [] && ((atoms[local[0]].value == atoms[c].value && used[local[0]] == used[c]) || SameAtomIn(atoms, used, local[1..], c))
  }

  /** Atom `c` may extend the molecule whose remaining target is `rest`. */
  predicate Fits(rule: ClaimRule, atoms: seq<Atom>, used: seq<bool>, local: seq<nat>, c: nat, rest: string)
    requires WellFormed(atoms, used) && ValidIds(atoms, local) && c < |atoms|
  {
    !Claimed(rule, atoms, used, local, c) && !used[c] && IsPrefix(atoms[c].value, rest)
  }

  /** The position in `cands`, from `k` on, of the first atom that fits. */
  function FirstFit(rule: ClaimRule, atoms: seq<Atom>, used: seq<bool>, cands: seq<nat>,
                    local: seq<nat>, rest: string, k: nat): (r: Option<nat>)
    requires WellFormed(atoms, used) && ValidIds(atoms, cands) && ValidIds(atoms, local) && k <= |cands|
    ensures r.Some? ==> k <= r.value < |cands| && Fits(rule, atoms, used, local, cands[r.value], rest)
    decreases |cands| - k
  {
    if k == |cands| then None
    else if Fits(rule, atoms, used, local, cands[k], rest) then Some(k)
    else FirstFit(rule, atoms, used, cands, local, rest, k + 1)
  }

  /** `FirstFit` finds the first fitting candidate from `k` on, and `None`
      exactly when no candidate from `k` on fits. */
  lemma {:induction false} FirstFitIsFirst(rule: ClaimRule, atoms: seq<Atom>, used: seq<bool>, cands: seq<nat>,
                                           local: seq<nat>, rest: string, k: nat)
    requires WellFormed(atoms, used) && ValidIds(atoms, cands) && ValidIds(atoms, local) && k <= |cands|
    ensures var r := FirstFit(rule, atoms, used, cands, local, rest, k);
      && (r.Some? ==> forall q :: k <= q < r.value ==> !Fits(rule, atoms, used, local, cands[q], rest))
      && (r.None? <==> forall q :: k <= q < |cands| ==> !Fits(rule, atoms, used, local, cands[q], rest))
    decreases |cands| - k
  {
    if k < |cands| && !Fits(rule, atoms, used, local, cands[k], rest) {
      FirstFitIsFirst(rule, atoms, used, cands, local, rest, k + 1);
    }
  }

  /** The extension loop from claimed atoms `local` at target position `pos`:
      the claimed atoms and position when the target is spelled out or no
      candidate fits. */
  function Extend(rule: ClaimRule, atoms: seq<Atom>, used: seq<bool>, cands: seq<nat>,
                  target: string, local: seq<nat>, pos: nat): (r: (seq<nat>, nat))
    requires WellFormed(atoms, used) && ValidIds(atoms, cands) && ValidIds(atoms, local)
    requires pos <= |target|
    ensures ValidIds(atoms, r.0) && pos <= r.1 <= |target|
    decreases |target| - pos
  {
    if pos == |target| then (local, pos)
    else
      match FirstFit(rule, atoms, used, cands, local, target[pos..], 0)
      case None => (local, pos)
      case Some(q) =>
        var c := cands[q];
        Extend(rule, atoms, used, cands, target, local + [c], pos + |atoms[c].value|)
  }

  /** `current_molecule`: the values of the claimed atoms, concatenated. */
  function Molecule(atoms: seq<Atom>, local: seq<nat>): string
    requires ValidIds(atoms, local)
  {
    if local == [] then []
    else Molecule(atoms, local[..|local| - 1]) + atoms[local[|local| - 1]].value
  }

  /** Every flag set in `before` is still set in `after`. */
  predicate NoReset(before: seq<bool>, after: seq<bool>) {
    |before| == |after| && forall id :: 0 <= id < |before| && before[id] ==> after[id]
  }

  /** Sets the used flag of every atom in `local`. */
  function MarkUsed(used: seq<bool>, local: seq<nat>): (r: seq<bool>)
    requires forall k :: 0 <= k < |local| ==> local[k] < |used|
    ensures |r| == |used|
    ensures forall id :: 0 <= id < |used| ==> r[id] == (used[id] || id in local)
  {
    if local == [] then used
    else
      var n := |local| - 1;
      var prev := MarkUsed(used, local[..n]);
      assert forall id :: id in local <==> id in local[..n] || id == local[n];
      prev[local[n] := true]
  }

  /** The atoms an attempt from starting position `s` claims, and where it
      stops in the target; `None` when the target does not begin with the
      starting atom. */
  function Attempt(rule: ClaimRule, atoms: seq<Atom>, used: seq<bool>, cands: seq<nat>,
                   target: string, s: nat): Option<(seq<nat>, nat)>
    requires WellFormed(atoms, used) && ValidIds(atoms, cands) && s < |cands|
  {
    var start := cands[s];
    if !IsPrefix(atoms[start].value, target) then None
    else Some(Extend(rule, atoms, used, cands, target, [start], |atoms[start].value|))
  }

  /** One iteration of the outer loop, over starting position `s`. */
  function Step(rule: ClaimRule, atoms: seq<Atom>, cands: seq<nat>, target: string,
                sim: Similarity, s: nat, st: Tally): (r: Tally)
    requires WellFormed(atoms, st.used) && ValidIds(atoms, cands) && s < |cands|
    ensures |r.used| == |st.used|
  {
    match Attempt(rule, atoms, st.used, cands, target, s)
    case None => st
    case Some((local, _)) =>
      var molecule := Molecule(atoms, local);
      if |molecule| > |target| then st
      else if Accepts(sim, molecule, target) then Tally(st.count + 1, MarkUsed(st.used, local))
      else st
  }

  /** The outer loop from starting position `s` on. */
  function AssembleFrom(rule: ClaimRule, atoms: seq<Atom>, cands: seq<nat>, target: string,
                        sim: Similarity, s: nat, st: Tally): (r: Tally)
    requires WellFormed(atoms, st.used) && ValidIds(atoms, cands) && s <= |cands|
    ensures |r.used| == |st.used|
    decreases |cands| - s
  {
    if s == |cands| then st
    else AssembleFrom(rule, atoms, cands, target, sim, s + 1, Step(rule, atoms, cands, target, sim, s, st))
  }

  /** One assembly call with an already parsed similarity. */
  function Assemble(rule: ClaimRule, atoms: seq<Atom>, used: seq<bool>, target: string, sim: Similarity): (r: Tally)
    requires WellFormed(atoms, used)
    ensures |r.used| == |used|
  {
    AssembleFrom(rule, atoms, Candidates(atoms, target), target, sim, 0, Tally(0, used))
  }

  /** One `form_molecules` call: a malformed similarity raises before any
      atom is read. */
  function FormMoleculesSpec(rule: ClaimRule, atoms: seq<Atom>, used: seq<bool>,
                             target: string, similarity: string): (r: Result<Tally, Error>)
    requires WellFormed(atoms, used)
    ensures r.Failure? <==> ParseSimilarity(similarity).Failure?
    ensures r.Failure? ==> r.error == ParseSimilarity(similarity).error
    ensures r.Success? ==> |r.value.used| == |used|
  {
    match ParseSimilarity(similarity)
    case Failure(e) => Failure(e)
    case Success(sim) => Success(Assemble(rule, atoms, used, target, sim))
  }

  // ---------------------------------------------------------------------
  // The shared pool and the imperative assembler
  // ---------------------------------------------------------------------

  /** The atom pool of one run: the arena of extracted atoms, whose used
      flags are the only thing any assembly call changes. */
  class Pool {
    const atoms: seq<Atom>
    const used: array<bool>

    ghost predicate Valid()
      reads this
    {
      used.Length == |atoms| && forall id :: 0 <= id < |atoms| ==> atoms[id].value != []
    }

    /** A freshly extracted pool: every atom starts unused. */
    constructor (atoms: seq<Atom>)
      requires forall id :: 0 <= id < |atoms| ==> atoms[id].value != []
      ensures Valid() && this.atoms == atoms && fresh(used)
      ensures used[..] == seq(|atoms|, _ => false)
    {
      this.atoms := atoms;
      used := new bool[|atoms|](_ => false);
    }
  }

  /** The scan `for next_candidate in combined_initial_atoms` for the first
      candidate that can extend the molecule. */
  method NextCandidate(pool: Pool, rule: ClaimRule, cands: seq<nat>, local: seq<nat>, rest: string)
    returns (next: Option<nat>)
    requires pool.Valid() && ValidIds(pool.atoms, cands) && ValidIds(pool.atoms, local)
    ensures WellFormed(pool.atoms, pool.used[..])
    ensures next == FirstFit(rule, pool.atoms, pool.used[..], cands, local, rest, 0)
  {
    next := None;
    var q := 0;
    while q < |cands| && next.None?
      invariant 0 <= q <= |cands|
      invariant next.None? ==> FirstFit(rule, pool.atoms, pool.used[..], cands, local, rest, 0)
                                == FirstFit(rule, pool.atoms, pool.used[..], cands, local, rest, q)
      invariant next.Some? ==> FirstFit(rule, pool.atoms, pool.used[..], cands, local, rest, 0) == next
    {
      if Fits(rule, pool.atoms, pool.used[..], local, cands[q], rest) {
        next := Some(q);
      }
      q := q + 1;
    }
  }

  /** The `while target_index < target_len` loop from a starting atom the
      target begins with: the claimed atoms, the position reached and the
      molecule built. */
  method ExtendMolecule(pool: Pool, rule: ClaimRule, cands: seq<nat>, target: string, start: nat)
    returns (local: seq<nat>, pos: nat, molecule: string)
    requires pool.Valid() && ValidIds(pool.atoms, cands) && start < |pool.atoms|
    requires IsPrefix(pool.atoms[start].value, target)
    ensures WellFormed(pool.atoms, pool.used[..])
    ensures (local, pos) == Extend(rule, pool.atoms, pool.used[..], cands, target, [start], |pool.atoms[start].value|)
    ensures ValidIds(pool.atoms, local) && molecule == Molecule(pool.atoms, local)
  {
    var atoms := pool.atoms;
    ghost var used := pool.used[..];
    molecule := atoms[start].value;
    local := [start];
    pos := |molecule|;
    assert Molecule(atoms, local) == molecule;
    ghost var attempt := Extend(rule, atoms, used, cands, target, local, pos);
    while pos < |target|
      invariant ValidIds(atoms, local) && pos <= |target|
      invariant molecule == Molecule(atoms, local)
      invariant Extend(rule, atoms, used, cands, target, local, pos) == attempt
      invariant pool.used[..] == used
      decreases |target| - pos
    {
      var next := NextCandidate(pool, rule, cands, local, target[pos..]);
      if next.None? {
        ExtendStops(rule, atoms, used, cands, target, local, pos);
        return;
      }
      ExtendNext(rule, atoms, used, cands, target, local, pos, next.value);
      var c := cands[next.value];
      MoleculeSnoc(atoms, local, c);
      molecule := molecule + atoms[c].value;
      local := local + [c];
      pos := pos + |atoms[c].value|;
    }
    ExtendStops(rule, atoms, used, cands, target, local, pos);
  }

  /** Marks every atom of an accepted molecule as used. */
  method Claim(pool: Pool, local: seq<nat>)
    requires pool.Valid() && ValidIds(pool.atoms, local)
    modifies pool.used
    ensures pool.used[..] == MarkUsed(old(pool.used[..]), local)
  {
    for m := 0 to |local|
      invariant pool.used[..] == MarkUsed(old(pool.used[..]), local[..m])
    {
      assert local[..m + 1][..m] == local[..m];
      pool.used[local[m]] := true;
    }
    assert local[..|local|] == local;
  }

  /** One turn of the `for starting_atom in combined_initial_atoms` loop:
      build a molecule from starting position `s`, score it, and on
      acceptance count it and claim its atoms. */
  method TryStart(pool: Pool, rule: ClaimRule, cands: seq<nat>, target: string, sim: Similarity,
                  s: nat, count: nat)
    returns (count': nat)
    requires pool.Valid() && ValidIds(pool.atoms, cands) && s < |cands|
    modifies pool.used
    ensures WellFormed(pool.atoms, old(pool.used[..]))
    ensures Tally(count', pool.used[..]) == Step(rule, pool.atoms, cands, target, sim, s, Tally(count, old(pool.used[..])))
  {
    count' := count;
    var atoms := pool.atoms;
    var start := cands[s];
    if !IsPrefix(atoms[start].value, target) {
      return;
    }
    var local, pos, molecule := ExtendMolecule(pool, rule, cands, target, start);
    if |molecule| > |target| {
      return;
    }
    if Accepts(sim, molecule, target) {
      count' := count + 1;
      Claim(pool, local);
    }
  }

  /** `form_molecules(atoms, target_word, molecule_similarity)`. */
  method FormMolecules(pool: Pool, target: string, similarity: string, rule: ClaimRule)
    returns (r: Result<nat, Error>)
    requires pool.Valid()
    modifies pool.used
    ensures WellFormed(pool.atoms, old(pool.used[..]))
    ensures match FormMoleculesSpec(rule, pool.atoms, old(pool.used[..]), target, similarity)
      case Failure(e) => r == Failure(e) && pool.used[..] == old(pool.used[..])
      case Success(t) => r == Success(t.count) && pool.used[..] == t.used
  {
    var config := ParseSimilarity(similarity);
    if config.Failure? {
      return Failure(config.error);
    }
    var sim := config.value;
    var cands := Candidates(pool.atoms, target);
    ghost var goal := Assemble(rule, pool.atoms, pool.used[..], target, sim);
    var count := 0;
    for s := 0 to |cands|
      invariant pool.Valid()
      invariant AssembleFrom(rule, pool.atoms, cands, target, sim, s, Tally(count, pool.used[..])) == goal
    {
      count := TryStart(pool, rule, cands, target, sim, s, count);
    }
    return Success(count);
  }

  // ---------------------------------------------------------------------
  // Properties of one assembly call
  // ---------------------------------------------------------------------

  lemma {:induction false} MoleculeSnoc(atoms: seq<Atom>, local: seq<nat>, c: nat)
    requires ValidIds(atoms, local) && c < |atoms|
    ensures ValidIds(atoms, local + [c])
    ensures Molecule(atoms, local + [c]) == Molecule(atoms, local) + atoms[c].value
  {
    assert (local + [c])[..|local|] == local;
  }

  /** A turn of the extension loop in which candidate position `q` is the
      first to fit: its atom spells the next part of the target and the loop
      goes on with it claimed. */
  lemma {:induction false} ExtendNext(rule: ClaimRule, atoms: seq<Atom>, used: seq<bool>, cands: seq<nat>,
                                      target: string, local: seq<nat>, pos: nat, q: nat)
    requires WellFormed(atoms, used) && ValidIds(atoms, cands) && ValidIds(atoms, local)
    requires pos < |target| && FirstFit(rule, atoms, used, cands, local, target[pos..], 0) == Some(q)
    ensures q < |cands| && !used[cands[q]]
    ensures pos + |atoms[cands[q]].value| <= |target|
    ensures target[pos..][..|atoms[cands[q]].value|] == atoms[cands[q]].value
    ensures Extend(rule, atoms, used, cands, target, local, pos)
         == Extend(rule, atoms, used, cands, target, local + [cands[q]], pos + |atoms[cands[q]].value|)
  {
  }

  /** The extension loop stops once the target is spelled out or no
      candidate fits. */
  lemma {:induction false} ExtendStops(rule: ClaimRule, atoms: seq<Atom>, used: seq<bool>, cands: seq<nat>,
                                       target: string, local: seq<nat>, pos: nat)
    requires WellFormed(atoms, used) && ValidIds(atoms, cands) && ValidIds(atoms, local) && pos <= |target|
    requires pos == |target| || FirstFit(rule, atoms, used, cands, local, target[pos..], 0).None?
    ensures Extend(rule, atoms, used, cands, target, local, pos) == (local, pos)
  {
  }

  /** Throughout the extension loop the molecule is the target's prefix up
      to the current position. */
  lemma {:induction false} ExtendSpellsPrefix(rule: ClaimRule, atoms: seq<Atom>, used: seq<bool>,
                                              cands: seq<nat>, target: string, local: seq<nat>, pos: nat)
    requires WellFormed(atoms, used) && ValidIds(atoms, cands) && ValidIds(atoms, local)
    requires pos <= |target| && Molecule(atoms, local) == target[..pos]
    ensures var r := Extend(rule, atoms, used, cands, target, local, pos);
      Molecule(atoms, r.0) == target[..r.1]
    decreases |target| - pos
  {
    if pos < |target| {
      match FirstFit(rule, atoms, used, cands, local, target[pos..], 0)
      case None =>
        ExtendStops(rule, atoms, used, cands, target, local, pos);
      case Some(q) =>
        ExtendNext(rule, atoms, used, cands, target, local, pos, q);
        var c := cands[q];
        var v := atoms[c].value;
        MoleculeSnoc(atoms, local, c);
        PrefixGrows(target, pos, v);
        ExtendSpellsPrefix(rule, atoms, used, cands, target, local + [c], pos + |v|);
    } else {
      ExtendStops(rule, atoms, used, cands, target, local, pos);
    }
  }

  /** The extension loop only appends to the claimed atoms, and every atom
      it appends is an unused candidate. */
  lemma {:induction false} ExtendClaimsUnused(rule: ClaimRule, atoms: seq<Atom>, used: seq<bool>,
                                              cands: seq<nat>, target: string, local: seq<nat>, pos: nat)
    requires WellFormed(atoms, used) && ValidIds(atoms, cands) && ValidIds(atoms, local)
    requires pos <= |target|
    ensures var r := Extend(rule, atoms, used, cands, target, local, pos);
      && |local| <= |r.0| && r.0[..|local|] == local
      && forall k :: |local| <= k < |r.0| ==> !used[r.0[k]] && r.0[k] in cands
    decreases |target| - pos
  {
    var r := Extend(rule, atoms, used, cands, target, local, pos);
    if pos < |target| && FirstFit(rule, atoms, used, cands, local, target[pos..], 0).Some? {
      var q := FirstFit(rule, atoms, used, cands, local, target[pos..], 0).value;
      ExtendNext(rule, atoms, used, cands, target, local, pos, q);
      var c := cands[q];
      var next := local + [c];
      ExtendClaimsUnused(rule, atoms, used, cands, target, next, pos + |atoms[c].value|);
      assert r.0[..|next|] == next;
      assert r.0[..|local|] == r.0[..|next|][..|local|];
      forall k | |local| <= k < |r.0| ensures !used[r.0[k]] && r.0[k] in cands {
        if k == |local| {
          assert r.0[k] == r.0[..|next|][k] == c;
        }
      }
    } else {
      ExtendStops(rule, atoms, used, cands, target, local, pos);
    }
  }

  lemma {:induction false} PrefixGrows(target: string, pos: nat, v: string)
    requires pos + |v| <= |target| && target[pos..][..|v|] == v
    ensures target[..pos + |v|] == target[..pos] + v
  {
  }

  /** The molecule of an attempt is always `target[:p]`, so the "longer
      than the target" rejection never fires; it starts with the starting
      atom and every further atom was unused. */
  lemma {:induction false} AttemptSpellsPrefix(rule: ClaimRule, atoms: seq<Atom>, used: seq<bool>, cands: seq<nat>,
                            target: string, s: nat)
    requires WellFormed(atoms, used) && ValidIds(atoms, cands) && s < |cands|
    requires Attempt(rule, atoms, used, cands, target, s).Some?
    ensures var (local, pos) := Attempt(rule, atoms, used, cands, target, s).value;
      && Molecule(atoms, local) == target[..pos] && 0 < pos <= |target|
      && |local| >= 1 && local[0] == cands[s]
      && forall k :: 1 <= k < |local| ==> !used[local[k]] && local[k] in cands
  {
    var start := cands[s];
    assert Molecule(atoms, [start]) == atoms[start].value;
    ExtendSpellsPrefix(rule, atoms, used, cands, target, [start], |atoms[start].value|);
    ExtendClaimsUnused(rule, atoms, used, cands, target, [start], |atoms[start].value|);
  }

  /** Acceptance in closed form: a molecule spelling `p` characters of an
      `n`-character target is accepted in percent mode iff
      `200p >= threshold * (p + n)`, and in tolerance mode iff
      `p >= n - missing`; a partial molecule whose extension failed is
      judged by the same test. */
  lemma {:induction false} StepAccepts(rule: ClaimRule, atoms: seq<Atom>, cands: seq<nat>, target: string,
                    sim: Similarity, s: nat, st: Tally)
    requires WellFormed(atoms, st.used) && ValidIds(atoms, cands) && s < |cands|
    requires Attempt(rule, atoms, st.used, cands, target, s).Some?
    ensures var (local, p) := Attempt(rule, atoms, st.used, cands, target, s).value;
      Step(rule, atoms, cands, target, sim, s, st)
        == if PrefixAccepted(sim, p, |target|) then Tally(st.count + 1, MarkUsed(st.used, local)) else st
  {
    AttemptSpellsPrefix(rule, atoms, st.used, cands, target, s);
    var (local, p) := Attempt(rule, atoms, st.used, cands, target, s).value;
    var molecule := Molecule(atoms, local);
    assert molecule == target[..p];
    AcceptsPrefix(sim, target, p);
    assert Accepts(sim, molecule, target) == PrefixAccepted(sim, p, |target|);
  }

  /** The number of starting positions from `s` on whose atom begins the target. */
  function PrefixStarts(atoms: seq<Atom>, cands: seq<nat>, target: string, s: nat): nat
    requires ValidIds(atoms, cands) && s <= |cands|
    decreases |cands| - s
  {
    if s == |cands| then 0
    else (if IsPrefix(atoms[cands[s]].value, target) then 1 else 0) + PrefixStarts(atoms, cands, target, s + 1)
  }

  /** One step adds at most one to the count, and only from a start that
      begins the target; flags only turn on, only for candidates, and a
      step that counts nothing changes nothing. */
  lemma {:induction false} StepFrame(rule: ClaimRule, atoms: seq<Atom>, cands: seq<nat>, target: string,
                  sim: Similarity, s: nat, st: Tally)
    requires WellFormed(atoms, st.used) && ValidIds(atoms, cands) && s < |cands|
    ensures var st' := Step(rule, atoms, cands, target, sim, s, st);
      && |st'.used| == |st.used|
      && st.count <= st'.count <= st.count + (if IsPrefix(atoms[cands[s]].value, target) then 1 else 0)
      && (st'.count == st.count ==> st' == st)
      && NoReset(st.used, st'.used)
      && (forall id :: 0 <= id < |st.used| && st'.used[id] != st.used[id] ==> id in cands)
  {
    var attempt := Attempt(rule, atoms, st.used, cands, target, s);
    if attempt.Some? {
      AttemptSpellsPrefix(rule, atoms, st.used, cands, target, s);
      var local := attempt.value.0;
      forall k | 0 <= k < |local| ensures local[k] in cands {
        if k == 0 {
          assert local[0] == cands[s];
        }
      }
      MarkUsedFrame(st.used, local, cands);
    }
  }

  /** Claiming atoms of `cands` only sets flags, and only theirs. */
  lemma {:induction false} MarkUsedFrame(used: seq<bool>, local: seq<nat>, cands: seq<nat>)
    requires forall k :: 0 <= k < |local| ==> local[k] < |used| && local[k] in cands
    ensures NoReset(used, MarkUsed(used, local))
    ensures forall id :: 0 <= id < |used| && MarkUsed(used, local)[id] != used[id] ==> id in cands
  {
    var r := MarkUsed(used, local);
    forall id | 0 <= id < |used| && r[id] != used[id] ensures id in cands {
      var k :| 0 <= k < |local| && local[k] == id;
    }
  }

  /** Over a whole call: the count is at most the number of candidates the
      target begins with, used flags are never reset, and atoms outside the
      candidate list are untouched. */
  lemma {:induction false} AssembleFromFrame(rule: ClaimRule, atoms: seq<Atom>, cands: seq<nat>,
                                             target: string, sim: Similarity, s: nat, st: Tally)
    requires WellFormed(atoms, st.used) && ValidIds(atoms, cands) && s <= |cands|
    ensures var st' := AssembleFrom(rule, atoms, cands, target, sim, s, st);
      && |st'.used| == |st.used|
      && st.count <= st'.count <= st.count + PrefixStarts(atoms, cands, target, s)
      && NoReset(st.used, st'.used)
      && (forall id :: 0 <= id < |st.used| && st'.used[id] != st.used[id] ==> id in cands)
    decreases |cands| - s
  {
    if s < |cands| {
      StepFrame(rule, atoms, cands, target, sim, s, st);
      var st1 := Step(rule, atoms, cands, target, sim, s, st);
      AssembleFromFrame(rule, atoms, cands, target, sim, s + 1, st1);
    }
  }

  /** `form_molecules` returns at most the number of candidates its target
      begins with; it only ever sets flags, and only on atoms of the
      target's bucket or of the ambiguous bucket. */
  lemma {:induction false} AssembleFrame(rule: ClaimRule, atoms: seq<Atom>, used: seq<bool>, target: string, sim: Similarity)
    requires WellFormed(atoms, used)
    ensures var t := Assemble(rule, atoms, used, target, sim);
      var cands := Candidates(atoms, target);
      && |t.used| == |used|
      && t.count <= PrefixStarts(atoms, cands, target, 0)
      && NoReset(used, t.used)
      && (forall id :: 0 <= id < |used| && t.used[id] != used[id] ==> atoms[id].owner in {target, AmbiguousKey})
  {
    var cands := Candidates(atoms, target);
    AssembleFromFrame(rule, atoms, cands, target, sim, 0, Tally(0, used));
    forall id | id in cands ensures atoms[id].owner in {target, AmbiguousKey} {
      CandidateOwner(atoms, target, id);
    }
  }

  /** The candidates of a target are filed under it or under the ambiguous key. */
  lemma {:induction false} CandidateOwner(atoms: seq<Atom>, target: string, id: nat)
    requires id in Candidates(atoms, target)
    ensures id < |atoms| && (atoms[id].owner == target || atoms[id].owner == AmbiguousKey)
  {
    var b, a := Bucket(atoms, target), Bucket(atoms, AmbiguousKey);
    assert id in b + a;
    if id in b {
      var k :| 0 <= k < |b| && b[k] == id;
    } else {
      var k :| 0 <= k < |a| && a[k] == id;
    }
  }

  /** On a pool where every candidate is already used no extension is
      possible and no flag changes: each start is judged on its own value. */
  lemma {:induction false} ExhaustedPoolUnchanged(rule: ClaimRule, atoms: seq<Atom>, cands: seq<nat>,
                                                  target: string, sim: Similarity, s: nat, st: Tally)
    requires WellFormed(atoms, st.used) && ValidIds(atoms, cands) && s <= |cands|
    requires forall k :: 0 <= k < |cands| ==> st.used[cands[k]]
    ensures AssembleFrom(rule, atoms, cands, target, sim, s, st).used == st.used
    decreases |cands| - s
  {
    if s < |cands| {
      ExhaustedStep(rule, atoms, cands, target, sim, s, st);
      ExhaustedPoolUnchanged(rule, atoms, cands, target, sim, s + 1, Step(rule, atoms, cands, target, sim, s, st));
    }
  }

  /** One step on an exhausted pool claims only its starting atom, which is
      already used. */
  lemma {:induction false} ExhaustedStep(rule: ClaimRule, atoms: seq<Atom>, cands: seq<nat>,
                                         target: string, sim: Similarity, s: nat, st: Tally)
    requires WellFormed(atoms, st.used) && ValidIds(atoms, cands) && s < |cands|
    requires forall k :: 0 <= k < |cands| ==> st.used[cands[k]]
    ensures Step(rule, atoms, cands, target, sim, s, st).used == st.used
  {
    var start := cands[s];
    if IsPrefix(atoms[start].value, target) {
      var local, pos := [start], |atoms[start].value|;
      ExtendStops(rule, atoms, st.used, cands, target, local, pos);
      MarkUsedNoChange(st.used, local);
    }
  }

  /** Claiming atoms that are all already used changes no flag. */
  lemma {:induction false} MarkUsedNoChange(used: seq<bool>, local: seq<nat>)
    requires forall k :: 0 <= k < |local| ==> local[k] < |used| && used[local[k]]
    ensures MarkUsed(used, local) == used
  {
    var r := MarkUsed(used, local);
    forall id | 0 <= id < |used| ensures r[id] == used[id] {
      if id in local {
        var k :| 0 <= k < |local| && local[k] == id;
      }
    }
  }
}
