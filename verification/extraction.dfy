/** Atom extraction (`extract_atoms`, atomic_search.py:6-52): the search text
    is cut into maximal runs of ASCII letters, and each run is filed under
    the single target word it can belong to, under the ambiguous key when
    several targets accept it, or dropped.

    The extracted pool is an arena: a sequence of atoms whose index is the
    atom's id, so ids follow left-to-right extraction order across all
    buckets. A bucket (`atoms[key]` in the source) is the ascending list of
    ids filed under that key. */
module Extraction {
  import opened Base

  /** The dictionary key under which ambiguous atoms are filed. */
  const AmbiguousKey: string := "ambiguous_word"

  /** A stored atom: its text and the bucket key it is filed under. */
  datatype Atom = Atom(value: string, owner: string)

  /** The `min_atom_size` argument as the caller passes it. */
  datatype AtomSizeArg = IntArg(n: int) | StrArg(s: string)

  /** The parsed minimum atom size: a letter count, or a percentage of
      each target's length. */
  datatype AtomSize = Letters(count: int) | Share(percent: int)

  predicate IsLetter(c: char) {
    'a' <= c <= 'z' || 'A' <= c <= 'Z'
  }

  predicate AllLetters(s: string) {
    forall i :: 0 <= i < |s| ==> IsLetter(s[i])
  }

  predicate NoLetters(s: string) {
    forall i :: 0 <= i < |s| ==> !IsLetter(s[i])
  }

  predicate Distinct(s: seq<string>) {
    forall i, j :: 0 <= i < j < |s| ==> s[i] != s[j]
  }

  // ---------------------------------------------------------------------
  // Fragmenting: re.split(r'[^a-zA-Z]+', search_space), empty pieces dropped
  // (atomic_search.py:25-30)
  // ---------------------------------------------------------------------

  /** Length of the run of letters that `s` starts with. */
  function LetterRun(s: string): (n: nat)
    ensures n <= |s| && AllLetters(s[..n])
    ensures n < |s| ==> !IsLetter(s[n])
  {
    if s != [] && IsLetter(s[0]) then
      var n := 1 + LetterRun(s[1..]);
      assert s[..n] == [s[0]] + s[1..][..n - 1];
      n
    else 0
  }

  /** The non-empty maximal letter runs of `s`, left to right. */
  function Fragments(s: string): (frags: seq<string>)
    ensures forall k :: 0 <= k < |frags| ==> frags[k] != [] && AllLetters(frags[k])
    decreases |s|
  {
    if s == [] then []
    else if !IsLetter(s[0]) then Fragments(s[1..])
    else
      var n := LetterRun(s);
      [s[..n]] + Fragments(s[n..])
  }

  /** The text around the fragments: the stretch before the first fragment,
      the gaps between consecutive fragments, and the stretch after the last. */
  function Separators(s: string): (seps: seq<string>)
    ensures |seps| == |Fragments(s)| + 1
    decreases |s|
  {
    if s == [] then [""]
    else if !IsLetter(s[0]) then
      var r := Separators(s[1..]);
      [[s[0]] + r[0]] + r[1..]
    else
      [""] + Separators(s[LetterRun(s)..])
  }

  /** `seps[0] + frags[0] + seps[1] + ... + frags[m-1] + seps[m]` */
  function Interleave(seps: seq<string>, frags: seq<string>): string
    requires |seps| == |frags| + 1
  {
    if frags == [] then seps[0] else seps[0] + frags[0] + Interleave(seps[1..], frags[1..])
  }

  /** `frags` are the maximal letter runs of `s`: put back between the
      separators they rebuild `s`, they are non-empty letter strings, the
      separators hold no letter, and consecutive fragments are apart. */
  predicate SplitsInto(s: string, frags: seq<string>, seps: seq<string>) {
    && |seps| == |frags| + 1
    && Interleave(seps, frags) == s
    && (forall k :: 0 <= k < |frags| ==> frags[k] != [] && AllLetters(frags[k]))
    && (forall k :: 0 <= k < |seps| ==> NoLetters(seps[k]))
    && (forall k :: 0 < k < |frags| ==> seps[k] != [])
  }

  lemma {:induction false} InterleaveConsHead(c: char, seps: seq<string>, frags: seq<string>)
    requires |seps| == |frags| + 1
    ensures Interleave([[c] + seps[0]] + seps[1..], frags) == [c] + Interleave(seps, frags)
  {
    var seps' := [[c] + seps[0]] + seps[1..];
    assert seps'[1..] == seps[1..];
  }

  lemma {:induction false} FragmentsInterleave(s: string)
    ensures Interleave(Separators(s), Fragments(s)) == s
    decreases |s|
  {
    if s == [] {
    } else if !IsLetter(s[0]) {
      FragmentsInterleave(s[1..]);
      InterleaveSkip(s);
    } else {
      FragmentsInterleave(s[LetterRun(s)..]);
      InterleaveRun(s);
    }
  }

  lemma {:induction false} InterleaveSkip(s: string)
    requires s != [] && !IsLetter(s[0])
    requires Interleave(Separators(s[1..]), Fragments(s[1..])) == s[1..]
    ensures Interleave(Separators(s), Fragments(s)) == s
  {
    var rest := s[1..];
    var r, f := Separators(rest), Fragments(rest);
    assert Separators(s) == [[s[0]] + r[0]] + r[1..];
    assert Fragments(s) == f;
    InterleaveConsHead(s[0], r, f);
    assert [s[0]] + rest == s;
  }

  lemma {:induction false} InterleaveRun(s: string)
    requires s != [] && IsLetter(s[0])
    requires Interleave(Separators(s[LetterRun(s)..]), Fragments(s[LetterRun(s)..])) == s[LetterRun(s)..]
    ensures Interleave(Separators(s), Fragments(s)) == s
  {
    var n := LetterRun(s);
    var w, rest := s[..n], s[n..];
    SplitRun(s);
    InterleaveConsFragment(w, Separators(rest), Fragments(rest));
    assert w + rest == s;
  }

  /** A leading letter run is the first fragment, with no separator before it. */
  lemma {:induction false} SplitRun(s: string)
    requires s != [] && IsLetter(s[0])
    ensures Fragments(s) == [s[..LetterRun(s)]] + Fragments(s[LetterRun(s)..])
    ensures Separators(s) == [""] + Separators(s[LetterRun(s)..])
  {
  }

  lemma {:induction false} InterleaveConsFragment(w: string, seps: seq<string>, frags: seq<string>)
    requires |seps| == |frags| + 1
    ensures Interleave([""] + seps, [w] + frags) == w + Interleave(seps, frags)
  {
    var seps', frags' := [""] + seps, [w] + frags;
    assert seps'[1..] == seps && frags'[1..] == frags;
  }

  lemma {:induction false} SeparatorsNoLetters(s: string)
    ensures forall k :: 0 <= k < |Separators(s)| ==> NoLetters(Separators(s)[k])
    decreases |s|
  {
    if s == [] {
    } else if !IsLetter(s[0]) {
      SeparatorsNoLetters(s[1..]);
      var r := Separators(s[1..]);
      assert NoLetters([s[0]] + r[0]);
    } else {
      SeparatorsNoLetters(s[LetterRun(s)..]);
    }
  }

  lemma {:induction false} SeparatorsApart(s: string)
    ensures forall k :: 0 < k < |Fragments(s)| ==> Separators(s)[k] != []
    decreases |s|
  {
    if s == [] {
    } else if !IsLetter(s[0]) {
      SeparatorsApart(s[1..]);
    } else {
      var n := LetterRun(s);
      var rest := s[n..];
      SeparatorsApart(rest);
      if |Fragments(s)| > 1 {
        assert rest != [] && !IsLetter(rest[0]);
        assert Separators(s)[1] == Separators(rest)[0];
      }
    }
  }

  /** Fragmenting meets its reference meaning: the fragments are exactly the
      maximal letter runs of the text, in order. */
  lemma {:induction false} FragmentsSplit(s: string)
    ensures SplitsInto(s, Fragments(s), Separators(s))
  {
    FragmentsInterleave(s);
    SeparatorsNoLetters(s);
    SeparatorsApart(s);
  }

  /** Conversely, any split of the text into non-empty letter runs apart
      from each other by letter-free gaps is the one `Fragments` and
      `Separators` compute: the maximal runs are determined by the text. */
  lemma {:induction false} SplitDeterminesFragments(s: string, frags: seq<string>, seps: seq<string>)
    requires SplitsInto(s, frags, seps)
    ensures Fragments(s) == frags && Separators(s) == seps
    decreases |s|
  {
    if frags == [] {
      NoLettersSplit(s);
    } else if seps[0] != [] {
      var c := seps[0][0];
      var seps' := [seps[0][1..]] + seps[1..];
      assert [c] + seps'[0] == seps[0] && seps'[1..] == seps[1..];
      assert [[c] + seps'[0]] + seps'[1..] == seps;
      InterleaveConsHead(c, seps', frags);
      assert s == [c] + Interleave(seps', frags);
      assert s[1..] == Interleave(seps', frags);
      assert NoLetters(seps'[0]) by {
        assert forall i :: 0 <= i < |seps'[0]| ==> seps'[0][i] == seps[0][i + 1];
      }
      SplitDeterminesFragments(s[1..], frags, seps');
    } else {
      var w, rest := frags[0], Interleave(seps[1..], frags[1..]);
      assert s == w + rest;
      assert seps[1] != [] || |frags| == 1;
      assert rest != [] ==> !IsLetter(rest[0]) by {
        if |frags| == 1 {
          assert rest == seps[1];
        } else {
          assert rest[..|seps[1]|] == seps[1];
        }
      }
      LetterRunOfRun(w, rest);
      assert s[..|w|] == w && s[|w|..] == rest;
      SplitDeterminesFragments(rest, frags[1..], seps[1..]);
    }
  }

  /** A letter-free text has no fragments and is its own single separator. */
  lemma {:induction false} NoLettersSplit(s: string)
    requires NoLetters(s)
    ensures Fragments(s) == [] && Separators(s) == [s]
    decreases |s|
  {
    if s != [] {
      NoLettersSplit(s[1..]);
      assert [s[0]] + s[1..] == s;
    }
  }

  /** The letter run at the start of `w + rest` is `w` when `w` is all
      letters and `rest` does not begin with one. */
  lemma {:induction false} LetterRunOfRun(w: string, rest: string)
    requires AllLetters(w) && (rest != [] ==> !IsLetter(rest[0]))
    ensures LetterRun(w + rest) == |w|
    decreases |w|
  {
    if w != [] {
      LetterRunOfRun(w[1..], rest);
      assert (w + rest)[1..] == w[1..] + rest;
    }
  }

  // ---------------------------------------------------------------------
  // Thresholds (atomic_search.py:18-22)
  // ---------------------------------------------------------------------

  /** Whether a `min_atom_size` string is a percentage: it ends in '%'. */
  predicate IsPercentArg(s: string) {
    |s| > 0 && s[|s| - 1] == '%'
  }

  /** The part of a `min_atom_size` string handed to `int()`: all but the
      '%' of a percentage, the whole string otherwise. */
  function SizeLiteral(s: string): string {
    if IsPercentArg(s) then s[..|s| - 1] else s
  }

  /** A string ending in '%' is a percentage of each target's length;
      anything else goes through `int()`, which may raise. */
  function ParseAtomSize(arg: AtomSizeArg): (r: Result<AtomSize, Error>)
    ensures arg.IntArg? ==> r == Success(Letters(arg.n))
    ensures r.Success? && r.value.Share? <==> arg.StrArg? && IsPercentArg(arg.s) && ParseInt(SizeLiteral(arg.s)).Some?
    ensures r.Failure? <==> arg.StrArg? && ParseInt(SizeLiteral(arg.s)).None?
    ensures r.Failure? ==> r.error == InvalidLiteral(SizeLiteral(arg.s))
    ensures r.Success? && arg.StrArg? ==>
              ParseInt(SizeLiteral(arg.s)) == Some(if r.value.Share? then r.value.percent else r.value.count)
  {
    match arg
    case IntArg(n) => Success(Letters(n))
    case StrArg(s) =>
      if |s| > 0 && s[|s| - 1] == '%' then
        match ParseInt(s[..|s| - 1])
        case Some(p) => Success(Share(p))
        case None => Failure(InvalidLiteral(s[..|s| - 1]))
      else
        match ParseInt(s)
        case Some(n) => Success(Letters(n))
        case None => Failure(InvalidLiteral(s))
  }
  /** `"N%"` parses back to a share of N percent. */
  lemma {:induction false} ParseSizePercent(n: int)
    ensures ParseAtomSize(StrArg(ShowInt(n) + "%")) == Success(Share(n))
  {
    var s := ShowInt(n) + "%";
    assert s[..|s| - 1] == ShowInt(n);
    ParseShowInt(n);
  }

  /** `str(N)` parses back to a count of N letters. */
  lemma {:induction false} ParseSizeCount(n: int)
    ensures ParseAtomSize(StrArg(ShowInt(n))) == Success(Letters(n))
  {
    ShowIntEndsInDigit(n);
    ParseShowInt(n);
  }


  /** The minimum fragment length for `target`; a percentage is taken of
      the target's length and floored, as Python's `//` does. */
  function Threshold(size: AtomSize, target: string): (r: int)
    ensures size.Letters? ==> r == size.count
    ensures size.Share? ==> r * 100 <= |target| * size.percent < r * 100 + 100
  {
    match size
    case Letters(n) => n
    case Share(p) => |target| * p / 100
  }

  lemma {:induction false} ThresholdBounds(p: int, target: string)
    requires 0 <= p <= 100
    ensures 0 <= Threshold(Share(p), target) <= |target|
  {
    var r := Threshold(Share(p), target);
    assert |target| * p <= |target| * 100;
  }

  // ---------------------------------------------------------------------
  // Matching a fragment against one target (atomic_search.py:35-38)
  // ---------------------------------------------------------------------

  /** `target[i:i + len]`, clipped at the end of the target as Python slices are. */
  function Window(t: string, i: nat, len: nat): string
    requires i <= |t|
  {
    t[i..if i + len <= |t| then i + len else |t|]
  }

  /** `any(c in target[i:i + len(c)] for i in range(start, len(target)))` */
  function AnyWindow(c: string, t: string, start: nat): bool
    requires start <= |t|
    decreases |t| - start
  {
    start < |t| && (IsInfix(c, Window(t, start, |c|)) || AnyWindow(c, t, start + 1))
  }

  lemma {:induction false} WindowInfix(c: string, t: string, i: nat)
    requires i <= |t|
    ensures IsInfix(c, Window(t, i, |c|)) <==> OccursAt(c, t, i)
  {
    var w := Window(t, i, |c|);
    if IsInfix(c, w) {
      var k :| 0 <= k <= |w| - |c| && OccursAt(c, w, k);
      assert k == 0 && |w| == |c|;
      assert t[i..i + |c|] == w;
    }
    if OccursAt(c, t, i) {
      assert w == c;
      assert OccursAt(c, w, 0);
    }
  }

  lemma {:induction false} AnyWindowFrom(c: string, t: string, start: nat)
    requires start <= |t|
    ensures AnyWindow(c, t, start) <==> exists k :: start <= k < |t| && OccursAt(c, t, k)
    decreases |t| - start
  {
    if start < |t| {
      WindowInfix(c, t, start);
      AnyWindowFrom(c, t, start + 1);
    }
  }

  /** The offset scan of the source decides exactly "is a contiguous
      substring of the target" for the non-empty fragments it is given. */
  lemma {:induction false} AnyWindowIffInfix(c: string, t: string)
    requires c != []
    ensures AnyWindow(c, t, 0) <==> IsInfix(c, t)
  {
    AnyWindowFrom(c, t, 0);
    if IsInfix(c, t) {
      var k :| 0 <= k <= |t| - |c| && OccursAt(c, t, k);
      assert k < |t|;
    }
  }

  /** Fragment `c` qualifies for `target`: long enough, and found in it. */
  predicate Matches(c: string, target: string, size: AtomSize) {
    |c| >= Threshold(size, target) && AnyWindow(c, target, 0)
  }

  // ---------------------------------------------------------------------
  // Classification (atomic_search.py:32-52)
  // ---------------------------------------------------------------------

  /** `matching_targets`: the targets `c` qualifies for, in target order. */
  function MatchingTargets(c: string, targets: seq<string>, size: AtomSize): (m: seq<string>)
    ensures forall t :: t in m <==> t in targets && Matches(c, t, size)
    ensures Distinct(targets) ==> Distinct(m)
  {
    if targets == [] then []
    else
      var rest := MatchingTargets(c, targets[1..], size);
      assert forall t :: t in rest ==> t in targets[1..];
      if Matches(c, targets[0], size) then [targets[0]] + rest else rest
  }

  /** Where fragment `c` is filed: the one matching target, the ambiguous
      key when two or more match, nothing when none does. */
  function OwnerOf(c: string, targets: seq<string>, size: AtomSize): Option<string> {
    var m := MatchingTargets(c, targets, size);
    if |m| == 1 then Some(m[0])
    else if |m| > 1 then Some(AmbiguousKey)
    else None
  }

  /** `t` is the only target that `c` qualifies for. */
  predicate SoleMatch(c: string, targets: seq<string>, size: AtomSize, t: string) {
    t in targets && Matches(c, t, size) && forall u :: u in targets && u != t ==> !Matches(c, u, size)
  }

  /** `c` qualifies for two different targets. */
  predicate SeveralMatch(c: string, targets: seq<string>, size: AtomSize) {
    exists t, u :: t in targets && u in targets && t != u && Matches(c, t, size) && Matches(c, u, size)
  }

  /** With distinct targets none of which is the ambiguous key, a fragment
      lands in a target's bucket iff that target is its only match, in the
      ambiguous bucket iff it has two or more matches, and nowhere iff it
      has none. */
  lemma {:induction false} OwnerOfClassifies(c: string, targets: seq<string>, size: AtomSize)
    requires Distinct(targets) && AmbiguousKey !in targets
    ensures OwnerOf(c, targets, size) == None <==> forall t :: t in targets ==> !Matches(c, t, size)
    ensures forall t :: t != AmbiguousKey ==> (OwnerOf(c, targets, size) == Some(t) <==> SoleMatch(c, targets, size, t))
    ensures OwnerOf(c, targets, size) == Some(AmbiguousKey) <==> SeveralMatch(c, targets, size)
  {
    var m := MatchingTargets(c, targets, size);
    if |m| > 0 {
      assert m[0] in m;
    }
    if |m| >= 2 {
      assert m[0] in m && m[1] in m && m[0] != m[1];
    }
    if |m| == 1 {
      forall u | u in targets && u != m[0] ensures !Matches(c, u, size) {
        assert u !in m;
      }
    }
    forall t | SoleMatch(c, targets, size, t) ensures |m| == 1 && m[0] == t {
      assert t in m;
      forall i | 0 <= i < |m| ensures m[i] == t {
        assert m[i] in m;
      }
    }
    if SeveralMatch(c, targets, size) {
      var t, u :| t in targets && u in targets && t != u && Matches(c, t, size) && Matches(c, u, size);
      assert t in m && u in m;
    }
  }

  /** The extraction loop over the fragments: each qualifying fragment is
      appended, as an atom, to the end of the pool. */
  function Classify(frags: seq<string>, targets: seq<string>, size: AtomSize): (atoms: seq<Atom>)
    ensures |atoms| <= |frags|
  {
    if frags == [] then []
    else
      var prev := Classify(frags[..|frags| - 1], targets, size);
      var c := frags[|frags| - 1];
      match OwnerOf(c, targets, size)
      case None => prev
      case Some(key) => prev + [Atom(c, key)]
  }

  /** Whether a fragment is stored at all. */
  function HasOwner(targets: seq<string>, size: AtomSize): string -> bool {
    c => OwnerOf(c, targets, size).Some?
  }

  /** Indices of the fragments that `keep` accepts, in order. */
  ghost function KeptBy(frags: seq<string>, keep: string -> bool): seq<nat> {
    if frags == [] then []
    else
      var prev := KeptBy(frags[..|frags| - 1], keep);
      if keep(frags[|frags| - 1]) then prev + [|frags| - 1] else prev
  }

  /** Indices of the fragments that became atoms, in order. */
  ghost function Kept(frags: seq<string>, targets: seq<string>, size: AtomSize): seq<nat> {
    KeptBy(frags, HasOwner(targets, size))
  }

  /** The pool is the qualifying fragments, each once, in their left-to-right
      order, each filed under its owner; every other fragment is dropped. */
  lemma {:induction false} ClassifyKeepsOrder(frags: seq<string>, targets: seq<string>, size: AtomSize)
    ensures var atoms, kept := Classify(frags, targets, size), Kept(frags, targets, size);
      && |kept| == |atoms|
      && (forall i :: 0 <= i < |kept| ==>
            kept[i] < |frags| && atoms[i].value == frags[kept[i]]
            && OwnerOf(frags[kept[i]], targets, size) == Some(atoms[i].owner))
      && (forall i, j :: 0 <= i < j < |kept| ==> kept[i] < kept[j])
      && (forall j :: 0 <= j < |frags| ==> (j in kept <==> OwnerOf(frags[j], targets, size).Some?))
  {
    KeptIndices(frags, targets, size);
    ClassifyFollowsKept(frags, targets, size);
  }

  /** The kept indices ascend and are exactly the fragments that have an owner. */
  lemma {:induction false} KeptIndices(frags: seq<string>, targets: seq<string>, size: AtomSize)
    ensures var kept := Kept(frags, targets, size);
      && (forall i :: 0 <= i < |kept| ==> kept[i] < |frags|)
      && (forall i, j :: 0 <= i < j < |kept| ==> kept[i] < kept[j])
      && (forall j :: 0 <= j < |frags| ==> (j in kept <==> OwnerOf(frags[j], targets, size).Some?))
  {
    var keep := HasOwner(targets, size);
    KeptByIndices(frags, keep);
    forall j | 0 <= j < |frags| ensures keep(frags[j]) == OwnerOf(frags[j], targets, size).Some? { }
  }

  lemma {:induction false} KeptByIndices(frags: seq<string>, keep: string -> bool)
    ensures var kept := KeptBy(frags, keep);
      && (forall i :: 0 <= i < |kept| ==> kept[i] < |frags|)
      && (forall i, j :: 0 <= i < j < |kept| ==> kept[i] < kept[j])
      && (forall j :: 0 <= j < |frags| ==> (j in kept <==> keep(frags[j])))
  {
    if frags != [] {
      var n := |frags| - 1;
      var init := frags[..n];
      KeptByIndices(init, keep);
      var pk, kept := KeptBy(init, keep), KeptBy(frags, keep);
      forall j | 0 <= j < n ensures init[j] == frags[j] { }
      if keep(frags[n]) {
        assert kept == pk + [n];
        forall j | 0 <= j < |frags| ensures j in kept <==> keep(frags[j]) {
          if j < n {
            assert j in kept <==> j in pk;
          }
        }
      } else {
        assert kept == pk;
        assert n !in pk;
      }
    }
  }

  /** The `i`-th atom is the `i`-th kept fragment, under its owner. */
  lemma {:induction false} ClassifyFollowsKept(frags: seq<string>, targets: seq<string>, size: AtomSize)
    ensures var atoms, kept := Classify(frags, targets, size), Kept(frags, targets, size);
      && |kept| == |atoms|
      && (forall i :: 0 <= i < |kept| ==>
            kept[i] < |frags| && atoms[i].value == frags[kept[i]]
            && OwnerOf(frags[kept[i]], targets, size) == Some(atoms[i].owner))
  {
    if frags != [] {
      var n := |frags| - 1;
      var init, c := frags[..n], frags[n];
      ClassifyFollowsKept(init, targets, size);
      var pa, pk := Classify(init, targets, size), Kept(init, targets, size);
      var atoms, kept := Classify(frags, targets, size), Kept(frags, targets, size);
      match OwnerOf(c, targets, size)
      case None =>
        assert atoms == pa && kept == pk;
        forall i | 0 <= i < |kept| ensures frags[kept[i]] == init[kept[i]] { }
      case Some(key) =>
        assert atoms == pa + [Atom(c, key)] && kept == pk + [n];
        forall i | 0 <= i < |kept|
          ensures kept[i] < |frags| && atoms[i].value == frags[kept[i]]
          ensures OwnerOf(frags[kept[i]], targets, size) == Some(atoms[i].owner)
        {
          if i < |pk| {
            assert kept[i] == pk[i] && atoms[i] == pa[i];
            assert frags[pk[i]] == init[pk[i]];
          }
        }
    }
  }

  /** `extract_atoms`. With no target words the threshold comprehension is
      empty, so `min_atom_size` is never parsed and every fragment is
      dropped; otherwise a malformed size raises before any fragment is
      looked at. */
  function ExtractAtoms(targets: seq<string>, search: string, size: AtomSizeArg): (r: Result<seq<Atom>, Error>)
    ensures r.Failure? <==> targets != [] && ParseAtomSize(size).Failure?
    ensures r.Success? ==> |r.value| <= |Fragments(search)|
  {
    if targets == [] then Success([])
    else
      match ParseAtomSize(size)
      case Failure(e) => Failure(e)
      case Success(sz) => Success(Classify(Fragments(search), targets, sz))
  }

  /** Every stored atom is a non-empty maximal letter run of the search text
      and is a substring of, and long enough for, some target it
      qualifies for; an atom filed under a target is a substring of, and
      long enough for, that target. */
  lemma {:induction false} ExtractedAtomsWellFormed(targets: seq<string>, search: string, size: AtomSizeArg)
    requires ExtractAtoms(targets, search, size).Success?
    ensures var atoms := ExtractAtoms(targets, search, size).value;
      forall i :: 0 <= i < |atoms| ==>
        && atoms[i].value != [] && AllLetters(atoms[i].value)
        && atoms[i].value in Fragments(search)
        && (atoms[i].owner != AmbiguousKey ==> atoms[i].owner in targets && IsInfix(atoms[i].value, atoms[i].owner))
    ensures targets != [] ==> (
      && ParseAtomSize(size).Success?
      && var sz, atoms := ParseAtomSize(size).value, ExtractAtoms(targets, search, size).value;
         forall i :: 0 <= i < |atoms| ==>
           && (atoms[i].owner != AmbiguousKey ==> |atoms[i].value| >= Threshold(sz, atoms[i].owner))
           && exists t :: t in targets && IsInfix(atoms[i].value, t) && |atoms[i].value| >= Threshold(sz, t))
  {
    if targets != [] {
      var sz := ParseAtomSize(size).value;
      var frags := Fragments(search);
      ClassifyKeepsOrder(frags, targets, sz);
      var atoms, kept := Classify(frags, targets, sz), Kept(frags, targets, sz);
      forall i | 0 <= i < |atoms|
        ensures atoms[i].owner != AmbiguousKey ==>
                  atoms[i].owner in targets && IsInfix(atoms[i].value, atoms[i].owner)
                  && |atoms[i].value| >= Threshold(sz, atoms[i].owner)
        ensures exists t :: t in targets && IsInfix(atoms[i].value, t) && |atoms[i].value| >= Threshold(sz, t)
      {
        var c := frags[kept[i]];
        var m := MatchingTargets(c, targets, sz);
        assert m[0] in m;
        AnyWindowIffInfix(c, m[0]);
      }
    }
  }

  /** `atoms[key]`: ids filed under `key`, in extraction order. */
  function Bucket(atoms: seq<Atom>, key: string): (ids: seq<nat>)
    ensures forall i :: 0 <= i < |ids| ==> ids[i] < |atoms| && atoms[ids[i]].owner == key
  {
    if atoms == [] then []
    else
      var n := |atoms| - 1;
      var prev := Bucket(atoms[..n], key);
      prev + if atoms[n].owner == key then [n] else []
  }

  /** A bucket lists every atom filed under its key, each once, in
      extraction order. */
  lemma {:induction false} BucketComplete(atoms: seq<Atom>, key: string)
    ensures var ids := Bucket(atoms, key);
      && (forall i, j :: 0 <= i < j < |ids| ==> ids[i] < ids[j])
      && (forall id :: 0 <= id < |atoms| ==> (id in ids <==> atoms[id].owner == key))
  {
    if atoms != [] {
      var n := |atoms| - 1;
      BucketComplete(atoms[..n], key);
    }
  }
}
