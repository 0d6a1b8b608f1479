# atomic_search: a verified model of the matching engine

`atomic_search` looks for target words that have been chopped up and hidden in
noisy text. Matching happens in three stages:

1. **Atom extraction** (`extract_atoms`). The search text is cut into maximal
   runs of ASCII letters, called *fragments*. A fragment that is long enough
   for a target and is a contiguous substring of it qualifies for that target.
   - A fragment that qualifies for exactly one target is filed under that
     target.
   - One that qualifies for two or more targets is filed under the key
     `"ambiguous_word"`.
   - Any other fragment is dropped.
2. **Molecule assembly** (`form_molecules`). For one target, the *candidates*
   are the target's own bucket followed by the ambiguous bucket.
   - Every candidate whose value begins the target is tried as a starting
     atom.
   - From a start, the first candidate that is unused, not already claimed in
     this attempt, and spells the next part of the target is appended. This
     repeats until the target is spelled out or nothing fits.
   - The resulting *molecule* is then scored. When it is accepted, it is
     counted and every atom it claimed is marked `used`.
3. **Orchestration** (`atomic_search`). The pool is extracted once. Assembly
   then runs for each target, in list order, over that single mutated pool.

## How the model is built

- **The pool is an arena.** `Extraction.Atom(value, owner)` is a value. An
  atom's id is its index in the extracted sequence, which is the extraction
  order. A bucket is the ascending list of ids with a given owner. Because ids
  are shared, an ambiguous atom used by one target is seen as used by every
  other target, as in the source.
- **The used flags are state.** They live in the array field of the class
  `Assembly.Pool`. The imperative methods (`FormMolecules`, `TryStart`,
  `ExtendMolecule`, `NextCandidate`, `Claim`, `Search.AtomicSearch`) update
  the flags in place. Each method is proved against a pure specification
  function (`Assemble`, `Step`, `Extend`, `FirstFit`, `MarkUsed`,
  `SearchFrom`), and the properties are proved about those functions.
- **The two assemblers differ only in the claim check.** It is a parameter,
  `Assembly.ClaimRule`:
  - `ById` is the id test at atomic_search/form_molecules.py:42.
  - `ByValue` is the dict equality on `(value, used)` at atomic_search.py:99.
    Under `ByValue`, a different unused atom with the same value also counts
    as claimed.
- **Extraction is pure.** `Extraction.ExtractAtoms` is a function. Its
  fragmenting is proved equal to a reference meaning, "maximal letter runs
  separated by letter-free gaps". Its classification is proved
  against "exactly one match / two or more / none".
- **The similarity score is the Ratcliff/Obershelp match count of `difflib`.**
  `Gestalt.MatchCount` uses the same tie-break rule for the longest block. The
  ratio test is compared exactly in integers.
- **Assembly only ever builds prefixes of the target.** Every molecule is
  `target[:p]`. As a result, the overflow check never fires, and acceptance
  takes the closed form below (`Assembly.StepAccepts`), with `n` the target's
  length:
  - percent mode accepts iff `200·p ≥ threshold·(p + n)`;
  - tolerance mode accepts iff `p ≥ n − missing`.
- **Errors are values.** The two `ValueError` sources are
  `Base.Error.InvalidLiteral` (`int()` rejecting a literal) and
  `InvalidSimilarity` (a similarity string of neither form).

### Behaviours of the code that the model keeps

- **A starting atom is not checked for being used.** The outer loop only
  checks that it begins the target (atomic_search/form_molecules.py:19-25).
- **An exhausted pool still counts.** On a pool whose candidates are all
  used, a one-atom start that spells enough of the target is counted again,
  because of the missing check above. `Vectors.ExhaustedRecount` shows a
  second call returning 1. What does hold on such a pool is that no flag
  changes (`Assembly.ExhaustedPoolUnchanged`).
- **The configuration is parsed where it is used.**
  - `min_atom_size` is parsed inside extraction, when the thresholds are
    built for the target words (atomic_search.py:18-22), so only when there
    are target words.
  - The similarity string is parsed at the start of each assembler call
    (atomic_search/form_molecules.py:7-15), after extraction, and before any
    flag is written.
  - With no target words the result is `{}` whatever the configuration
    (`Search.AtomicSearchErrors`).

### The repository's tests

The test fixtures for the pool, the minimum size and the similarity are not
part of this model. The pool used here is written out in `Fixture.TestAtom`.
`FixtureText.ExtractTestPool` proves that it is exactly what `extract_atoms`
files, with `min_atom_size` 1, from `FixtureText.TestText`. That text is
written as the letter runs and gaps of the search string at
tests/test_extract_atoms.py:7; that it equals that literal is not proved
(see "Left out"). The similarity used is `"100%"`, which reproduces the
expected count of 2 for `"mencarik"` (`Fixture.MencarikCount`).

## Model

| member | source | states |
|---|---|---|
| Base.ParseInt | atomic_search/form_molecules.py:8 | `int()` on a string succeeds exactly on one or more ASCII digits with an optional leading `+` or `-`, and fails on anything else; the sign of the value follows a leading `-` |
| Base.ParseShowInt | atomic_search/form_molecules.py:8 | rendering an integer in decimal and parsing it back gives the integer |
| Extraction.Fragments | atomic_search.py:25-30 | every fragment is a non-empty run of ASCII letters |
| Extraction.FragmentsSplit | atomic_search.py:25-30 | the fragments put back between the separators rebuild the text; separators contain no letter, and consecutive fragments are apart, so the fragments are exactly the maximal letter runs in order |
| Extraction.SplitDeterminesFragments | atomic_search.py:25-30 | any split of a text into non-empty letter runs, apart and joined by letter-free gaps, is the one `re.split` gives: the runs are the fragments and the gaps the separators |
| Extraction.ParseAtomSize | atomic_search.py:19-22 | an int is a letter count; a string ending in `%` is a percentage whose value is `int()` of the rest; any other string is a letter count whose value is `int()` of the whole; parsing fails exactly when that `int()` fails, with the literal it was given |
| Extraction.ParseSizePercent | atomic_search.py:19-20 | `"N%"` parses back to a share of N percent, for every integer N |
| Extraction.ParseSizeCount | atomic_search.py:21-22 | `str(N)` parses back to a count of N letters, for every integer N |
| Extraction.Threshold | atomic_search.py:20-22 | a letter count is used as is; a percentage gives `floor(len(target)·N/100)` |
| Extraction.ThresholdBounds | atomic_search.py:20 | for `0 ≤ N ≤ 100` the percentage threshold lies between 0 and the target's length |
| Extraction.AnyWindowIffInfix | atomic_search.py:37 | the offset scan over clipped windows holds exactly when the fragment is a contiguous substring of the target |
| Extraction.MatchingTargets | atomic_search.py:33-38 | the matching targets are exactly the targets the fragment qualifies for, and are distinct when the targets are |
| Extraction.OwnerOfClassifies | atomic_search.py:47-50 | with distinct targets, none of them the ambiguous key: a fragment is dropped iff no target matches, goes to target `t` iff `t` is its only match, and is ambiguous iff two different targets match |
| Extraction.Classify | atomic_search.py:28-50 | the pool has at most one atom per fragment |
| Extraction.ClassifyKeepsOrder | atomic_search.py:28-50 | the pool is the fragments that have an owner, each once and in left-to-right order, each filed under its owner |
| Extraction.ExtractAtoms | atomic_search.py:6-52 | extraction fails iff there are targets and `min_atom_size` does not parse; the pool has at most one atom per fragment |
| Extraction.ExtractedAtomsWellFormed | atomic_search.py:25-50 | every stored atom is a non-empty letter run of the text that is a substring of, and at least as long as the threshold of, some target; an atom filed under a target is a substring of that target and meets its threshold |
| Extraction.Bucket | atomic_search.py:48-50 | a bucket holds ids of atoms filed under its key |
| Extraction.BucketComplete | atomic_search.py:48-50 | a bucket is strictly ascending (extraction order) and holds exactly the atoms filed under its key |
| Similarity.ParseSimilarity | atomic_search/form_molecules.py:7-15 | the `%` suffix is tested before the `-` prefix, and a string with neither raises `InvalidSimilarity`; with the suffix it succeeds iff `int()` accepts the rest, carrying that value as the threshold, and otherwise fails with `InvalidLiteral` of the rest; with only the prefix it succeeds iff `int()` accepts the whole string, carrying `abs` of that value as the tolerance, and otherwise fails with `InvalidLiteral` of the string |
| Similarity.ParseNonCanonical | atomic_search/form_molecules.py:7-13 | `"+5%"`, `"007%"` and `"-05"` carry 5, 7 and 5 as `int()` gives them; `"abc%"` and `"-7x"` fail with the literal `int()` rejects |
| Similarity.ParsePercent | atomic_search/form_molecules.py:7-9 | `"N%"` parses to percent mode with threshold `N` |
| Similarity.ParseTolerance | atomic_search/form_molecules.py:10-13 | `"-k"` parses to tolerance mode with `k` missing characters allowed |
| Gestalt.RunLength | atomic_search/form_molecules.py:64 | the common run from a pair of offsets is a match that cannot be extended |
| Gestalt.LongestMatch | atomic_search/form_molecules.py:64 | the block `find_longest_match` picks: a match no shorter than any other, and the earliest among the longest |
| Gestalt.MatchCount | atomic_search/form_molecules.py:64 | the total matched length is at most the length of either string |
| Gestalt.PrefixMatchCount | atomic_search/form_molecules.py:64 | a prefix of length `p` of the target matches the target in exactly `p` characters |
| Similarity.AcceptsPrefix | atomic_search/form_molecules.py:63-79 | for a molecule `target[:p]`, percent acceptance is `200p ≥ threshold·(p + n)` and tolerance acceptance is `p ≥ n − missing` |
| Similarity.FullThresholdNeedsWholeTarget | atomic_search/form_molecules.py:64-67 | under `"100%"` a molecule `target[:p]` is accepted iff it is the whole target |
| Assembly.CandidateOwner | atomic_search/form_molecules.py:17 | every candidate is filed under the target or under the ambiguous key |
| Assembly.FirstFit | atomic_search/form_molecules.py:38-44 | a found position holds a candidate that is unclaimed, unused and a prefix of the remaining target |
| Assembly.FirstFitIsFirst | atomic_search/form_molecules.py:38-44 | no earlier candidate fits, and nothing is found iff no candidate fits |
| Assembly.Extend | atomic_search/form_molecules.py:34-53 | the extension loop stays within the target |
| Assembly.ExtendNext | atomic_search/form_molecules.py:38-53 | a turn with a fitting candidate appends it and advances by its length |
| Assembly.ExtendStops | atomic_search/form_molecules.py:34-49 | the loop stops at the end of the target or when nothing fits |
| Assembly.ExtendSpellsPrefix | atomic_search/form_molecules.py:34-53 | throughout the loop the molecule is `target[:target_index]` |
| Assembly.ExtendClaimsUnused | atomic_search/form_molecules.py:38-52 | the loop only appends, and every appended atom is an unused candidate |
| Assembly.AttemptSpellsPrefix | atomic_search/form_molecules.py:58-61 | a molecule is `target[:p]` with `0 < p ≤ len(target)`, starting with its starting atom, so the overflow rejection never fires |
| Assembly.MarkUsed | atomic_search/form_molecules.py:69-70 | after marking, a flag is set iff it was set before or its atom was claimed |
| Assembly.StepAccepts | atomic_search/form_molecules.py:46-79 | one start counts and claims its atoms iff its possibly partial prefix passes the closed-form test, and otherwise changes nothing |
| Assembly.StepFrame | atomic_search/form_molecules.py:19-79 | one start adds at most 1, and only when it begins the target; flags are only set, only on candidates; a start that counts nothing changes nothing |
| Assembly.MarkUsedFrame | atomic_search/form_molecules.py:69-70 | marking claimed candidates never clears a flag and touches only candidates |
| Assembly.AssembleFromFrame | atomic_search/form_molecules.py:19-84 | from any start position the count grows by at most the number of remaining starts that begin the target, flags only turn on, and only candidates change |
| Assembly.AssembleFrame | atomic_search/form_molecules.py:17-84 | the count is at most the number of candidates that begin the target; flags are never reset; only atoms of the target's or the ambiguous bucket change |
| Assembly.ExhaustedPoolUnchanged | atomic_search/form_molecules.py:19-53 | on a pool whose candidates are all used, no flag changes |
| Assembly.MarkUsedNoChange | atomic_search/form_molecules.py:69-70 | marking atoms that are all already used changes nothing |
| Assembly.FormMoleculesSpec | atomic_search/form_molecules.py:7-15 | a call fails iff the similarity does not parse, with that error |
| Assembly.Pool.constructor | atomic_search.py:41-44 | a freshly extracted pool has every atom unused |
| Assembly.NextCandidate | atomic_search/form_molecules.py:36-44 | the imperative scan returns the first fitting position, as `FirstFit` does |
| Assembly.ExtendMolecule | atomic_search/form_molecules.py:27-53 | the imperative loop reaches the claimed atoms and position of `Extend` and builds their molecule, without writing a flag |
| Assembly.Claim | atomic_search/form_molecules.py:69-70 | the flags become `MarkUsed` of the old flags and the claimed atoms |
| Assembly.TryStart | atomic_search/form_molecules.py:19-79 | one turn of the outer loop leaves the count and flags that `Step` specifies |
| Assembly.FormMolecules | atomic_search/form_molecules.py:3-84 | a malformed similarity raises with no flag written; otherwise the count and the new flags are those of `Assemble` |
| Search.SearchFrom | atomic_search/atomic_search.py:8-13 | the target loop fails iff a target remains and the similarity does not parse, and keeps the pool's size |
| Search.FreshFlags | atomic_search.py:43 | every atom of a fresh pool is unused |
| Search.AtomicSearch | atomic_search/atomic_search.py:4-18 | the imperative orchestrator returns what `AtomicSearchSpec` specifies: extract once, then one assembler call per target over one pool |
| Search.AtomicSearchErrors | atomic_search/atomic_search.py:5-12 | no targets gives `{}`; otherwise a bad `min_atom_size` raises first, then a bad similarity |
| Search.SearchRecordsCalls | atomic_search/atomic_search.py:7-13 | the result keys are exactly the targets, each mapped to its call's count with the later call winning for a repeated word, and the pool ends as the calls in list order leave it |
| Search.RecordedStep | atomic_search/atomic_search.py:13 | storing one more call's count keeps the results recorded |
| Search.FlagsNeverReset | atomic_search/atomic_search.py:5-12 | a flag set by an earlier call is still set for every later call |
| Vectors.TwinAttemptById | atomic_search/form_molecules.py:42 | two distinct atoms `a` both join one molecule under the id test |
| Vectors.TwinAttemptByValue | atomic_search.py:99 | under dict equality the second `a` counts as already claimed |
| Vectors.ClaimRulesDiffer | atomic_search.py:99 | on the pool `[a, a]` the target `aa` is found once under the id test and never under dict equality |
| Vectors.ExhaustedRecount | atomic_search/form_molecules.py:19-25 | the target `ab` on the pool `[ab]` counts 1 again when its atom is already used |
| Vectors.TargetOrderMatters | atomic_search/atomic_search.py:8-12 | with one ambiguous atom `a` shared by `ba` and `ca`, whichever target comes first gets the molecule |
| Fixture.TestCandidates | atomic_search/form_molecules.py:17 | on the test pool the candidates of `mencarik` are its nine atoms followed by the four ambiguous ones |
| FixtureText.TextFragments | tests/test_extract_atoms.py:7 | splitting the test's search text on non-letters, empty pieces dropped, gives its 24 letter runs in order |
| FixtureText.SoleMencarik | atomic_search.py:35-50 | with targets `mencarik`, `test`, `apa` and size 1, a fragment that is a substring of `mencarik` and whose first letter is in neither other target is filed under `mencarik` |
| FixtureText.SoleTest | atomic_search.py:35-50 | likewise, such a fragment of `test` is filed under `test` |
| FixtureText.NoTarget | atomic_search.py:35-50 | a fragment that is a substring of none of the three targets is dropped |
| FixtureText.OwnerA | atomic_search.py:35-50 | with targets `mencarik`, `test`, `apa` and size 1, `a` matches both `mencarik` and `apa` and is filed as ambiguous |
| FixtureText.OwnerMend | atomic_search.py:35-50 | `mend` is a substring of no target and is dropped |
| FixtureText.ExtractTestPool | tests/test_extract_atoms.py:6-10 | `extract_atoms(["mencarik", "test", "apa"], text, 1)` on the test's search text returns exactly the 18-atom pool of the assembly run, in order |
| FixtureText.TestBucket | atomic_search.py:47-48 | the `test` bucket of that pool is ids 12 and 14 (`st`, `te`) |
| FixtureText.ApaBucket | atomic_search.py:47-48 | the `apa` bucket of that pool is ids 13, 15 and 17 (the three `pa`) |
| Fixture.FirstAttempt | atomic_search/form_molecules.py:27-53 | on the test pool the first start builds `men + ca + rik` |
| Fixture.SecondAttempt | atomic_search/form_molecules.py:27-53 | the start at the second `m` builds `m + e + nc + ar + i + k`, passing over the used atoms |
| Fixture.MencarikCount | tests/test_form_molecule.py:5-14 | `form_molecule` on the test pool with `mencarik` and `"100%"` returns 2 under either claim rule, leaving both molecules' atoms used |

## Left out

- The `debugging` output. Both assemblers and the orchestrator only print, and this does not affect results.
- Floating point. `ratio() * 100 >= threshold` is compared exactly as `200·M ≥ threshold·(|a| + |b|)`. Rounding at an exact boundary is not modelled.
- The `autojunk` heuristic of `difflib`. It applies only to a second string of 200 or more characters, and targets are taken to be shorter.
- `int()` on strings accepts only an optional sign and ASCII digits. Surrounding whitespace, `_` separators and non-ASCII digits are not modelled. A float `min_atom_size` is not modelled either: `IntArg` holds an integer.
- The key that reading a missing bucket inserts into the `defaultdict`. A missing bucket reads as empty, which is all that matters to the results.
- The modules `.extract_atoms` and `.form_molecule`, imported at atomic_search/atomic_search.py:1-2, are not part of this model. The orchestrator is modelled with the `extract_atoms` and `form_molecules` shown, with ids in extraction order.
- FixtureText.TestText: the search text is written as its letter runs and the gaps between them; the doc comment gives the string they spell, and that this equals the literal at tests/test_extract_atoms.py:7 is not proved, because equality of a long string literal is beyond what the verifier settles at this cost.
- FixtureText.TextFragments: proved for `TestText()`, not for the string literal of the test, for the reason above.
- FixtureText.ExtractTestPool: proved for `TestText()`, not for the string literal of the test, for the reason above.
- Extraction.Classify: its own contract is only a length bound. What it computes is stated by `ClassifyKeepsOrder`.
- Extraction.Bucket: its own contract says only what each id is. Order and completeness are stated by `BucketComplete`.
- Assembly.Extend: its own contract is only the position bound. What the loop builds is stated by `ExtendSpellsPrefix` and `ExtendClaimsUnused`.
- Gestalt.MatchCount: only the bound and the prefix case (`PrefixMatchCount`) are proved. That difflib sums the blocks of its recursive split in exactly this way is taken from its documented algorithm, and is not proved against an independent definition.
- The test suites, CSV handling and metrics, dataset generation, filesystem utilities, `tasks.py`, `setup.py` and the static configuration. They are I/O and tooling around the engine.
