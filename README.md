# nflex composition layer in Dafny

nflex reads configuration through one interface, a Source. A Source can
answer six questions about a path of string keys: whether the path exists,
a scalar at the path (bool, int, string), the node type, the map keys, the
length of a sequence or map, and the sub-view at the path (Recurse). This
project models the layer that composes Sources:

- the **merge engine** (`multisource.go`) layers several children. It
  answers from the first or the last child that has the path (`first`),
  and with `combine` on it also unions the keys and sums the lengths of
  every child. When a path walks into sequences in several children, the
  result is one merged sequence: each later child's sequence is shifted
  by the lengths of the sequences before it.
- the **offset view** (`offset.go`) shifts integer keys by a per-depth
  amount before it asks the source it wraps.
- the **prefix view** (`prefixsource.go`) re-roots a source under a fixed,
  non-empty path.

All views are one closed datatype, `Sources.Source`:

- `Leaf(value)` is a document;
- `Offset(offsets, src)` is the offset view;
- `Prefix(prefix, src)` is the prefix view;
- `Multi(sources, first, combine)` is the merge.

The accessors of all four variants call each other, so they form one
recursive group in module `Sources`. The getters are generalised into
`Get(s, keys, want)`. `GetBool`, `GetInt` and `GetString` project from it.

The YAML and JSON leaves are not part of this model. `Leaves.Value` stands
in for them: a tree of scalars, sequences and ordered maps. A sequence is
addressed by `strconv.Atoi` of the key (module `Decimal` models Atoi and
Itoa exactly, including the int64 range). A map is addressed by field name.
`Keys` on a non-map and `Len` on a scalar fail with `WrongType`. This is an
assumption about the leaves; the composition layer does not depend on it.

The merge has an imperative side too. Class `MultiSources.MultiSource`
holds the child list and both flags as fields, and `AddSource` extends the
list in place. Its `Recurse`, `Find`, `Keys` and `Len` are loops over the
children, each proved equal to the function in `Sources`. The properties
are then proved about those functions, in modules `MultiWalk`,
`OffsetView` and `PrefixView`.

The repository's own tests are restated as lemmas in module `Regression`.
The documents `rdata1.yaml` and `rdata2.yaml` are not available, so they
are rebuilt from what the tests assert: `QQ` is `a, b, c` in one and
`d, e, f` in the other.

Errors are `Base.Result<T>`, either `Ok(value)` or `Err(kind)`, with kinds
`DoesNotExist`, `WrongType` and `BadKey`. A nil Source is `Option`'s `None`.

## Model

| member | source | states |
|---|---|---|
| Sources.WithOffset | offset.go:17-26 | no source gives no view; otherwise an offset view over exactly that source with exactly those shifts |
| Offsets.TransformKeys | offset.go:28-42 | the loop that fills the rewritten path computes Transform |
| Offsets.TransformShape | offset.go:28-42 | a successful rewrite keeps the path length, passes keys at unshifted depths through, and turns a key k at a shifted depth d into the rendering of k - d |
| Offsets.TransformFails | offset.go:35-38 | the rewrite fails exactly when a key at a shifted depth is not an integer, and then with BadKey |
| Offsets.ZeroTransformIsIdentity | offset.go:31-33 | an all-zero shift list rewrites nothing |
| Offsets.TransformSingleShift | offset.go:39 | a one-depth shift d turns the key for i + d into the key for i and leaves the rest of the path alone |
| Offsets.TransformSplit | offset.go:28-42 | rewriting a path in two parts: the first part under the shift list, the second under the rest of the list |
| Offsets.TransformAsWrittenAgrees | offset.go:28-42 | wherever the Go loop does not panic, it computes Transform; it never panics when the path is no longer than the shift list |
| Offsets.TransformAsWrittenPanics | offset.go:30-31 | shift list [3] with path ["4","x"] panics as written; the corrected rewrite gives ["1","x"] |
| OffsetView.RecurseEmptyPath | offset.go:84-98 | an empty-path Recurse returns every view unchanged, except that an empty shift list is dropped |
| OffsetView.OffsetBadKey | offset.go:44-126 | a non-integer key at a shifted depth: Exists is false, the getters, Keys and Len fail with BadKey, Type is Undefined and Recurse is None |
| OffsetView.ZeroOffsetIsTransparent | offset.go:44-126 | no accessor can see an all-zero shift list |
| OffsetView.OffsetShift | offset.go:44-126 | under a one-depth shift d, the key for i + d gives the same answer, for every accessor, as the key for i gives in the wrapped source |
| OffsetView.SameLeafTarget | offset.go:44-126 | two shifted documents whose rewritten paths fail together, or reach the same node, answer every query alike |
| OffsetView.OffsetRecurseThenQuery | offset.go:84-98 | over a document, the view Recurse returns keeps the unused rest of the shift list, so querying it is querying the original view with the joined path |
| OffsetView.OffsetRecurseAsWrittenAgrees | offset.go:84-98 | wherever Go's Recurse does not panic it computes the modelled Recurse; it cannot panic when the path is within the shift list and the result is not nil |
| OffsetView.OffsetRecurseAsWrittenPanics | offset.go:95-96 | shift list [1,0] over a one-element sequence with key "5" panics as written; the modelled Recurse gives None |
| Prefixes.MatchPrefix | prefixsource.go:38-48 | a match always uses up the prefix or the query (or both) |
| Prefixes.MatchPrefixSpec | prefixsource.go:38-48 | a mismatch is reported exactly when the prefix and the query differ at a position both have; otherwise their common leading part is removed from both |
| Prefixes.MatchInsidePrefix | prefixsource.go:38-48 | a query that stops inside the prefix leaves the rest of the prefix |
| Prefixes.MatchThroughPrefix | prefixsource.go:38-48 | a query that starts with the whole prefix leaves the rest of the query |
| PrefixView.NewPrefixSource | prefixsource.go:17-26 | an empty prefix returns the source itself; otherwise a prefix view with that prefix over that source |
| PrefixView.PrefixMutate | prefixsource.go:28-36 | the mutation reaches only the wrapped source; the prefix is kept |
| PrefixView.PrefixMismatch | prefixsource.go:50-162 | a path that leaves the prefix: Exists is false, the getters, Keys and Len fail with DoesNotExist, Type is Undefined and Recurse is None |
| PrefixView.PrefixPartial | prefixsource.go:50-162 | a path that stops inside the prefix is a map whose only key is the next prefix segment; Len and the getters fail with WrongType; Recurse gives the shorter, non-empty prefix view |
| PrefixView.PrefixFull | prefixsource.go:50-162 | a path through the whole prefix is answered by the wrapped source for the rest of the path |
| PrefixView.PrefixRoundTrip | prefixsource.go:17-74 | re-rooting under p and then querying through p answers every query the way the original source does; Recurse along p gives the source back |
| PrefixView.PrefixMutateInsidePrefix | prefixsource.go:28-162 | mutating a prefix view changes nothing a path that stops inside, or leaves, the prefix can see |
| PrefixView.PrefixMutateThen | prefixsource.go:28-36 | mutating twice is mutating once with both mutations in order |
| MultiWalk.ScanForwardSpec | multisource.go:212-218 | the forward scan finds the earliest child that exists, and nothing only when no child exists |
| MultiWalk.ScanBackwardSpec | multisource.go:219-225 | the backward scan finds the latest child that exists, and nothing only when no child exists |
| MultiWalk.FindSpec | multisource.go:201-227 | no survivors give nothing; a single survivor is returned without an existence check; among several, the earliest (first) or latest (not first) existing child, or nothing when none exists |
| MultiWalk.GetMatchesType | multisource.go:234-267 | in every view, a getter succeeds exactly when Type at the path is the kind asked for, and a value of another kind fails with WrongType |
| MultiWalk.NotExistsMeansGetFails | multisource.go:229-267 | in every view, a path that does not exist has Type Undefined, and every getter fails on it with DoesNotExist or BadKey, never WrongType |
| MultiWalk.CountersGrow | multisource.go:167-180 | the walk's per-depth counters only grow, and depths already passed stay as they are |
| MultiWalk.WalkKeepsAtMost | multisource.go:159-198 | the walk never keeps more children than it started with |
| MultiWalk.RecurseDropsMissing | multisource.go:159-198 | when no child has the first key, Recurse is None, Exists is false, Get fails with DoesNotExist and Type is Undefined |
| MultiWalk.WalkOneKey | multisource.go:159-198 | recursing a merge one key, for any children: a child that misses the key is dropped, a child holding a sequence there is shifted by the summed lengths of the sequences earlier children hold there (the first not at all), any other child is kept unwrapped and adds nothing; no survivor gives None |
| MultiWalk.StitchRecurse | multisource.go:165-180 | walking a key through documents that each hold a sequence there gives a merge whose j-th child is the j-th sequence shifted by the summed lengths of the sequences before it; the first is not wrapped |
| MultiWalk.StitchedReads | multisource.go:159-198 | the stitched merge reads as one sequence: its length is the summed length, index i reaches element i of the concatenation through Get and through Recurse, and nothing exists past the end |
| MultiWalk.KeysCombined | multisource.go:269-309 | combined Keys: DoesNotExist when no child exists, an error only from an existing child, success when every existing child answers, and then the existing children's keys in the order first seen going through the children in order, none listed twice |
| MultiWalk.KeysCombinedMember | multisource.go:279-307 | combined Keys lists a key exactly when some existing child lists it |
| MultiWalk.LenCombined | multisource.go:311-338 | combined Len: DoesNotExist when no child exists, an error only from an existing child, and otherwise the sum of the lengths of exactly the children that exist at the path |
| MultiWalk.LenCombinedAppend | multisource.go:311-338 | the combined lengths of two merges put one after the other add up |
| MultiWalk.LenAddSource | multisource.go:146-148 | one more child adds its own length to a combined length when it exists at the path, and nothing when it does not |
| MultiSources.NewMultiSource | multisource.go:35-57 | the three cases of construction: empty, continuing an existing merge, or a fresh merge with both flags on |
| MultiSources.NewMultiSourceRegroups | multisource.go:43-47 | building from a merge and more sources is building from all of them at once |
| MultiSources.PresentSpec | multisource.go:128-133 | the nil filter keeps exactly the sources that are there, in order, and distributes over concatenation |
| MultiSources.FilterPresent | multisource.go:128-133 | the filtering loop computes Present |
| MultiSources.CombineSources | multisource.go:127-142 | nil exactly when every argument is nil; a lone source is returned as is; two or more become a merge of them |
| MultiSources.SetFirstOn | multisource.go:79-91 | sets first on a merge and keeps the children and combine; anything else, or a merge already so set, is returned unchanged |
| MultiSources.SetCombineOn | multisource.go:110-122 | sets combine on a merge and keeps the children and first; anything else, or a merge already so set, is returned unchanged |
| MultiSources.SetFirst | multisource.go:79-91 | the setter as a mutation is SetFirstOn on every view |
| MultiSources.SetCombine | multisource.go:110-122 | the setter as a mutation is SetCombineOn on every view |
| MultiSources.SettersAlgebra | multisource.go:79-122 | setting a flag twice is setting it once; the two setters commute; a merge set to the flags it has is unchanged |
| MultiSources.FirstIrrelevantWhenCombining | multisource.go:269-338 | with combine on and other than one child, first changes neither Keys nor Len |
| MultiSources.MutateMulti | multisource.go:59-72 | the mutation is applied to every child, with the flags and the child count kept |
| MultiSources.MutateMultiThen | multisource.go:59-72 | mutating twice is mutating once with both mutations in order |
| MultiSources.WalkOne | multisource.go:167-180 | one child's walk along the path, updating the shared counter array in place, computes WalkChild |
| MultiSources.WalkAll | multisource.go:159-198 | the loop over the children with shared counters keeps exactly the survivors WalkChildren names |
| MultiSources.GatherKeys | multisource.go:279-296 | the collecting loop fails exactly when CollectKeys does, with the same error; otherwise it counts the answering children and holds their keys in child order |
| MultiSources.UnionOf | multisource.go:297-307 | the seen-set loop keeps each key the first time it is seen, in order |
| MultiSources.MultiSource.constructor | multisource.go:35-57 | the new object is NewMultiSource of the arguments |
| MultiSources.MultiSource.Copy | multisource.go:17-29 | a fresh object that is the same merge |
| MultiSources.MultiSource.FromExisting | multisource.go:43-47 | a fresh object: a copy of the existing merge with the rest appended; the original is not modified |
| MultiSources.MultiSource.AddSource | multisource.go:146-148 | the child list gets one more child at the end; both flags are kept |
| MultiSources.MultiSource.Mutate | multisource.go:59-72 | a fresh object that is MutateMulti of this merge |
| MultiSources.MultiSource.Recurse | multisource.go:150-198 | the walk computes Sources.Recurse of this merge |
| MultiSources.MultiSource.Find | multisource.go:201-227 | the loop computes Sources.Find over the children |
| MultiSources.MultiSource.Exists | multisource.go:229-232 | the result is Sources.Exists of this merge |
| MultiSources.MultiSource.Keys | multisource.go:269-309 | the dispatch and both loops compute Sources.Keys of this merge |
| MultiSources.MultiSource.Len | multisource.go:311-338 | the dispatch and the summing loop compute Sources.Len of this merge |
| KeyUnion.DedupSpec | multisource.go:297-307 | de-duplication keeps exactly the input's elements, each once, ordered by where they first occur |
| KeyUnion.UnionSpec | multisource.go:279-307 | the union holds each key of each list, exactly once |
| Decimal.AtoiRejectsNonDigit | offset.go:35-38 | a key with a character other than a leading sign or a digit is not an integer, so under a nonzero shift the rewrite fails |
| Decimal.AtoiItoa | offset.go:35-39 | parsing the rendering of any 64-bit integer gives that integer back |
| Leaves.ChildAtIndex | offset_test.go:10-18 | index i of a sequence is reached through the rendering of i |
| Mutations.Then | regression_test.go:24-26 | composing two mutations applies the left one first; this is the assumed meaning of Combine, whose definition is not part of this model |
| Regression.Regression01Docs | regression_test.go:14-20 | each document's QQ is a sequence of length 3, asked directly or after recursing into it |
| Regression.Regression01Combine | regression_test.go:17-22 | combining with nil gives the document itself; two documents give a merge of both with both flags on |
| Regression.Regression01Stitch | regression_test.go:23-26 | recursing into QQ stitches the two sequences, the second shifted by 3; setting first and combine to true changes nothing |
| Regression.Regression01Reads | regression_test.go:27-40 | the merged QQ has length 6, and index i reads the i-th of a..f, both through GetString and through Recurse |
| Regression.Regression02 | regression_test.go:43-49 | a merge of one document, recursed into a field it lacks, is nil |
| Regression.OffsetTest | offset_test.go:10-18 | QQ reads a at index 0; shifted by 2 it reads b at index 3 |
| Regression.CombinedAsksUnshifted | multisource.go:279-338 | combined Len and Keys ask each child with the path as given: on the two documents, QQ index 3 exists and reads d, yet Len and Keys there are DoesNotExist |
| Regression.MapChildBetween | multisource.go:166-183 | a child holding a map between two sequence children is kept unwrapped and leaves the counter alone, so the third child is still shifted by 3 |
| Regression.KeysUnionOrder | multisource.go:297-307 | combined Keys of the maps a b and b c is a b c |
| Regression.SingleChildIsNotChecked | multisource.go:206-211 | find returns a lone survivor without checking it, so a merge holding one empty merge says the empty path exists while its type is Undefined |

## Left out

- GetFloat (multisource.go:248-253 and the same getter on the other views): floating point is not modelled. The other getters show the same dispatch.
- The debug and trace helpers (debug.go, release.go: debugID, pathToHere, callers, id, debugCombine) only log, so they are left out. Their one effect on behaviour, the type assertion at offset.go:96, is in Findings.
- The YAML and JSON leaves, UnmarshalFile and the rdata test documents are not part of this model. `Leaves.Value` stands in for them.
- The Mutation interface with Apply, Combine and CanMutate is not part of this model. A mutation is a total function on views, and `Mutations.Then` composes two by applying the left one first.
- Error message texts and wrapping are dropped; only the kind of error is kept. The Go zero value returned beside an error is dropped too.
- Integer width: `k - offset` is computed in unbounded integers, so int64 wrap-around in that subtraction is not modelled. Atoi's int64 range check is modelled.
- Aliasing and concurrency: AddSource mutates a shared object in Go. The model proves the in-place update on the object but does not model other holders of the same pointer or concurrent callers.
- MultiSource.Copy copies the child slice. The model's child list is a value, so it cannot share storage with the original.
- The `total` capacity hint in multisource.go's Keys loop only sizes an allocation, so it is not modelled.
- The typed-nil care at multisource.go:150-157 is `Option`'s `None`.
- Both panic hazards are modelled as corrected code rather than excluded by preconditions. The offset view that triggers the first one is built by the merge engine itself (multisource.go:175-177) and reached by combined Keys and Len with a two-key path. A precondition therefore could not be discharged at the call sites the engine creates. The code as written is modelled beside the correction (see Findings).
- Offsets.OffsetAt: a depth beyond the shift list has no shift. This follows the intended semantics stated for the offset view, not the Go loop, which panics there (Findings, row 1).
- The interface's stated rule that an empty-path Recurse returns the view unchanged does not hold for an offset view with an empty shift list. offset.go:91-93 then returns the wrapped source's Recurse. The model follows the code (OffsetView.RecurseEmptyPath).
- OffsetView.OffsetRecurseThenQuery: proved for an offset view directly over a document only. Over a merge the law does not hold, because combined Keys and Len ask each child with the unshifted path (Regression.CombinedAsksUnshifted).
- MultiWalk.StitchRecurse: states the stitching for documents that hold sequences at a one-key path. MultiWalk.WalkOneKey states the one-key walk for any children. For longer paths only the counter rules (MultiWalk.CountersGrow) and the bound on survivors (MultiWalk.WalkKeepsAtMost) are stated, not the survivors themselves.
- MultiSources.NewMultiSource: its ensures list the three construction cases, which mirrors the body. What the construction means is stated by NewMultiSourceRegroups, CombineSources and the class constructor.

## Findings

| source | as written | input that shows it | evidently intended | confidence | as-written member | corrected member |
|---|---|---|---|---|---|---|
| offset.go:30-31 | `transform` reads `offsets[i]` for every key, so a path longer than the shift list indexes past its end | shift list `[3]` (the stitched view the merge engine builds from a 3-element first sequence), path `["4", "x"]` as reached by combined Keys or Len | depths beyond the shift list pass through unshifted | not executed | Offsets.TransformAsWrittenPanics | Offsets.TransformShape |
| offset.go:95-96 | the argument `n.(offset)` of the debug call is evaluated in every build (release.go:9 makes `debug` an empty function, not a macro), and it panics when the wrapped source's Recurse is nil while shifts remain | shift list `[1, 0]` over a one-element sequence, path `["5"]` | Recurse reports nil | not executed | OffsetView.OffsetRecurseAsWrittenPanics | Sources.WithOffset |
