# Figma JSON compressor, modelled in Dafny

`compress-figma-json.py` shrinks the JSON export of a web page before it is sent to a Figma
plugin. It can do three things to the loaded document:

- prune embedded assets: base64 images and SVG sources over a kilobyte limit;
- cut the design-token groups to a few entries: colours by descending `usage`, then
  typography and spacing;
- simplify the element tree: strip metadata keys from every node and empty `children` below
  a depth limit.

`compress_standard` and `compress_aggressive` combine these stages with different limits. The
aggressive tier also deletes `screenshot`, `cssVariables`, `variants` and `extractionSummary`,
and blanks `components`. `main` chooses the tier from the document's size in megabytes and
runs the aggressive tier a second time when the result is still over the target.

The model has six modules:

- `Json` (json.dfy): JSON values as `json.load` builds them. A dict is a sequence of key/value
  pairs in insertion order. The module gives the parts of Python's `dict`, `str` and `list`
  that the script uses: `in`, `get`, `del`, assignment and `len`. An exception that escapes is
  the value `Raised` of `Outcome`.
- `Assets` (assets.dfy): `compress_images` and `compress_svgs`. A pure reading (`Prune`) and
  the two loops of the source as methods proved equal to it.
- `Tokens` (tokens.dfy): `compress_design_tokens`. The usage sort is a stable descending
  insertion sort. When the sort key cannot be computed, the `try`/`except` falls back to the
  original order. A method works group by group.
- `Tree` (tree.dfy): `simplify_tree`. A recursive function, and a method pair that deletes the
  keys and updates the children list where it stands.
- `Tiers` (tiers.dfy): `compress_standard` and `compress_aggressive`, as functions on values and
  as methods of a `Payload` class that update the loaded document in place.
- `Policy` (policy.dfy): the tier selection of `main` (lines 192-213). The size of a document
  is a byte count supplied by the caller.

Three behaviours of the code are worth knowing:

- A group or collection of the wrong shape raises, unless a guard skips it first.
  - Lines 22 and 44 skip a falsy `images` or `svgs` (`null`, `[]`, `0`, `""`) and return 0. A
    truthy one that is not a dict raises at `.items()`.
  - The `in` tests at lines 73, 83 and 88 let through any group that is not a dict, falsy or
    not, and its `.items()` raises. `{"colors": null}` raises at line 74, for example.
  - Line 65 skips a falsy `tokens`. A truthy `tokens` that is not a dict raises elsewhere:
    at an `in` test when it is a number or `true`, at `tokens[...]` when it is a string or list that
    contains the key, and at line 92's `tokens.get` otherwise.
- A colour that is not a dict stops the sort. The `.get('usage', 0)` default at line 77
  covers only a dict without `usage`. On any other value `.get` raises inside the sort key,
  the bare `except` swallows the error, and all the colours keep their original order.
- Running the aggressive tier twice is not always the same as running it once.
  `Tiers.AggressiveNotIdempotent` shows a document on which it is not.
  `Tiers.AggressiveIdempotent` gives the condition under which it is, and
  `Tokens.ColorsSettleExactly` shows that this condition is exact for the colours.

## Model

| member | source | states |
|---|---|---|
| Json.Lookup | compress-figma-json.py:22 | `d.get(k)`: a value exactly when the dict holds `k`, and then one stored under `k`. |
| Json.LookupStored | compress-figma-json.py:22 | In a dict without repeated keys, `d.get(k)` is the value stored under `k`. |
| Json.Truthy | compress-figma-json.py:65 | `if not x`: a string, list or dict is true exactly when its `len` is not zero, and a dict exactly when it holds some key; `None` is false. |
| Json.In | compress-figma-json.py:104 | `key in x`: on a dict it agrees with `get` finding the key; on a string it is true exactly when the key occurs at some index; on a list, exactly when some element is that string; on anything else it raises. |
| Json.IsSubstringOccurs | compress-figma-json.py:29 | On two strings, `in` holds exactly when the needle occurs at some index of the haystack. |
| Json.Len | compress-figma-json.py:31 | `len(x)` succeeds exactly on a string, a list or a dict; on a dict without repeated keys it is the number of distinct keys. |
| Json.Replace | compress-figma-json.py:80 | Assigning to a key the dict holds changes that key's value only; every key keeps its place and every other value is unchanged. |
| Json.RemoveKeys | compress-figma-json.py:36-37 | After deleting a set of keys none of them is present; every other key keeps its value; nothing is added. |
| Json.ItemAccess | compress-figma-json.py:126 | `v[key]` with a string key: the value on a dict that holds the key, and an exception on a dict without it and on a string, a list or a scalar. |
| Json.NonDictAccess | compress-figma-json.py:125-135 | Defined step by step: the `in` test for each key (substring test on a string, element test on a list, raise on a scalar), then `ItemAccess` when the key is found. Proved closed form: a non-dict document or tree is left unchanged exactly when no key is found in it, and the run raises otherwise. |
| Json.Utf8Length | compress-figma-json.py:52 | `len(s.encode('utf-8'))`: between one and four bytes per character. |
| Json.DeletePresent | compress-figma-json.py:103-105 | The loop `if key in d: del d[key]` over a list of keys leaves exactly the dict without those keys. |
| Assets.OverLimitInWholeNumbers | compress-figma-json.py:31-32 | An image is over `max_size_kb` iff 3 times its base64 length exceeds 4096 times the limit; an SVG (lines 52-53) iff its UTF-8 byte count exceeds 1024 times the limit; exactly at the limit is kept. |
| Assets.ContentSize | compress-figma-json.py:52 | An SVG's size exists iff `svgCode` is a string, and is then between 1 and 4 times its length in characters; an image's size is `len` of its base64 value. |
| Assets.OverLimit | compress-figma-json.py:31-32 | The float tests of lines 31-32 (images) and 52-53 (SVGs) on a size; its whole-number form is `OverLimitInWholeNumbers`. |
| Assets.Oversized | compress-figma-json.py:29-33 | A record without the content field is kept; with it, the record is doomed iff its size is over the limit, and the verdict raises when the size cannot be taken; a record that is not a dict is never doomed. |
| Assets.OversizedKeys | compress-figma-json.py:28-34 | The keys the first loop lists, or a raise; never more keys than records. `CollectOversized` computes it, and `OversizedKeysComplete`/`OversizedKeysSound` say it lists exactly the oversized records. |
| Assets.Survivors | compress-figma-json.py:28-37 | Reference definition of the pruned collection: only records of the input that are not judged oversized, in order. |
| Assets.Prune | compress-figma-json.py:20-40 | `assets` that is not a dict raises; a missing or falsy collection gives count 0 and no change; on success, the same keys of `assets` and every other key untouched. |
| Assets.CollectOversized | compress-figma-json.py:28-34 | The first loop lists exactly the keys `OversizedKeys` gives, in iteration order, and raises when judging any record raises. |
| Assets.DeleteKeys | compress-figma-json.py:36-37 | The second loop leaves the collection without the listed keys. |
| Assets.PruneCollection | compress-figma-json.py:20-61 | The guards and the two loops together compute `Prune`. |
| Assets.CompressImages | compress-figma-json.py:20-40 | `compress_images` computes `Prune` for images. |
| Assets.CompressSvgs | compress-figma-json.py:42-61 | `compress_svgs` computes `Prune` for SVGs. |
| Assets.OversizedKeysComplete | compress-figma-json.py:28-33 | The key of every oversized record is listed. |
| Assets.OversizedKeysSound | compress-figma-json.py:28-33 | Every listed key belongs to an oversized record. |
| Assets.OversizedKeysCount | compress-figma-json.py:34 | The count returned plus the number of survivors is the size of the collection. |
| Assets.RemovingCollectedKeys | compress-figma-json.py:28-37 | With unique keys, deleting the listed keys leaves exactly the survivors. |
| Assets.PruneRemovesExactlyTheOversized | compress-figma-json.py:20-40 | After pruning, the collection is exactly the survivors, and the count is the number of records deleted. |
| Assets.SurvivorsAreTheSmallOnes | compress-figma-json.py:29-33 | A record survives iff it is not judged oversized. |
| Assets.RemovingCoveringKeys | compress-figma-json.py:28-37 | Deleting at least the keys of every oversized record leaves nothing oversized. |
| Assets.KeptAreSmall | compress-figma-json.py:28-37 | No record left by pruning is over the limit. |
| Assets.PruneLeavesSettled | compress-figma-json.py:20-40 | After pruning, the collection is absent, empty or free of oversized records. |
| Assets.PruneSettled | compress-figma-json.py:20-40 | Pruning a collection with nothing oversized removes nothing and changes nothing. |
| Assets.PruneEffect | compress-figma-json.py:20-61 | After a successful prune, a dict collection with unique keys holds exactly its survivors; any other collection value is left as it was. |
| Assets.PruneIdempotent | compress-figma-json.py:20-61 | Pruning a second time with the same limit deletes nothing. |
| Tokens.Usage | compress-figma-json.py:77 | The sort key `value.get('usage', 0)`: 0 when absent, booleans as 1 and 0. The sort's properties are stated by `SortByUsageIsStableSort`. |
| Tokens.Insert | compress-figma-json.py:77 | One step of the stable sort: the result is one entry longer. `InsertPermutes`, `InsertKeepsDescending` and `InsertWithUsage` are its partners. |
| Tokens.SortByUsage | compress-figma-json.py:77 | `sort(key=usage, reverse=True)`: keeps the length. Proved a stable descending sort by `SortByUsageIsStableSort`. |
| Tokens.OrderColors | compress-figma-json.py:74-79 | The colour order after the `try`: always a permutation of the colours, and in descending usage whenever every colour is a dict (the key can be computed). Otherwise the `except` keeps the original order. |
| Tokens.Take | compress-figma-json.py:80 | `items[:n]` has `min(n, len)` entries and is a prefix. |
| Tokens.Trim | compress-figma-json.py:73-90 | Cutting one group raises iff the group is present and not a dict; on success, the same keys and every other group unchanged. |
| Tokens.ReduceTokens | compress-figma-json.py:63-92 | Falsy tokens are returned unchanged; truthy tokens that are not a dict raise; on success the key order is kept. |
| Tokens.CompressDesignTokens | compress-figma-json.py:63-92 | Working group by group computes `ReduceTokens`. |
| Tokens.TrimGroup | compress-figma-json.py:73-80 | One `if key in tokens:` block: look the group up, raise on a non-dict, order the colours when they are all dicts, keep the first `cap` entries; the result is `Trim`'s. |
| Tokens.InsertPermutes | compress-figma-json.py:77 | Inserting into the sorted part adds exactly that entry. |
| Tokens.SortByUsageDescending | compress-figma-json.py:77 | The usage sort puts usages in descending order. |
| Tokens.SortByUsagePermutes | compress-figma-json.py:77 | The usage sort is a permutation. |
| Tokens.SortByUsageStable | compress-figma-json.py:77 | The usage sort keeps the relative order of entries with equal usage. |
| Tokens.SortByUsageIsStableSort | compress-figma-json.py:77 | The usage sort is a stable descending sort: ordered, a permutation, and stable. |
| Tokens.SortedUnchanged | compress-figma-json.py:77 | Sorting colours already in descending order changes nothing. |
| Tokens.ColorsOfTrim | compress-figma-json.py:72-80 | The kept colours number `min(cap, len)` and come from the input. When all are dicts they are in descending usage order, each outranks every colour dropped, and ties keep their order. Otherwise they are the first `cap` as they were. |
| Tokens.TrimReduces | compress-figma-json.py:73-90 | A successful cut of a group leaves the top colours, or the first `cap` typography or spacing entries. |
| Tokens.ReduceTokensRaises | compress-figma-json.py:65-90 | A non-empty token dict raises iff one of `colors`, `typography` or `spacing` is present and not a dict. |
| Tokens.ReduceTokensEffect | compress-figma-json.py:63-90 | A successful reduction cuts the three groups with the caps of its tier (30/20/25 or 15/10/10) and leaves every other key alone. |
| Tokens.ColorsSettle | compress-figma-json.py:76-80 | Under `FallbackStable`, cutting the kept colours again changes nothing. |
| Tokens.ReduceTokensKeepsComparable | compress-figma-json.py:72-80 | The reduced tokens still have sortable usages. |
| Tokens.ReduceTokensIdempotent | compress-figma-json.py:63-92 | Under `FallbackStable`, reducing a second time with the same tier changes nothing. |
| Tokens.ColorsSettleExactly | compress-figma-json.py:76-80 | Cutting the kept colours a second time changes nothing exactly when `FallbackStable` holds. |
| Tokens.SecondPassReorders | compress-figma-json.py:76-80 | When a non-dict colour lies beyond the cap and the first `cap` colours are dicts out of order, a second cut reorders them. |
| Tokens.AggressiveTokensNotIdempotent | compress-figma-json.py:63-92 | For a concrete token dict, a second aggressive reduction differs from the first. |
| Tree.Simplify | compress-figma-json.py:94-118 | `simplify_tree` on a node: a dict stays a dict and never gains a key. `SimplifyCleans`, `SimplifyKeepsOtherKeys`, `SimplifyChildren` and `SimplifyIdempotent` state what it does. |
| Tree.SimplifyAll | compress-figma-json.py:115-118 | Each child is simplified one level deeper; the list keeps its length and order. |
| Tree.SimplifyRoot | compress-figma-json.py:94-118 | A dict root always succeeds. A non-dict root is left unchanged iff none of the seven keys is found in it, and raises otherwise. |
| Tree.SimplifyCleans | compress-figma-json.py:94-118 | Every node the walk reaches loses the six metadata keys. At or below the depth limit its `children` is empty. Above it, every child in the list is simplified one level deeper. |
| Tree.SimplifiedIsFixed | compress-figma-json.py:94-118 | The walk leaves an already simplified node unchanged. |
| Tree.SimplifyIdempotent | compress-figma-json.py:94-118 | The nodes the walk leaves unchanged are exactly the simplified ones, so walking twice is walking once. |
| Tree.SimplifyKeepsOtherKeys | compress-figma-json.py:98-111 | The walk deletes the metadata keys and no other key, keeps key order, and changes no value but `children`. |
| Tree.SimplifyChildren | compress-figma-json.py:107-118 | At or below the limit, a present `children` becomes `[]`. Above it, a list keeps its length and its non-dict elements, and a `children` that is not a list is left alone. |
| Tree.SimplifyRootIdempotent | compress-figma-json.py:94-118 | Simplifying the root again with the same limit changes nothing. |
| Tree.SimplifyNode | compress-figma-json.py:94-118 | Deleting the present keys, then emptying or walking into the children, computes `Simplify`. |
| Tree.SimplifyChildNodes | compress-figma-json.py:115-118 | Updating each dict child where it stands computes `SimplifyAll`. |
| Tiers.PruneAssets | compress-figma-json.py:125-127 | Image then SVG pruning succeeds only on a dict, and keeps the keys of `assets`. |
| Tiers.PruneAssetsEffect | compress-figma-json.py:125-127 | After the asset stage with limits (image KB, SVG KB), `images` holds exactly the images within the image limit, and `svgs` exactly the SVGs within the SVG limit (for collections with unique keys). Every other key of `assets` keeps its value. |
| Tiers.PruneIn | compress-figma-json.py:125-127 | The asset stage raises iff pruning `assets` raises. It replaces `assets` by its pruned value and leaves every other key alone. |
| Tiers.ReduceIn | compress-figma-json.py:130-131 | The token stage raises iff reducing `designTokens` raises. It replaces that key by its reduction and leaves every other key alone. |
| Tiers.SimplifyIn | compress-figma-json.py:134-135 | The tree stage raises iff simplifying `tree` raises. It replaces that key by the simplified tree and leaves every other key alone. |
| Tiers.Standard | compress-figma-json.py:120-137 | A non-dict document raises or is unchanged as the key tests decide; a dict keeps its keys. |
| Tiers.BlankComponents | compress-figma-json.py:158-160 | A present `components` becomes `{'definitions': {}}`; nothing else changes. |
| Tiers.Aggressive | compress-figma-json.py:139-173 | A non-dict document raises or is unchanged as the key tests of all eight keys decide. |
| Tiers.StandardScope | compress-figma-json.py:120-137 | Standard raises iff a stage raises on its key. Otherwise the three keys hold the stage results with limits 75/30 KB, standard caps and depth 10, and nothing else changes. |
| Tiers.Finish | compress-figma-json.py:152-171 | The deletions and the blanking of `components` around the tree stage of the aggressive tier; `FinishEffect` states what it does. |
| Tiers.FinishEffect | compress-figma-json.py:152-171 | The aggressive deletions remove exactly `screenshot` and the three optional keys, blank `components`, and keep the order and values of the rest. |
| Tiers.AggressiveScope | compress-figma-json.py:139-173 | Aggressive raises iff a stage raises on its key. Otherwise it applies limits 25/10 KB, aggressive caps and depth 6, and deletes the four keys. `components` becomes `{'definitions': {}}` when present. No key is added, and the rest keep their order and values. |
| Tiers.StandardKeepsComparable | compress-figma-json.py:120-137 | The standard tier's output still has sortable colour usages. |
| Tiers.AggressiveKeepsComparable | compress-figma-json.py:139-173 | The aggressive tier's output still has sortable colour usages. |
| Tiers.PruneAssetsIdempotent | compress-figma-json.py:144-146 | Pruning the assets again with the same limits changes nothing. |
| Tiers.AggressiveIdempotent | compress-figma-json.py:139-173 | Under `TokensFallbackStable`, applying the aggressive tier to its own output changes nothing. |
| Tiers.AggressiveNotIdempotent | compress-figma-json.py:139-173 | A concrete document (15 dict colours in increasing usage, then one string colour) on which a second aggressive run differs from the first. |
| Tiers.Payload.PruneAssetsInPlace | compress-figma-json.py:144-146 | Updating `data` in place computes `PruneIn`, and reports whether it raised. |
| Tiers.Payload.ReduceTokensInPlace | compress-figma-json.py:149-150 | Updating `data` in place computes `ReduceIn`. |
| Tiers.Payload.SimplifyTreeInPlace | compress-figma-json.py:163-164 | Updating `data` in place computes `SimplifyIn`. |
| Tiers.Payload.CompressStandard | compress-figma-json.py:120-137 | The in-place standard tier yields `Standard` of the old document, or reports that it raised. |
| Tiers.Payload.CompressAggressive | compress-figma-json.py:139-173 | The in-place aggressive tier yields `Aggressive` of the old document, or reports that it raised. |
| Policy.ChoosePlan | compress-figma-json.py:192-202 | Keep iff the size in MB is at most the target. Aggressive iff over the target and (`--aggressive` or over 250 MB). Standard iff over the target, not `--aggressive` and at most 250 MB. |
| Policy.NeedsSecondPass | compress-figma-json.py:211 | The second pass runs iff the compressed size in MB is over the target. |
| Policy.SecondPass | compress-figma-json.py:211-213 | One more aggressive run iff the first pass's output is over the target; `RunOverTarget` states it in megabytes. |
| Policy.Run | compress-figma-json.py:192-213 | A document at or under the target is written out exactly as loaded. |
| Policy.RunOverTarget | compress-figma-json.py:199-213 | Over the target, the first tier is the aggressive one iff `--aggressive` or over 250 MB. A raise ends the run. The first tier's output is kept iff it is within the target; otherwise the aggressive tier runs on it. |
| Policy.OverTargetMeansAggressive | compress-figma-json.py:199-213 | A document written out over the target is the output of the aggressive tier. |
| Policy.RunAggressiveOnce | compress-figma-json.py:199-213 | When the aggressive tier runs first (and `TokensFallbackStable` holds), the whole run gives what one aggressive run gives, whatever the sizes. |
| Policy.CompressToTarget | compress-figma-json.py:192-213 | Compressing the held document in place yields `Run` of the old document, or reports that a tier raised. |

## Left out

- Reading and writing files, `argparse`, and every `print`, including the reduction
  percentage and the warning above 200 MB (lines 204-208 and 224-225): these are I/O and
  output only. A tier that raises ends the run before anything is written.
- `get_size_mb` serialises the document; serialisation is not part of this model. Sizes are a
  byte-count function supplied by the caller, and never zero, since compact JSON text is never
  empty. Megabytes are bytes divided by 1048576. Dividing by a power of two is exact in
  floating point only while the byte count is below 2^53; above that Python's `int / int`
  rounds, and the model's exact comparisons may differ from the source's at the boundary.
- JSON numbers with a fraction or an exponent are not modelled. Nor are strings with lone
  surrogates, whose UTF-8 encoding raises.
- Tokens.ReduceTokens: requires that every colour's `usage` is absent, an integer or a boolean. A
  `usage` of another type (string, null, list, float) can make the sort compare values that do
  not order, or leave the list partially sorted before the `except`; that path is not modelled.
  The same restriction reaches `Tiers.Standard`, `Tiers.Aggressive`, `Policy.Run` and the methods
  built on them, through `TokensComparable`.
- Tiers.Standard: inherits the usage restriction above.
- Tiers.Aggressive: inherits the usage restriction above.
- Policy.Run: requires `TokensComparable` of the loaded document, the usage restriction above;
  so do `Policy.RunOverTarget`, `Policy.OverTargetMeansAggressive`, `Policy.RunAggressiveOnce`
  and `Policy.CompressToTarget`.
- Tiers.Payload.CompressStandard: requires `TokensComparable`, the usage restriction above;
  so do `Tiers.Payload.CompressAggressive` and `Tiers.Payload.ReduceTokensInPlace`.
- Tiers.PruneAssetsEffect: states the collections only for unique keys, and not the two
  counts that `compress_images` and `compress_svgs` return (the tiers discard them;
  `Assets.PruneRemovesExactlyTheOversized` states them).
- Tiers.AggressiveIdempotent: holds only under `TokensFallbackStable`; without it the source is
  not idempotent (`Tiers.AggressiveNotIdempotent`).
- Policy.RunAggressiveOnce: holds only under `TokensFallbackStable`, for the same reason.
- Dicts with repeated keys, which `json.load` never builds, are not given Python's meaning; the
  lemmas that need unique keys require them.
- The in-place methods act on one `Payload` object holding the document as a value. The aliasing
  of nested dicts that Python's in-place updates rely on is not modelled.
