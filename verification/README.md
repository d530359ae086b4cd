# carefree-learn core in Dafny

A Dafny model of two parts of carefree-learn, a PyTorch tabular-learning
library. Each part is paired with proofs about it.

**The building blocks (`cflearn/modules/blocks.py`).**

- The shape bookkeeping of `Linear`, `Mapping` and `MLP`.
- The deep neural decision forest `DNDF`:
  - its leaf and internal-node counts and its `is_regression` default;
  - the routing-index table `increment_masks` that its constructor builds with numpy;
  - the index side of `forward`, which gathers one split probability per tree level and multiplies them along every root-to-leaf path.

The proofs show three things:

- the table's column k traces the heap-order walk from the root to leaf k;
- every entry indexes into the flat `[p, 1 - p]` vector;
- the forward loop computes, for every tree, batch row and leaf, the product of the branch probabilities along that leaf's path.

**The public API helpers (`cflearn/api/basic.py`).**

- `make` folds its keyword arguments into the nested configuration dictionary a pipeline is built from:
  - every optional argument is written only when given;
  - `metric_config` wins over `metrics`, and `optimizers` wins over the single-optimizer arguments;
  - writing into a `trainer_config` or `sampler_config` that is not a dictionary is an error.
- The saving scheme:
  - `_to_saving_path`;
  - `_make_saving_path`, which names an archive `<identifier>^_^<name>` and deletes older archives in the folder (the folder is a class whose listing is updated in place);
  - `_fetch_saving_paths`, which lists the folder and recovers every saved name;
  - `_to_pipelines`.

Modules:

- `Wrappers`: Option and Result.
- `Arith`: powers of two and division facts.
- `ArrayOps`: `np.repeat`, `np.tile`, `np.arange`.
- `Blocks`: `Linear`, `Mapping`, `MLP`.
- `Dndf`: the counts, the mask table and the forest constructor.
- `DndfForward`: the routing part of `forward`.
- `Text`: `str.find`, `str.split`, `str.join`.
- `PathOps`: POSIX `os.path.join`, `split` and `splitext`.
- `Saving`: the file-name scheme and the file system.
- `Pipelines`: `_to_pipelines`.
- `Dicts`: the `if x is not None: d[k] = x` idiom.
- `MakeApi`: `make`.

## Model

| member | source | states |
|---|---|---|
| Blocks.NewLinear | cflearn/modules/blocks.py:13-28 | The layer maps in_dim to out_dim. An explicit bias flag is kept as given; without one the layer has a bias. |
| Blocks.NewMapping | cflearn/modules/blocks.py:61-95 | Without an explicit bias, the linear layer has a bias exactly when there is no batch norm. Batch norm of width out_dim exists exactly when asked for. The activation is kept. Dropout is used exactly when 0 < rate < 1. |
| Blocks.DefaultMapping | cflearn/modules/blocks.py:60-95 | `Mapping(in_dim, out_dim)` with every default has batch norm of width out_dim, therefore no bias on its linear layer, a ReLU activation and dropout 0.5. |
| Blocks.NewMlp | cflearn/modules/blocks.py:126-135 | One mapping per pair of `zip(num_units, mapping_configs)`, each with its configuration, plus a final `Linear` exactly when out_dim is given. Every layer consumes the width the previous one produces. The output width is out_dim, or else the last hidden width. |
| Dndf.InternalsAreLevels | cflearn/modules/blocks.py:170-171 | The `2 ** (depth + 1) - 1` internal nodes are exactly depth + 1 levels of 1, 2, 4, … nodes. There are `2 * 2 ** depth` leaves. |
| Dndf.MaskRowZero | cflearn/modules/blocks.py:182-187 | `np.repeat([0, num_internals], num_leaf // 2)` sends the first half of the leaves to the root's left entry and the second half to its right entry. |
| Dndf.MaskRow | cflearn/modules/blocks.py:188-195 | The numpy row built for level i ≥ 1 gives, for every leaf, the index of the level-i node on its path, shifted by num_internals when the path turns right there. |
| Dndf.LevelRowEntries | cflearn/modules/blocks.py:191-194 | Before the final repeat, entry j of the level row is node `2**i - 1 + j/2`, shifted by num_internals for odd j. |
| Dndf.NextMaskRow | cflearn/modules/blocks.py:189-196 | One loop pass yields exactly the level-i row of the table. |
| Dndf.BuildIncrementMasks | cflearn/modules/blocks.py:182-198 | The constructor's loop stacks depth + 1 rows, row i being the level-i index of every leaf's path. |
| Dndf.NextLevel | cflearn/modules/blocks.py:188-190 | Halving num_repeat and doubling num_local_internals move the loop from level i - 1 to level i. |
| Dndf.NodeInLevel | cflearn/modules/blocks.py:191-192 | The node a path visits at level i lies in that level's heap-order range `[2**i - 1, 2**(i+1) - 1)`. The side taken there is 0 or 1. |
| Dndf.NodeClosedForm | cflearn/modules/blocks.py:191-195 | The level-i node on leaf k's path is `2**i - 1 + k / 2**(depth + 1 - i)`. |
| Dndf.MaskEntryInRange | cflearn/modules/blocks.py:182-198 | Every table entry is below `2 * num_internals`, the length of one `[p, 1 - p]` row. |
| Dndf.RootRow | cflearn/modules/blocks.py:182-187 | Every path starts at the root. The first half of the leaves goes left there and the second half goes right. |
| Dndf.ChildOfNode | cflearn/modules/blocks.py:188-195 | Consecutive rows step from a node m to its child `2m + 1` (left) or `2m + 2` (right). |
| Dndf.PathIsDescent | cflearn/modules/blocks.py:182-198 | Column k of the table is the walk from the root that turns by the binary digits of k, most significant first. |
| Dndf.LastRowIdentifiesLeaf | cflearn/modules/blocks.py:191-197 | The last row's node and side recover the leaf index. |
| Dndf.DistinctLeavesDistinctPaths | cflearn/modules/blocks.py:191-197 | Different leaves have different last-row entries, so no two leaves share a route. |
| Dndf.NewForest | cflearn/modules/blocks.py:152-198 | `num_leaf = 2 ** (depth + 1)` and `num_internals = num_leaf - 1`. `is_regression` defaults to `out_dim == 1`. The tree projection maps in_dim to num_internals * num_tree. The leaves have shape (num_tree, num_leaf, out_dim). The mask table is the level table. |
| DndfForward.TreeBlocks | cflearn/modules/blocks.py:212 | `torch.split(..., num_internals, dim=-1)` gives tree j the columns `[j*n, (j+1)*n)` of every batch row. |
| DndfForward.Complement | cflearn/modules/blocks.py:214 | `1.0 - p`, entry by entry. |
| DndfForward.FlatProbabilities | cflearn/modules/blocks.py:213-215 | The flat vector holds row b's `[p, 1 - p]` at offset `b * 2n`. |
| DndfForward.FlatAppend | cflearn/modules/blocks.py:213-215 | Appending one batch row's `[q, 1 - q]` extends the layout by that row. |
| DndfForward.FlatIndexBelow | cflearn/modules/blocks.py:216-218 | `batch_indices[b] + c` stays inside the flat vector for every column c < 2n. |
| DndfForward.Gather | cflearn/modules/blocks.py:219-225 | `take(batch_indices + mask)` reads entry `b * 2n + mask[k]` for every batch row b and leaf k. |
| DndfForward.Mul | cflearn/modules/blocks.py:225 | `routes[j] *= ...` multiplies entry by entry and keeps the shape. |
| DndfForward.FlatReadsBranch | cflearn/modules/blocks.py:213-220 | Gathering at mask row i reads the branch probability of level i on leaf k's path. That is p[node] going left and 1 - p[node] going right. |
| DndfForward.LevelMaskInRange | cflearn/modules/blocks.py:219-225 | Every mask index lies inside one `[p, 1 - p]` row. |
| DndfForward.RoutesStart | cflearn/modules/blocks.py:219-222 | The first gather is every leaf's route after one level. |
| DndfForward.RoutesStep | cflearn/modules/blocks.py:223-225 | Multiplying in mask row i extends every route by one level. |
| DndfForward.PartialRouteStep | cflearn/modules/blocks.py:223-225 | One more level multiplies a partial route by that level's branch probability. |
| DndfForward.TreeRoutes | cflearn/modules/blocks.py:219-225 | Tree j's routes hold, for every batch row b and leaf k, Route of tree j's block of row b: the product of the branch probabilities on the path from the root to k. |
| DndfForward.TreeStart | cflearn/modules/blocks.py:219-222 | The first gather on tree j's flat vector is tree j's route after one level. |
| DndfForward.TreeStep | cflearn/modules/blocks.py:224-225 | One inner-loop pass on tree j moves its routes from level i to level i + 1. |
| DndfForward.MultiplyLevel | cflearn/modules/blocks.py:224-225 | One outer-loop pass moves every tree's routes one level down. |
| DndfForward.ForwardRoutes | cflearn/modules/blocks.py:209-225 | For every tree j, batch row b and leaf k, `routes[j][b][k]` is the product of the branch probabilities on the path to k through tree j's block of row b. |
| DndfForward.GatherIndexInBounds | cflearn/modules/blocks.py:216-220 | `b * 2n + increment_masks[i][k]` is a valid index for every batch row, level and leaf. |
| ArrayOps.Repeat | cflearn/modules/blocks.py:182-195 | `np.repeat(s, n)` has `|s| * n` entries, entry j being `s[j / n]`. |
| ArrayOps.Tile | cflearn/modules/blocks.py:194 | `np.tile(s, n)` has `|s| * n` entries, entry j being `s[j % |s|]`. |
| ArrayOps.Arange | cflearn/modules/blocks.py:191-192 | `np.arange(lo, hi)` holds lo, lo + 1, …, hi - 1. |
| ArrayOps.Add | cflearn/modules/blocks.py:191-194 | `+=` on two arrays of one length adds entry by entry. |
| Text.FindFrom | cflearn/api/basic.py:297-298 | The index reported is a match, and no earlier index from start is one. None means there is no match at all. |
| Text.SplitOn | cflearn/api/basic.py:298 | `s.split(d)` has at least one piece (how it cuts: SplitCount, PiecesHoldNoMatch, JoinSplit, SplitLast). |
| Text.SplitCount | cflearn/api/basic.py:297-298 | `s.split(d)` has two or more pieces exactly when `d in s`. |
| Text.PiecesHoldNoMatch | cflearn/api/basic.py:298 | No piece of `s.split(d)` contains d. |
| Text.JoinSplit | cflearn/api/basic.py:298-299 | `d.join(s.split(d)) == s`. |
| Text.SplitLast | cflearn/api/basic.py:298-299 | A text holding d is all pieces but the last joined with d, then d, then the last piece. |
| Text.SplitAppend | cflearn/api/basic.py:298 | When no match straddles the end of t and n holds no d, `(t + d + n).split(d)` is `t.split(d) + [n]`. |
| PathOps.Join | cflearn/api/basic.py:174 | An absolute second part replaces the first. Otherwise the result is the first part, then a '/' exactly when the first part is non-empty and does not already end in '/', then the second part. |
| PathOps.Dirname | cflearn/api/basic.py:289-290 | The head of `os.path.split` is a prefix of the path (what it is for joined and normal paths: SplitOfJoin, JoinDirBase). |
| PathOps.Basename | cflearn/api/basic.py:180 | The tail of `os.path.split` holds no '/', ends the path, and is preceded by '/' when shorter than the path. |
| PathOps.BasenameOfAnyJoin | cflearn/api/basic.py:170-180 | `basename(join(a, b)) == basename(b)` for every a and b, whether or not b holds '/' or is absolute. |
| PathOps.SplitOfJoin | cflearn/api/basic.py:170-180 | `split(join(a, b))` gives back b for a single component b, and also a when a is a directory name. |
| PathOps.JoinDirBase | cflearn/api/basic.py:289-299 | A normal absolute path is the join of its dirname and its basename. |
| PathOps.AppendComponentText | cflearn/api/basic.py:178-192 | Appending text without '/' keeps the dirname and extends the basename. |
| PathOps.Splitext | cflearn/api/basic.py:294 | `root + ext == p`. A non-empty extension starts with its only '.' and holds no '/', and the root's last component keeps a character other than '.' (so ".zip" is not split). An empty extension means no '.' of the last component has a character other than '.' before it there (so "a.zip" is always split). |
| PathOps.SplitextOf | cflearn/api/basic.py:294-295 | A stem that is not all dots and has no '/', followed by ".zip", splits back into that stem and ".zip". |
| Saving.ToSavingPath | cflearn/api/basic.py:170-175 | Without a folder the saving path is the identifier. With one, its basename is the identifier's basename for every identifier; for an identifier without '/', that is the identifier itself, and the dirname is the folder when the folder is a directory name. |
| Saving.Survivors | cflearn/api/basic.py:183-191 | A removal pass keeps no more entries than the listing had (which ones: SurvivorsMembers). |
| Saving.SurvivorsMembers | cflearn/api/basic.py:183-191 | A removal pass keeps exactly the entries it does not doom. |
| Saving.SurvivorsDistinct | cflearn/api/basic.py:183-191 | A removal pass keeps a listing's names distinct. |
| Saving.FileSystem.Remove | cflearn/api/basic.py:191 | `os.remove` drops the one entry of that name from its folder and changes nothing else. |
| Saving.RemoveWhere | cflearn/api/basic.py:183-191 | The loop over `os.listdir` leaves the folder holding exactly the survivors of the rule, in order. No other folder changes. |
| Saving.MakeSavingPath | cflearn/api/basic.py:178-192 | The result is `saving_path^_^name`. With removal asked for and the folder a directory, every non-directory entry whose name starts with `identifier^_^name` is deleted and nothing else changes. Otherwise nothing changes. |
| Saving.MakeSavingPathByStem | cflearn/api/basic.py:178-192 | The same result. The removal deletes only the non-directory entries whose name without extension is exactly `identifier^_^name`. |
| Saving.Candidate | cflearn/api/basic.py:291-300 | An entry gets a key only when it is a file with extension ".zip". |
| Saving.CandidateStem | cflearn/api/basic.py:297-300 | An entry listed under key has a stem that is some front, the delimiter and key. That front joined to the folder is the saving path, and key holds no delimiter. |
| Saving.Fetched | cflearn/api/basic.py:287-301 | Every key the fetch loop records maps to `saving_path^_^key`, what `_make_saving_path(key, saving_path, False)` returns. |
| Saving.FetchedKeys | cflearn/api/basic.py:287-302 | The loop's dict holds exactly the keys of the listed entries. |
| Saving.FetchedIsFetched | cflearn/api/basic.py:287-302 | The dict the loop builds holds exactly the candidates' keys, each mapped to `saving_path^_^key`. |
| Saving.FetchSavingPaths | cflearn/api/basic.py:283-302 | Fails exactly when the folder of the saving path is not a directory. Otherwise it returns exactly the keys of the listing's candidates, each mapped to `saving_path^_^key`. |
| Saving.FetchFrom | cflearn/api/basic.py:291-301 | The loop over a listing keeps exactly the names of the archives saved under the saving path, each mapped to `saving_path^_^name`. |
| Saving.NoStraddleDelim | cflearn/api/basic.py:297-299 | A delimiter written after an identifier is matched where it was written exactly when the identifier does not end in "^_". |
| Saving.ArchiveLocation | cflearn/api/basic.py:178-192 | The archive `saving_path^_^name.zip` lies in the saving path's folder as `identifier^_^name.zip`. |
| Saving.SavedIsFetched | cflearn/api/basic.py:271-302 | Saving name under a normal saving path writes an archive into the folder that fetching lists under exactly that name. |
| Saving.FetchedIsSaved | cflearn/api/basic.py:291-301 | Conversely, a fetched entry is the archive `identifier^_^key.zip` that saving key writes. |
| Saving.PrefixRemovalDooms | cflearn/api/basic.py:186 | The as-written removal deletes an archive fetched under key exactly when `key + ".zip"` starts with the name being saved. |
| Saving.AsWrittenRemovesOtherModel | cflearn/api/basic.py:186-191 | Saving `name` deletes the archive of any different name `name + more`, which fetching lists under that other name. |
| Saving.SupersededIffSameKey | cflearn/api/basic.py:182-191 | The corrected removal deletes a fetched archive exactly when its key is the name being saved. |
| Pipelines.Identifiers | cflearn/api/basic.py:199-201 | The names list holds each pipeline's model identifier, in order. |
| Pipelines.Elements | cflearn/api/basic.py:202 | `set(names)` holds exactly the names. |
| Pipelines.DistinctPairwise | cflearn/api/basic.py:202 | The names are distinct exactly when no two positions hold the same name. |
| Pipelines.ElementsCard | cflearn/api/basic.py:202 | `len(set(names)) <= len(names)`, with equality exactly when no name repeats. |
| Pipelines.Zip | cflearn/api/basic.py:207 | `dict(zip(names, pipelines))` has exactly the names as keys. |
| Pipelines.ZipAt | cflearn/api/basic.py:207 | With distinct names, each name maps to the pipeline at its position. |
| Pipelines.ZipOwnIdentifiers | cflearn/api/basic.py:199-207 | `dict(zip(names, pipelines))` with names the pipelines' own identifiers files every pipeline under its own identifier, even when identifiers repeat. |
| Pipelines.FromList | cflearn/api/basic.py:199-207 | An accepted list gives a dict holding every pipeline's identifier, each key mapped to a pipeline with that identifier. |
| Pipelines.ToPipelines | cflearn/api/basic.py:195-208 | `_to_pipelines`: a dict comes back unchanged; a single pipeline is accepted under its identifier; any accepted non-dict argument maps every key to a pipeline with that identifier. |
| Pipelines.NamedUnchanged | cflearn/api/basic.py:195-208 | A dict passes through unchanged. |
| Pipelines.ManyRefusedIffRepeat | cflearn/api/basic.py:199-206 | A list is refused exactly when two pipelines share a model identifier. |
| Pipelines.ManyKeyedByIdentifier | cflearn/api/basic.py:199-207 | An accepted list gives one entry per pipeline, under its model identifier, and no other key. |
| Pipelines.OneKeyedByIdentifier | cflearn/api/basic.py:197-207 | A single pipeline becomes the one-entry dict under its identifier. |
| Dicts.OverlayKeeps | cflearn/api/basic.py:67-113 | A key that no given field writes keeps its entry, or its absence. |
| Dicts.OverlaySets | cflearn/api/basic.py:67-113 | With distinct keys, a given field is what its key ends up holding. |
| Dicts.OverlayKeys | cflearn/api/basic.py:67-113 | The resulting keys are the original ones plus the keys of the given fields. |
| Dicts.OverlayAppend | cflearn/api/basic.py:64-155 | Writing one run of fields and then another is writing their concatenation. |
| Dicts.OverlayAt | cflearn/api/basic.py:67-113 | With distinct keys, a field's key holds its value when given and keeps its old entry otherwise. |
| MakeApi.SetIfGiven | cflearn/api/basic.py:93-94 | `if v is not None: d[k] = v` sets k to v when v is given and otherwise changes nothing. |
| MakeApi.GeneralKwargs | cflearn/api/basic.py:64-89 | The "pipeline general" block lays the top-level fields over kwargs in order. |
| MakeApi.GeneralTrainer | cflearn/api/basic.py:92-106 | The "trainer general" block lays the general trainer fields over the trainer config. |
| MakeApi.SamplerStep | cflearn/api/basic.py:107-111 | The aggregation fields go into the sampler config. Writing one into a non-dictionary is the `TypeError`. |
| MakeApi.Metrics | cflearn/api/basic.py:115-122 | The metrics block settles on `metric_config`, else `{"types": metrics}`, else none. |
| MakeApi.SettleOptimizers | cflearn/api/basic.py:126-153 | The optimizers block settles on `optimizers`, else the non-empty "all" preset, else none. |
| MakeApi.MakeConfig | cflearn/api/basic.py:64-157 | The configuration `make` hands to the pipeline always holds a dictionary under `trainer_config` (its entries: TopFieldAt, TrainerFieldsWhenGiven and the other MakeApi lemmas). |
| MakeApi.Make | cflearn/api/basic.py:24-162 | `make` yields the specified configuration. It fails exactly when kwargs' `trainer_config` is not a dictionary, or its `sampler_config` is not one and an aggregation field is given. |
| MakeApi.MetricPrecedence | cflearn/api/basic.py:115-124 | A given `metric_config` is stored whatever `metrics` is. Otherwise given metrics become `{"types": metrics}`. With neither, the given trainer config's entry stays. |
| MakeApi.OptimizersPrecedence | cflearn/api/basic.py:126-155 | Given `optimizers` are stored verbatim. Otherwise an optimizer or a scheduler gives `{"all": preset}`. With neither, the given entry stays. |
| MakeApi.PresetEntries | cflearn/api/basic.py:138-151 | The preset holds optimizer and its config exactly when an optimizer is given, and scheduler and its config exactly when a scheduler is given. The configs default to `{}` and there is no other key. |
| MakeApi.TrainerFieldsWhenGiven | cflearn/api/basic.py:91-106 | Each general trainer field is written when given and otherwise leaves the given trainer config's entry as it was. |
| MakeApi.UseTqdmAlwaysSet | cflearn/api/basic.py:92 | `use_tqdm` is always written and overrides the given trainer config. |
| MakeApi.SamplerAlwaysSet | cflearn/api/basic.py:107-111 | A sampler config is always present. It is fresh with only the given aggregation fields when there was none, and the given one with them laid over it when it was a dictionary. |
| MakeApi.TrainerKeeps | cflearn/api/basic.py:91-155 | Any trainer-config key that `make` does not write keeps its given entry, or its absence. |
| MakeApi.TailSets | cflearn/api/basic.py:112-155 | A given collator config, metric config or optimizers value is what the trainer config holds under its key. |
| MakeApi.TopFieldAt | cflearn/api/basic.py:64-89 | Each top-level field is stored when given. An absent one leaves the kwargs entry as it was. |
| MakeApi.AlwaysWritten | cflearn/api/basic.py:64-80 | model, cv_split, use_timing_context and the data and read configs are always written, whatever kwargs held. |
| MakeApi.LoggingDefaults | cflearn/api/basic.py:83-87 | With a logging folder, folder and file are stored, the file defaulting to `<model>_<timestamp>.log`. Without one, both stay as in kwargs, so a given file is ignored. |
| MakeApi.ConfigKeys | cflearn/api/basic.py:64-91 | The configuration's keys are those of kwargs, the top-level fields given, and `trainer_config`. |
| MakeApi.UserKwargsKept | cflearn/api/basic.py:61-64 | Any other kwargs entry reaches the pipeline untouched. |
| MakeApi.DataAndReadFields | cflearn/api/basic.py:67-78 | The time-series config, task type, delimiter and `skip_first` are written into their config when given. Otherwise the given config's entry stays, and without a given config there is none. |

## Left out

- Tensor arithmetic of `Linear`, `Mapping`, `MLP` and `DNDF.forward`:
  - weights, initialisation, batch norm, activations, dropout;
  - the sigmoid, the final softmax, the matmul with the leaves and the division by num_tree (blocks.py:226-230).
  - Reason: floating point and torch kernels. Probabilities are exact reals, and the sigmoid's output is an input of `ForwardRoutes`.
- `DNDF._setup_tree_proj` and `Pruner`: the tree projection keeps only its bias flag, because pruning changes weights, not shapes.
- `np_int_type` casts: integers are unbounded, and every table entry stays below `2 * num_internals`.
- `os.path.abspath` is the identity. The round-trip lemmas take the saving path to be absolute and normal.
- The file system is a map from folder to listing; the order of `os.listdir` is whatever the map holds. Permissions, concurrent writers and failing `os.remove` calls are not modelled.
- The printed warnings of `_make_saving_path` and `make` are I/O and are dropped.
- `save`, `load` and `estimate` are not modelled, except for the `_to_pipelines` and saving-path helpers they call. Compression and `Pipeline.save` are outside the model.
- `Pipeline` internals:
  - a pipeline is only its model identifier;
  - `make` returns the configuration dictionary instead of `Pipeline(kwargs, ...)`;
  - `cuda`, `trial`, `tracker_config` and `verbose_level` are not modelled.
- `TaskTypes.from_str` is not modelled: `task_type` is stored as `TaskType(name)` without validation.
- `timestamp()` is the parameter `now`.
- Aliasing: Python writes into the caller's `data_config`, `read_config`, trainer config and sampler config in place. The model builds new values and does not capture that mutation.
- Dictionary insertion order is not modelled (maps).
- Saving.SavedIsFetched: also requires that the identifier not end in "^_" and that the name hold neither '/' nor the delimiter. Otherwise `str.split` cuts elsewhere and the name does not come back.
- Saving.AsWrittenRemovesOtherModel: carries the same requirements as SavedIsFetched, so that the deleted archive is one that fetching lists under the other name.
- ToSavingPath: for an identifier holding '/', only the basename of the saving path is stated; its dirname (the folder joined with the identifier's own directory part) is not.
- Dirname: its own contract says only that the head is a prefix of the path; its value is stated for joined paths by SplitOfJoin and for normal paths by JoinDirBase, not for paths with repeated or trailing '/'.
- Survivors: its own contract bounds only the length; which entries survive is stated by SurvivorsMembers, and that their order is kept is not stated.
- Negative sizes are not modelled: `tree_depth`, `num_tree` and every dimension are naturals. In Python a `tree_depth` of -1 gives one leaf and no internal node, and a smaller one makes `2 ** (tree_depth + 1)` a float on which `np.repeat` and `torch.empty` raise.
- Default arguments: callers of the model supply every argument. The Python defaults (`num_tree=10`, `tree_depth=4`, `output_type="output"`, `make`'s `model="fcnn"`, `cv_split=0.1`, `use_timing_context=True`, `use_tqdm=True`) are not built in; only `Mapping`'s defaults are, as `DefaultMappingConfig`, stated by `DefaultMapping`.
- Text.SplitOn: its own contract states only that there is at least one piece. How the text is cut is stated by SplitCount, PiecesHoldNoMatch, SplitLast, JoinSplit and SplitAppend.

## Findings

| source | as written | input that shows it | evidently intended | confidence | as-written member | corrected member |
|---|---|---|---|---|---|---|
| cflearn/api/basic.py:186 | `existing_model.startswith(f"{identifier}{postfix}")` deletes every non-directory entry whose name merely starts with `identifier^_^name` | saving a pipeline named "fcnn" under identifier "cflearn" deletes `cflearn^_^fcnn2.zip`, which `_fetch_saving_paths` lists as the different model "fcnn2" | delete only the archives of this very name: entries whose name without extension is `identifier^_^name` | not executed | Saving.MakeSavingPath, Saving.AsWrittenRemovesOtherModel | Saving.MakeSavingPathByStem, Saving.SupersededIffSameKey |
