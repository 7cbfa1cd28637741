# LexPkg configuration merging, modelled in Dafny

LexPkg is a Python package template. Its scripting helpers combine configuration files that have
already been parsed into Python dictionaries. Its example `process_data` script then rewrites the
merged configuration and checks it. This project models the pure part of that pipeline:

- `update_config` merges an update mapping onto an original one, recursing into sub-mappings and
  combining lists by one of three policies;
- `update_list` is the default list policy: the original list plus the update's elements the
  original lacks;
- `merge_config_files` folds `update_config` over a sequence of configurations, optionally on top
  of a mapping of defaults that fixes the allowed keys;
- `override_config` overlays command-line options;
- `reformat_config` derives values from other values;
- the value checks of `validate_config` test the colour mode and the overwrite flag.

A configuration value is the `Value` datatype (`values.dfy`): `None`, booleans, integers, floats
(as reals), strings, lists and string-keyed mappings. A mapping is a Dafny `map`, so key order does
not exist in the model. Python's exceptions become a `Failure`:

- In `scripting.dfy`, a failed merge carries the set of `MergeError`s that the raising keys of the
  failing level would produce. Each error records a key path from the top level down to the key
  that raised. That path is the model's own addition: Python's `KeyError` message names only the
  last key of it (`src/lexpkg/scripting.py:150`). Python raises for the first such key in
  insertion order, so its exception corresponds to the last key of one member's path.
  - `UnknownKey` is the `KeyError` for a key the original lacks when new keys are not allowed.
  - `NotMergeable` is the `AttributeError` or `TypeError` Python hits in two cases: a mapping
    update meets a non-mapping original other than `None`, or a list update meets a truthy
    non-list original without `overwrite_lists`.
- In `process_data.dfy`, each operation stops at the first `ConfigError`, in Python's evaluation
  order.

Files:

- `wrappers.dfy`: `Option` and `Result`.
- `values.dfy`: `Value` and Python truthiness.
- `update_list.dfy`: `update_list`, both as a function and as the source's loop, plus its lemmas.
- `scripting.dfy`: `update_config` and `merge_config_files`.
- `scripting_props.dfy`: properties of `update_config`.
- `merge_config_files_props.dfy`: properties of `merge_config_files`.
- `scripting_examples.dfy`: the cases of `tests/test_scripting.py`, proved on their own inputs.
- `process_data.dfy` and `process_data_props.dfy`: the `process_data` rewrites and checks, with
  their properties.

Three behaviours of the code are easy to misread:

- A mapping update onto an empty mapping `{}` is not the `None` case. The code tests
  `original[key] is None` (`src/lexpkg/scripting.py:153`), so `{}` keeps the caller's
  `allow_new_keys`. `EmptyDictUnderDictExample` shows `{"A": {}}` rejecting the new key `X` below `A`.
- A list update treats every falsy original as the empty list, not only `None`
  (`original[key] or []`, line 158). `FalsyOriginalIsEmptyList` states this.
- The list flags are call-level only at the top. The recursive calls (lines 154 and 156) do not
  pass `concat_lists` or `overwrite_lists`, so nested lists always use `update_list`.
  `NestedMergeIsRecursive` and `NestedListsIgnoreFlagsExample` state this.

## Model

| member | source | states |
|---|---|---|
| UpdateLists.NewElements | src/lexpkg/scripting.py:178-180 | a value is appended exactly when it occurs in the update and not in the original; no more values than the update has |
| UpdateLists.UpdateList | src/lexpkg/scripting.py:171-181 | the original is a prefix of the result; a value is in the result exactly when it is in either list; the length is at most the sum of both lengths |
| UpdateLists.UpdateListLoop | src/lexpkg/scripting.py:177-181 | the copy-then-append loop, which tests membership against the original and not against the growing copy, computes `UpdateList` |
| UpdateLists.UpdateListMultiplicity | src/lexpkg/scripting.py:172-180 | duplicates are kept, not removed: a value already in the original occurs as often as there, any other value as often as in the update |
| UpdateLists.NewElementsMultiplicity | src/lexpkg/scripting.py:178-180 | the appended part holds no value of the original, and each other value exactly as often as the update does |
| UpdateLists.NoNewElements | src/lexpkg/scripting.py:178-180 | an update whose every element the original contains appends nothing |
| UpdateLists.UpdateListIdempotent | src/lexpkg/scripting.py:171-181 | applying the same update list a second time changes nothing |
| Scripting.UpdateConfig | src/lexpkg/scripting.py:104-168 | a failure carries at least one error; on success, the keys are the original's plus the update's, keys the update does not mention keep their values, and with new keys forbidden the update's keys were all present; with new keys forbidden, every key the original lacks is reported as a `KeyError` naming it |
| Scripting.UpdateEntry | src/lexpkg/scripting.py:147-166 | applying one key: a key the original lacks succeeds exactly when new keys are allowed, and then inserts the update's value unchanged; a scalar onto a present key always replaces it; a failure carries at least one error, and each error's path starts with this key |
| Scripting.ListBase | src/lexpkg/scripting.py:158 | `original[key] or []`: a falsy value is the empty list, a list is itself, and exactly the other truthy values have no list |
| Scripting.Nest | src/lexpkg/scripting.py:152-156 | a nested merge's result is stored as a mapping; its errors propagate with the key prefixed to their path, so every propagated error names the key, and a non-empty error set stays non-empty |
| Scripting.FoldUpdates | src/lexpkg/scripting.py:94-100 | the loop fails only with errors; on success its keys are the start's plus every configuration's, and with new keys forbidden every configuration's keys were already in the start |
| Scripting.MergeConfigFiles | src/lexpkg/scripting.py:70-101 | a failure carries an error; with defaults, a success has exactly the defaults' keys and any key outside the defaults makes the merge fail; without defaults, a success has exactly the union of the configurations' keys |
| ScriptingProps.UpdateConfigAtKey | src/lexpkg/scripting.py:147-166 | on success, each key of the update holds what applying that key alone produced |
| ScriptingProps.UpdateConfigFailsAtKey | src/lexpkg/scripting.py:147-166 | a key of the update that cannot be applied makes the whole merge fail, with that key's errors among the merge's |
| ScriptingProps.ErrorsNameUpdateKeys | src/lexpkg/scripting.py:147-156 | every error of a failed merge comes from one key of the update: its path starts with that key, and applying that key alone fails with this error among its errors |
| ScriptingProps.UpdateConfigSucceeds | src/lexpkg/scripting.py:147-168 | the merge succeeds when every key of the update can be applied |
| ScriptingProps.SingleKeyUpdate | src/lexpkg/scripting.py:147-168 | a one-key update stores that key's new value in the original, or fails with exactly that key's errors |
| ScriptingProps.EmptyUpdateIsIdentity | tests/test_scripting.py:67-68 | an empty update returns the original unchanged, whatever the flags |
| ScriptingProps.MergeIntoEmpty | tests/test_scripting.py:69 | merging into `{}` with new keys allowed returns the update unchanged, whatever the list policy |
| ScriptingProps.UnknownKeyPolicy | src/lexpkg/scripting.py:148-151 | a key the original lacks raises a `KeyError` naming it unless new keys are allowed, in which case the update's value is inserted unchanged |
| ScriptingProps.ScalarOverwrites | src/lexpkg/scripting.py:165-166 | a value that is neither mapping nor list replaces the original value unconditionally |
| ScriptingProps.ScalarUpdateIsDictUpdate | src/lexpkg/scripting.py:147-166 | an all-scalar update on known keys (or with new keys allowed) never fails and equals the map union with the update winning, i.e. `dict.update` |
| ScriptingProps.NestedMergeIsRecursive | src/lexpkg/scripting.py:152-156 | a mapping onto a mapping is merged recursively with the caller's key policy and the default list policy; the nested merge's failure fails the whole merge |
| ScriptingProps.NestedMergeKeepsSiblings | src/lexpkg/scripting.py:152-156 | a merged sub-mapping is not replaced wholesale: its keys are the union of both and its unmentioned keys keep their values |
| ScriptingProps.NullOriginalTakesUpdate | src/lexpkg/scripting.py:153-154 | a mapping update onto `None` yields the update's mapping, even with new keys forbidden |
| ScriptingProps.ListPolicy | src/lexpkg/scripting.py:157-164 | on two lists, `overwrite_lists` takes the update's list, otherwise `concat_lists` concatenates, otherwise `update_list` combines |
| ScriptingProps.FalsyOriginalIsEmptyList | src/lexpkg/scripting.py:158-164 | a falsy original under a list update yields the update's list under every list policy |
| ScriptingProps.ListOntoTruthyScalarFails | src/lexpkg/scripting.py:158-164 | when lists are not overwritten, a list update onto a truthy non-list original fails at that key |
| ScriptingProps.ListOverwriteReplaces | src/lexpkg/scripting.py:157-160 | with `overwrite_lists`, a list update replaces the original value whatever it is, a truthy non-list included, and a successful merge holds the update's list at that key |
| ScriptingProps.DictOntoScalarFails | src/lexpkg/scripting.py:152-156 | a mapping update onto a non-mapping original other than `None` fails at that key |
| ScriptingProps.SelfMergeIsIdentity | src/lexpkg/scripting.py:147-168 | merging a mapping onto itself without list concatenation returns it unchanged |
| ScriptingProps.UpdateIdempotent | src/lexpkg/scripting.py:147-168 | without list concatenation, applying a successful update a second time changes nothing |
| MergeConfigFilesProps.FoldSplit | src/lexpkg/scripting.py:94-100 | folding over two concatenated sequences is folding over the first and continuing from its result, or stopping at its failure |
| MergeConfigFilesProps.MergeConfigFilesSnoc | src/lexpkg/scripting.py:87-100 | the last configuration is merged onto the merge of the earlier ones with the default list policy, and with new keys allowed exactly when there are no defaults; an earlier failure is the result |
| MergeConfigFilesProps.LaterConfigWins | src/lexpkg/scripting.py:74 | a scalar that the last configuration sets is the merged value |
| MergeConfigFilesProps.SingleConfigWithoutDefaults | src/lexpkg/scripting.py:90-101 | without defaults a single configuration comes back unchanged |
| MergeConfigFilesProps.SingleConfigWithDefaults | src/lexpkg/scripting.py:87-100 | over defaults, a key the defaults lack raises a `KeyError` naming it |
| ScriptingExamples.ValueUpdateExample | tests/test_scripting.py:19-22 | `{A:1, B:2}` updated by `{A:9}` is `{A:9, B:2}` |
| ScriptingExamples.SubDictionaryExample | tests/test_scripting.py:36-47 | a sub-mapping update keeps the sibling key `Y` |
| ScriptingExamples.UpdateListExample | tests/test_scripting.py:50-53 | `update_list([2, 3], [2, 1])` is `[2, 3, 1]` |
| ScriptingExamples.SubListDefaultExample | tests/test_scripting.py:50-53 | the default list policy gives `[2, 3, 1]` |
| ScriptingExamples.SubListConcatExample | tests/test_scripting.py:54-55 | `concat_lists` gives `[2, 3, 2, 1]` |
| ScriptingExamples.SubListOverwriteExample | tests/test_scripting.py:56-57 | `overwrite_lists` gives `[2, 1]`, even with `concat_lists` also set |
| ScriptingExamples.NestedListsIgnoreFlagsExample | src/lexpkg/scripting.py:156 | with `concat_lists` set, a list one level down is still combined by `update_list` |
| ScriptingExamples.NewKeyRejectedExample | tests/test_scripting.py:60-63 | a new key `Z` raises a `KeyError` naming `Z` |
| ScriptingExamples.NewKeyAllowedExample | tests/test_scripting.py:64 | with new keys allowed, `Z` is inserted |
| ScriptingExamples.NullUnderDictExample | tests/test_scripting.py:70-72 | `{A: None}` updated by `{A: {X: 1}}` is the update |
| ScriptingExamples.NullUnderListExample | tests/test_scripting.py:73-75 | `{A: None}` updated by `{A: [1, 2]}` is the update |
| ScriptingExamples.EmptyDictUnderDictExample | src/lexpkg/scripting.py:153-156 | `{A: {}}` updated by `{A: {X: 1}}` fails with exactly one unknown-key error, on the path `A.X`; Python's `KeyError` names `'X'`. An empty mapping is not `None` |
| ProcessData.Section | src/lexpkg/bin/process_data.py:190 | `cfg[name]` used as a mapping: succeeds exactly on a present mapping; a `KeyError` when absent, a `TypeError` when not a mapping |
| ProcessData.Lookup | src/lexpkg/bin/process_data.py:231 | `cfg[name][key]` succeeds exactly when both are present and the section is a mapping, with the stored value; a missing key is a `KeyError` with its path |
| ProcessData.Assign | src/lexpkg/bin/process_data.py:190 | `cfg[name][key] = v` succeeds exactly on a present mapping section; it stores `v`, adds `key` if missing, keeps the other keys and sections, and fails as the section lookup does |
| ProcessData.SetIfPresent | src/lexpkg/bin/process_data.py:194-199 | with no option nothing changes; with one, a key the logging mapping has is set to it and the key set never changes |
| ProcessData.OverrideConfig | src/lexpkg/bin/process_data.py:185-200 | the top-level keys are unchanged and only `inputs` and `outputs` can change |
| ProcessData.ReformatConfig | src/lexpkg/bin/process_data.py:203-240 | the top-level keys are unchanged and only `scoring` and `preprocessing` can change |
| ProcessData.ValidateValues | src/lexpkg/bin/process_data.py:267-276 | the checks pass exactly when the colour mode is one of `RGB`, `BGR`, `GRAYSCALE`, `UNCHANGED` and the overwrite flag is a boolean; a missing colour mode fails with its lookup error, and a non-string mode is an invalid mode |
| ProcessDataProps.OverrideSucceedsIff | src/lexpkg/bin/process_data.py:189-199 | `override_config` succeeds exactly when `inputs` (if an input is given), `outputs` and `outputs.logging` exist as needed; a missing `inputs` is reported before a missing `outputs` |
| ProcessDataProps.OverrideSetsInputDir | src/lexpkg/bin/process_data.py:189-190 | a given input path sets `inputs.image_dir` and keeps the rest of `inputs`; without one `inputs` is unchanged |
| ProcessDataProps.OverrideSetsOutputDir | src/lexpkg/bin/process_data.py:191-192 | a given output directory sets `outputs.dir`; without one `outputs.dir` is as before, present or absent; `outputs` gains no key but `dir`, and every key other than `dir` and `logging`, such as `overwrite`, keeps its value |
| ProcessDataProps.OverrideLogging | src/lexpkg/bin/process_data.py:193-199 | the log options only overwrite `level` and `filename` when `outputs.logging` already has them; its key set and other keys never change |
| ProcessDataProps.ReformatSucceedsIff | src/lexpkg/bin/process_data.py:231-238 | `reformat_config` succeeds exactly when `preprocessing.kwarg2`, the `scoring` mapping and `inputs.image_suffix` exist; a missing `kwarg2` is reported first |
| ProcessDataProps.ReformatSharesKwarg2 | src/lexpkg/bin/process_data.py:231 | `scoring.new_kwarg` equals `preprocessing.kwarg2`, before and after; `scoring` gains exactly the key `new_kwarg`, and the rest of it is unchanged |
| ProcessDataProps.ReformatKwarg1 | src/lexpkg/bin/process_data.py:237-238 | `preprocessing.kwarg1` becomes 9 exactly when the suffix is not `.png`; otherwise `preprocessing` is unchanged |
| ProcessDataProps.ValidateValuesErrors | src/lexpkg/bin/process_data.py:268-276 | the colour mode is checked first; a non-boolean flag is reported only when the mode is valid |

## Left out

- Reading and writing configuration files (`read_config`, `save_config`): file I/O and parsing.
  The merge takes already-parsed mappings.
- `require_empty_dir`, the git helpers and the rest of the package: they touch the file system or
  run processes.
- `main`, `parse_argv` and `validate_environment` of `process_data`. The options reach
  `OverrideConfig` as already-parsed values. `str()` of a path, and its normalisation, is assumed
  to have been applied already.
- ProcessData.ValidateValues: the path checks of `validate_config` come first in the source
  (lines 253-265). They test the file system and can exit or raise before the value checks run.
- The data processing the script performs after validation: it is outside configuration handling.
- Scripting.UpdateConfig: the `copy` flag is dropped. Under `copy=False` Python mutates the
  original in place, and a failure leaves it partly updated. New keys, overwritten lists and
  `None`-seeded subtrees share objects with the update. A pure model has no aliasing, and the
  isolation that `copy=True` gives holds by construction. The sharing changes what
  `merge_config_files` returns, not only the caller's inputs. A later configuration merges
  in place into sub-objects taken from an earlier one: a new key's value without defaults, or
  the sub-objects under a `None`-seeded subtree (line 154) with defaults. So both the earlier
  configuration and any later use of it see the change. Example: with `c1 = {'A': {'Y': 1}}`,
  `c2 = {'A': {'Y': 2}}` and no defaults, `merge_config_files([c1, c2, c1])` gives `A.Y == 2` in
  Python, because merging `c2` rewrote `c1['A']`. The model gives `A.Y == 1`.
- Scripting.UpdateConfig: Python raises for the first offending key in insertion order. The model
  has no key order and returns every error of the failing level, so which error is raised is not
  modelled.
- ProcessData.OverrideConfig: the `copy` parameter is dropped (`src/lexpkg/bin/process_data.py:185-188`).
  With `copy=False` Python writes the options into the caller's `cfg`, and a `KeyError` at
  line 193 leaves the paths of lines 190 and 192 already written. The model returns a new mapping
  and leaves the input untouched, which is the default `copy=True` behaviour.
- ProcessData.ReformatConfig: Python always writes into its argument (lines 231 and 238). If the
  lookup at line 237 raises after line 231 ran, the caller's `cfg` keeps the new
  `scoring.new_kwarg`. The model returns a new mapping or an error, and never a half-updated input.
- Scripting.UpdateEntry: three shape clashes do not raise in Python, but the model reports
  `NotMergeable` for them:
  - an empty mapping update onto a list original (with `copy=True`) returns a copy of the list;
  - an empty mapping update onto any non-mapping original (with `copy=False`) returns that value;
  - under the default list policy, a truthy mapping original whose keys contain every element of
    the list update returns a copy of that mapping.
- Scripting.MergeError: every shape clash is one `NotMergeable` error. The exception class
  Python raises is not modelled. For a list original, and for a string original under
  `copy=False`, the test `key not in original` runs before the failing subscript, so Python can
  raise a `KeyError` there instead. Under `copy=True` a string original raises `AttributeError`
  at `original.copy()` (line 145) first.
- Scripting.MergeError: the key path is the model's addition. Python's `KeyError` names only the
  innermost key, and the other exceptions name no key.
- UpdateLists.UpdateList: membership uses the model's structural equality. Python's `1 == True == 1.0`
  across types, and NaN, are not modelled, and floats are reals.
- Scripting.UpdateConfig: keys are strings. Other hashable keys that YAML or Python allow are not
  modelled.
- ProcessData.SetIfPresent: a non-mapping `outputs.logging` with a log option is reported as a
  `TypeError`. Python applies `in` first, so a list or string that does not contain `level` or
  `filename` passes unchanged.
- YAML anchors and aliases, which can make one configuration share a sub-mapping between keys:
  parsing is not modelled, and neither is the sharing. `deepcopy` keeps it, so in Python's result
  an update through one aliased key also changes the other; the model's values are trees and
  change only the key that was updated.
