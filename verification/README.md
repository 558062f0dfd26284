# Agent-friendly git wrapper: a Dafny model of its core

The wrapper is a router that sits between an agent and `git`/`gh`. It decides which tool a
command goes to and refuses commands that break configured guardrails. It parses its own
diff and log flags. It rewrites unified diffs into a compact form that costs fewer tokens,
and it can search for the compact settings that give the smallest output. It also summarises
pull-request checks and merges a notes block into a PR body. Branches are classified against
merge policies and their upstream, and a log entry is written for every run.

This project models that core in Dafny and proves properties of the model:

| file | module | models |
|---|---|---|
| `wrappers.dfy` | `Wrappers` | `Option`, `Result` and the Python exceptions the core raises |
| `text.dfy` | `Text` | the `str` operations the core relies on: `strip`, `lower`, `upper`, `split`, `split()`, `join`, `find`, `startswith`, `int()` |
| `values.dfy` | `Values` | configuration values read from YAML, as insertion-ordered dicts, and `dict.get`, assignment, `bool()`, `str()` and iteration on them |
| `config_loader.dfy` | `ConfigLoader` | `app/config/config_loader.py`: deep merge, option overlay and the readers of the `router` settings |
| `compact_spec.dfy` | `CompactSpec` | `_parse_compact_spec` and `_apply_compact_options` of `app/compact/compact.py` |
| `compact_rewrite.dfy` | `CompactRewrite` | `_compact_output` of `app/compact/compact.py`: path discovery, the common directory prefix, the path table, the hunk-header pattern and the line loop |
| `compact_tune.dfy` | `CompactTune` | `_measure_text`, `_auto_tune_compact` and `_render_compact_output` |
| `cli_parse.dfy` | `CliParse` | `app/cli/cli_parse.py`: noise, list and ops arguments, the diff-style and log-style flag loops, diff arguments and pathspecs |
| `routing.dfy` | `Routing` | `app/routing/routing.py`: the command table, tool choice, per-tool command overrides and built-in dispatch |
| `guardrails.dfy` | `Guardrails` | `app/policy/guardrails.py`: safe mode, clean worktree, protected branches, branch names and merge policies |
| `pr_cmd.dfy` | `PullRequest` | the notes-block markers, extraction and merge, and the check summary of `app/commands/pr_cmd.py` |
| `branch_cmd.dfy` | `BranchHygiene` | the branch configuration, glob matching, merge-policy status and sync status of `app/commands/branch_cmd.py` |
| `log_utils.dfy` | `LogUtils` | `TeeStream` and the plain-text log entry of `app/utils/log_utils.py` |
| `runtime.dfy` | `Runtime` | `RuntimeContext` of `app/utils/runtime.py` |

Loops that update local state are modelled as methods with `while` loops. Each is proved
equal to a specification function, and the lemmas are stated about that function. Examples
are the discovery, numbering and line loops of `_compact_output`, the candidate search, the
flag scanners, `_deep_merge` and the check summary. `TeeStream` and `RuntimeContext` update
their fields in place, so they are classes. Everything else is pure functions over values.

Configuration dicts are sequences of `(key, value)` pairs in insertion order. A lookup takes
the first pair with the key. An assignment replaces that pair, or appends one when the key
is missing. This matches how a Python dict iterates, so the model keeps the source's
ordering: "the last entry wins" and "paths in the order first met" are stated and proved in
those terms. Every exception the source raises is an `Err` carrying the same message.

## Model

| member | source | states |
|---|---|---|
| ConfigLoader.DeepMerge | projects/agent-friendly-git-wrapper/app/config/config_loader.py:22-30 | the copy-then-assign loop returns the recursive deep merge of `base` and `override` |
| ConfigLoader.DeepMergeFromKeys | projects/agent-friendly-git-wrapper/app/config/config_loader.py:24-30 | after the loop from entry `i` on, the keys are the base keys followed by the override keys from `i` on |
| ConfigLoader.DeepMergeKeys | projects/agent-friendly-git-wrapper/app/config/config_loader.py:22-30 | the merged dict has exactly the keys of both inputs |
| ConfigLoader.DeepMergeFromValues | projects/agent-friendly-git-wrapper/app/config/config_loader.py:24-30 | a key not overridden from `i` on keeps its value; an overridden key takes the override value, merged recursively when both sides are dicts |
| ConfigLoader.DeepMergeValues | projects/agent-friendly-git-wrapper/app/config/config_loader.py:22-30 | each override key takes the override value (merged recursively when both sides are dicts); every other key keeps its base value |
| ConfigLoader.MergeCompactOptions | projects/agent-friendly-git-wrapper/app/config/config_loader.py:136-141 | the loop returns the base with every override key assigned |
| ConfigLoader.OverlayFromFacts | projects/agent-friendly-git-wrapper/app/config/config_loader.py:138-141 | keys and values after the overlay loop from entry `i` on |
| ConfigLoader.OverlayFacts | projects/agent-friendly-git-wrapper/app/config/config_loader.py:136-141 | override keys take the override values, other base keys keep theirs, and the keys are those of both dicts |
| ConfigLoader.StrOrEmpty | projects/agent-friendly-git-wrapper/app/config/config_loader.py:117 | `str(v or dflt)` is empty exactly when `v` is falsy and the default is empty |
| ConfigLoader.CompactRecord | projects/agent-friendly-git-wrapper/app/config/config_loader.py:105-124 | the record holds the 18 option keys, in the source's order |
| ConfigLoader.LoadCompactDefaults | projects/agent-friendly-git-wrapper/app/config/config_loader.py:97-124 | a missing or `None` section gives the default record; a non-dict raises the source's message; a result always has the 18 keys in order |
| ConfigLoader.PrefixTokenNonEmpty | projects/agent-friendly-git-wrapper/app/config/config_loader.py:121 | the loaded path prefix token is never empty |
| ConfigLoader.DictSetting | projects/agent-friendly-git-wrapper/app/config/config_loader.py:127-133 | a falsy setting gives `{}`, a dict is returned, any other truthy value raises the given message |
| ConfigLoader.LoadCompactProfiles | projects/agent-friendly-git-wrapper/app/config/config_loader.py:144-150 | `None` or absent gives `{}`, a dict is returned, a non-dict raises `router compact_profiles must be a dict` |
| ConfigLoader.LoadHistoryCompactMetaOverrides | projects/agent-friendly-git-wrapper/app/config/config_loader.py:127-133 | `None` or absent gives `{}`, a dict is returned, a non-dict raises its message |
| ConfigLoader.NonBlankStrs | projects/agent-friendly-git-wrapper/app/config/config_loader.py:74 | keeps at most one string per item |
| ConfigLoader.NonBlankStrsNonBlank | projects/agent-friendly-git-wrapper/app/config/config_loader.py:74 | every kept flag is non-blank |
| ConfigLoader.LoadNoiseFlags | projects/agent-friendly-git-wrapper/app/config/config_loader.py:59-74 | falsy flags give `[]`; truthy flags that are not a list raise; every returned flag is non-blank |
| ConfigLoader.NoiseFlagsOfMissingLevel | projects/agent-friendly-git-wrapper/app/config/config_loader.py:65-71 | a level that is not configured has no flags |
| ConfigLoader.NonBlankStrsKeepsStrings | projects/agent-friendly-git-wrapper/app/config/config_loader.py:74 | flags that are all non-blank strings come back unchanged and in order |
| ConfigLoader.ResolveNoiseLevel | projects/agent-friendly-git-wrapper/app/config/config_loader.py:77-83 | the level is never empty: the stripped argument when non-blank, else the configured default, else `max`; the flags are those of that level |
| ConfigLoader.LoadDefaultExcludes | projects/agent-friendly-git-wrapper/app/config/config_loader.py:86-94 | falsy gives `[]`, a non-list raises its message, and a list gives `StrippedNonBlank` of its items: each pattern is non-empty and already stripped |
| Values.StrippedNonBlankConcat | projects/agent-friendly-git-wrapper/app/config/config_loader.py:94 | the comprehension filters the items one at a time, in order: the entries of `a + b` are those of `a`, then those of `b` |
| Values.StrippedNonBlankMembers | projects/agent-friendly-git-wrapper/app/config/config_loader.py:94 | each entry is its own strip, and a string is an entry exactly when it is the non-empty strip of some item |
| CompactSpec.AfterFirst | projects/agent-friendly-git-wrapper/app/compact/compact.py:101 | the text after the first `=` (empty without one), as `split("=", 1)[1]` reads it |
| CompactSpec.KeywordAssignments | projects/agent-friendly-git-wrapper/app/compact/compact.py:117-189 | only a keyword token assigns options, and no keyword contains `=` or looks like `uN`; the assignments of one keyword name distinct keys |
| CompactSpec.ParseCompactSpec | projects/agent-friendly-git-wrapper/app/compact/compact.py:89-197 | the token loop returns what the spec parser gives: the options, or the error of the first failing token |
| CompactSpec.ApplyCompactOptions | projects/agent-friendly-git-wrapper/app/compact/compact.py:12-26 | disabled: nothing changes; enabled: the parsed options, the context kept when set and read from the options otherwise, and the `no_prefix` flag |
| CompactSpec.BlankPartsKeepOptions | projects/agent-friendly-git-wrapper/app/compact/compact.py:94-97 | a spec made only of blank pieces leaves the defaults unchanged |
| CompactSpec.ApplyPartsConcat | projects/agent-friendly-git-wrapper/app/compact/compact.py:94-196 | applying two runs of pieces is applying the first, then the second over its result |
| CompactSpec.ParseSpecConcat | projects/agent-friendly-git-wrapper/app/compact/compact.py:89-197 | parsing `a,b` is parsing `a`, then parsing `b` over its result, so a later token overrides an earlier one |
| CompactSpec.ContextToken | projects/agent-friendly-git-wrapper/app/compact/compact.py:190-192 | `context=N` sets the context to `N` |
| CompactSpec.UnifiedToken | projects/agent-friendly-git-wrapper/app/compact/compact.py:193-195 | `uN` sets the context to `N` |
| CompactSpec.PathTableKeyword | projects/agent-friendly-git-wrapper/app/compact/compact.py:165-168 | `path-table`, `path-id` and `path-ids` are keywords that assign `path_table` and `short_diff_header` |
| CompactSpec.PathTableToken | projects/agent-friendly-git-wrapper/app/compact/compact.py:165-168 | these tokens set both `path_table` and `short_diff_header` to true |
| CompactSpec.ProfileToken | projects/agent-friendly-git-wrapper/app/compact/compact.py:100-116 | a profile, named directly or through `profile=NAME`, overlays its entries on the options |
| CompactSpec.ProfilePathTableNotCoupled | projects/agent-friendly-git-wrapper/app/compact/compact.py:111-116 | a profile that sets `path_table` leaves `short_diff_header` as it was |
| CompactSpec.ApplyPartsErrorFromPiece | projects/agent-friendly-git-wrapper/app/compact/compact.py:94-196 | every error the parser reports is the error of one non-blank piece of the spec |
| CompactSpec.SinglePiece | projects/agent-friendly-git-wrapper/app/compact/compact.py:94-98 | a spec of one non-blank piece applies that piece, stripped |
| CompactSpec.LastKeywordWins | projects/agent-friendly-git-wrapper/app/compact/compact.py:117-189 | a keyword at the end of a spec leaves each option it assigns with the keyword's value, whatever came before |
| CompactSpec.TokenSpec | projects/agent-friendly-git-wrapper/app/compact/compact.py:94-98 | a spec that is one stripped token applies that token |
| CompactSpec.KeywordSpec | projects/agent-friendly-git-wrapper/app/compact/compact.py:117-189 | a spec that is one keyword makes exactly that keyword's assignments |
| CompactSpec.TrailingTokenError | projects/agent-friendly-git-wrapper/app/compact/compact.py:196 | a failing last token makes the whole spec fail with its error |
| CompactSpec.UnknownOptionIff | projects/agent-friendly-git-wrapper/app/compact/compact.py:99-196 | a token is refused as `unknown compact option '<token>'` exactly when it takes none of the known forms (`profile=`, a profile name, a keyword, `path-strip=`, `path-prefix-token=`, `context=`, `u` and digits) |
| CompactSpec.UnknownOptionSpec | projects/agent-friendly-git-wrapper/app/compact/compact.py:94-196 | a spec that is such a token, or ends in one after pieces that parse, fails with that token named |
| CompactSpec.ProfileErrors | projects/agent-friendly-git-wrapper/app/compact/compact.py:100-108 | an empty profile name, an unknown or `None` profile, and a non-dict profile each raise their own message |
| CompactRewrite.FlagsOf | projects/agent-friendly-git-wrapper/app/compact/compact.py:204-219 | the path prefix token is never empty, and `path_strip` is empty exactly when the option is falsy |
| CompactRewrite.StripSide | projects/agent-friendly-git-wrapper/app/compact/compact.py:236-237 | a path loses at most its two-character `a/` or `b/` side marker |
| CompactRewrite.StripConfigured | projects/agent-friendly-git-wrapper/app/compact/compact.py:238-241 | the result is a suffix of the path, and equals the path when the strip prefix is empty or not at its start |
| CompactRewrite.PathOfWords | projects/agent-friendly-git-wrapper/app/compact/compact.py:230-243 | the path is a suffix of the `b/` word when it has the marker, else of the `a/` word; without strip or basename it is that word minus its marker; with basename it has no `/` |
| CompactRewrite.ExtractPath | projects/agent-friendly-git-wrapper/app/compact/compact.py:228-244 | a line of fewer than four words names no path; otherwise the path is read from its words |
| CompactRewrite.Discovered | projects/agent-friendly-git-wrapper/app/compact/compact.py:246-251 | the discovered paths are non-empty and distinct |
| CompactRewrite.DiscoveredSound | projects/agent-friendly-git-wrapper/app/compact/compact.py:246-251 | every discovered path is the path of some `diff --git` line |
| CompactRewrite.DiscoveredComplete | projects/agent-friendly-git-wrapper/app/compact/compact.py:246-251 | every `diff --git` line that names a path contributes it |
| CompactRewrite.DiscoveredGrows | projects/agent-friendly-git-wrapper/app/compact/compact.py:246-251 | paths are in the order first met: a prefix of the diff discovers a prefix of the list |
| CompactRewrite.DiscoverPaths | projects/agent-friendly-git-wrapper/app/compact/compact.py:246-251 | the discovery loop computes `Discovered` |
| CompactRewrite.CommonCount | projects/agent-friendly-git-wrapper/app/compact/compact.py:270-272 | the shared segment count lies between the start index and the shortest directory list |
| CompactRewrite.CommonCountAgrees | projects/agent-friendly-git-wrapper/app/compact/compact.py:270-272 | every list agrees with the first on all counted segments, and some list differs at the first uncounted one |
| CompactRewrite.CommonDirPrefix | projects/agent-friendly-git-wrapper/app/compact/compact.py:253-275 | the prefix is empty or ends with `/`; it is empty when there are no paths or some path has no `/` |
| CompactRewrite.CommonDirPrefixIsPrefix | projects/agent-friendly-git-wrapper/app/compact/compact.py:253-275 | the prefix starts every path and ends at a segment boundary in each |
| CompactRewrite.DirectoryLists | projects/agent-friendly-git-wrapper/app/compact/compact.py:258-264 | the path loop gives up exactly when some path holds no `/`, and otherwise lists the directories of every path in order |
| CompactRewrite.CommonDirPrefixOf | projects/agent-friendly-git-wrapper/app/compact/compact.py:253-275 | the loops compute `CommonDirPrefix` |
| CompactRewrite.ApplyCommonPrefix | projects/agent-friendly-git-wrapper/app/compact/compact.py:279-286 | a path outside the prefix is unchanged; one under it is displayed starting with the prefix token |
| CompactRewrite.CommonPrefixRoundTrip | projects/agent-friendly-git-wrapper/app/compact/compact.py:279-286 | the displayed form of a path under the prefix reads back into the path, when the path has no extra `/` after the prefix |
| CompactRewrite.TakeDigits | projects/agent-friendly-git-wrapper/app/compact/compact.py:344 | the longest prefix made of digits: all digits, and the next character is not a digit |
| CompactRewrite.ParseRange | projects/agent-friendly-git-wrapper/app/compact/compact.py:344 | a matched range `\d+(?:,\d+)?` is non-empty digits, and the input is its rendering followed by the rest |
| CompactRewrite.ParseHunkHeader | projects/agent-friendly-git-wrapper/app/compact/compact.py:344 | a matched header yields non-empty digit groups |
| CompactRewrite.ParseOldRange | projects/agent-friendly-git-wrapper/app/compact/compact.py:344 | a matched old range yields a well-formed hunk |
| CompactRewrite.ParseNewRange | projects/agent-friendly-git-wrapper/app/compact/compact.py:344 | a matched new range yields a well-formed hunk |
| CompactRewrite.HunkRoundTrip | projects/agent-friendly-git-wrapper/app/compact/compact.py:344-349 | matching a rendered header gives back its hunk, whatever follows the closing `@@` |
| CompactRewrite.OldRangeRoundTrip | projects/agent-friendly-git-wrapper/app/compact/compact.py:344 | the old-range part of the round trip |
| CompactRewrite.NewRangeRoundTrip | projects/agent-friendly-git-wrapper/app/compact/compact.py:344 | the new-range part of the round trip |
| CompactRewrite.HunkMatchIsRendering | projects/agent-friendly-git-wrapper/app/compact/compact.py:344-349 | a line the pattern matches is the rendering of the hunk it yields, followed by some tail |
| CompactRewrite.OldRangeIsRendering | projects/agent-friendly-git-wrapper/app/compact/compact.py:344 | the old-range part of the converse |
| CompactRewrite.NewRangeIsRendering | projects/agent-friendly-git-wrapper/app/compact/compact.py:344 | the new-range part of the converse |
| CompactRewrite.PathIdsNumbering | projects/agent-friendly-git-wrapper/app/compact/compact.py:288-291 | the table numbers the paths 1, 2, ... in their order |
| CompactRewrite.PathIdsSnoc | projects/agent-friendly-git-wrapper/app/compact/compact.py:290 | numbering one more path keeps the earlier numbers |
| CompactRewrite.PathIdAt | projects/agent-friendly-git-wrapper/app/compact/compact.py:290 | the path at position `j` has id `j + 1` |
| CompactRewrite.NumberNext | projects/agent-friendly-git-wrapper/app/compact/compact.py:290 | one step of the numbering loop gives the next path `len(path_ids) + 1` |
| CompactRewrite.DisplayNext | projects/agent-friendly-git-wrapper/app/compact/compact.py:291 | one step of the numbering loop records the next path's displayed form |
| CompactRewrite.NumberPaths | projects/agent-friendly-git-wrapper/app/compact/compact.py:288-291 | the numbering loop builds the id map (one id per path) and the display map |
| CompactRewrite.TableLines | projects/agent-friendly-git-wrapper/app/compact/compact.py:292-294 | the table loop emits `files[N]{id,path}:` and then one `  id,path` row per path |
| CompactRewrite.CtxIds | projects/agent-friendly-git-wrapper/app/compact/compact.py:288-291 | the context's table numbers the discovered paths 1, 2, ... in the order met |
| CompactRewrite.TableRowsUseIds | projects/agent-friendly-git-wrapper/app/compact/compact.py:288-294 | the table opens with the number of paths, then lists each with its id and its displayed form |
| CompactRewrite.DroppedLineShape | projects/agent-friendly-git-wrapper/app/compact/compact.py:296-326 | only `index`, `---`, `+++`, file-mode, similarity, rename/copy and binary lines are dropped outright |
| CompactRewrite.StepMatchedHunk | projects/agent-friendly-git-wrapper/app/compact/compact.py:340-355 | with `short_hunk_header`, a matched header becomes `@ a,b c,d` (or `@ c`) even under `drop_hunk_header`, and the marker run ends |
| CompactRewrite.StepShortHunk | projects/agent-friendly-git-wrapper/app/compact/compact.py:344-353 | a rendered header is shortened to its own ranges, a missing length shown as 1 |
| CompactRewrite.StepOtherHunkLine | projects/agent-friendly-git-wrapper/app/compact/compact.py:340-369 | an unmatched hunk header is kept unless `drop_hunk_header` is on, and ends the marker run |
| CompactRewrite.StepShortDiffHeader | projects/agent-friendly-git-wrapper/app/compact/compact.py:327-335 | with `short_diff_header` and `path_table`, a `diff --git` line whose path is in the table becomes `f <id>` |
| CompactRewrite.StepShortDiffHeaderId | projects/agent-friendly-git-wrapper/app/compact/compact.py:327-335 | every `diff --git` line that names a path is then shortened to `f <id>`, the id being its place in the table |
| CompactRewrite.RunQuiet | projects/agent-friendly-git-wrapper/app/compact/compact.py:295-383 | with every line-changing option off, the loop keeps every line |
| CompactRewrite.RewriteQuiet | projects/agent-friendly-git-wrapper/app/compact/compact.py:200-385 | with every option off the rewrite returns its input |
| CompactRewrite.StepContentLine | projects/agent-friendly-git-wrapper/app/compact/compact.py:359-368 | under `prefix_first_only`, a change line loses its marker exactly when it repeats the previous marker |
| CompactRewrite.RunContent | projects/agent-friendly-git-wrapper/app/compact/compact.py:359-368 | on a run of change lines, the loop equals an independent marker-dedup definition |
| CompactRewrite.TrailingNewlineNotOnlyFromInput | projects/agent-friendly-git-wrapper/app/compact/compact.py:359-385 | an input without a final newline can yield an output that ends with one |
| CompactRewrite.Rewrite | projects/agent-friendly-git-wrapper/app/compact/compact.py:200-385 | empty input gives empty output, and an input that ends with a newline gives an output that does |
| CompactRewrite.RunLines | projects/agent-friendly-git-wrapper/app/compact/compact.py:295-383 | the main loop computes `Run`: the kept lines and the last marker |
| CompactRewrite.CompactOutput | projects/agent-friendly-git-wrapper/app/compact/compact.py:200-385 | `_compact_output` with its loops computes the specification `Compact` |
| CompactTune.MeasureText | projects/agent-friendly-git-wrapper/app/compact/compact.py:45-53 | the token count under `tokens` when a tokenizer is available, otherwise the number of characters |
| CompactTune.Evaluate | projects/agent-friendly-git-wrapper/app/compact/compact.py:72-73 | a candidate's record holds its options, their rewrite and that rewrite's measure |
| CompactTune.AutoTune | projects/agent-friendly-git-wrapper/app/compact/compact.py:56-86 | empty text is returned as is; with auto-tune off, the plain rewrite |
| CompactTune.RenderCompactOutput | projects/agent-friendly-git-wrapper/app/compact/compact.py:29-42 | compaction without a patch raises the given message; compaction off returns the text |
| CompactTune.TuneNeverWorse | projects/agent-friendly-git-wrapper/app/compact/compact.py:75-84 | the best record stays the evaluation of its own options, its score never rises, and it moves only to a strictly smaller one |
| CompactTune.TuneErrorFromCandidate | projects/agent-friendly-git-wrapper/app/compact/compact.py:75-78 | the search fails only when some non-blank string candidate does not parse |
| CompactTune.TuneSkipsBlank | projects/agent-friendly-git-wrapper/app/compact/compact.py:76-77 | blank and non-string candidates leave the search where it is |
| CompactTune.AutoTuneNeverWorse | projects/agent-friendly-git-wrapper/app/compact/compact.py:56-86 | the tuned output is the rewrite under some options and measures no more than the rewrite under the configured options |
| CompactTune.ParserApplies | projects/agent-friendly-git-wrapper/app/compact/compact.py:78 | the search parses a candidate over the best options with the configured profiles |
| CompactTune.EvaluatorApplies | projects/agent-friendly-git-wrapper/app/compact/compact.py:79-80 | the search rewrites and measures under the candidate options |
| CompactTune.TuneStep | projects/agent-friendly-git-wrapper/app/compact/compact.py:75-84 | the search from position `i` is one candidate step followed by the search from `i + 1` |
| CompactTune.SearchCandidates | projects/agent-friendly-git-wrapper/app/compact/compact.py:71-84 | the candidate loop computes the search `Tune` from the configured options |
| CompactTune.AutoTuneCompact | projects/agent-friendly-git-wrapper/app/compact/compact.py:56-86 | `_auto_tune_compact` with its loop computes `AutoTune` |
| CliParse.ParseNoiseFlag | projects/agent-friendly-git-wrapper/app/cli/cli_parse.py:7-16 | handled exactly for `--noise=` or `--noise`; `--noise=V` gives stripped `V`; `--noise` takes the next token unless it starts with `-`, else `max`; one or two tokens are consumed |
| CliParse.KeptParts | projects/agent-friendly-git-wrapper/app/cli/cli_parse.py:22-25 | the kept parts are the non-blank parts, stripped, in order |
| CliParse.ParseListArg | projects/agent-friendly-git-wrapper/app/cli/cli_parse.py:19-26 | the loop returns the stripped non-blank comma parts |
| CliParse.KeptPartsStripped | projects/agent-friendly-git-wrapper/app/cli/cli_parse.py:19-26 | every item is stripped and non-empty |
| CliParse.KeptPartsOfItems | projects/agent-friendly-git-wrapper/app/cli/cli_parse.py:19-26 | stripped, non-empty, comma-free items are all kept unchanged |
| CliParse.ListItemsOfJoin | projects/agent-friendly-git-wrapper/app/cli/cli_parse.py:19-26 | joining such items with commas and parsing gives them back |
| CliParse.LabelLetter | projects/agent-friendly-git-wrapper/app/cli/cli_parse.py:31-41 | a looked-up letter is one of the table's letters |
| CliParse.OpLetter | projects/agent-friendly-git-wrapper/app/cli/cli_parse.py:44-53 | a single letter or a label gives an upper-case letter; a blank item is skipped; anything else raises |
| CliParse.SortedPrefix | projects/agent-friendly-git-wrapper/app/cli/cli_parse.py:54 | strictly increasing, and holding exactly the given letters among the first `n` of the alphabet |
| CliParse.SortedLetters | projects/agent-friendly-git-wrapper/app/cli/cli_parse.py:54 | `"".join(sorted(set(letters)))`: strictly increasing and holding exactly the given upper-case letters |
| CliParse.ParseOps | projects/agent-friendly-git-wrapper/app/cli/cli_parse.py:29-54 | the loop computes `Ops`: letters collected item by item, then sorted without duplicates |
| CliParse.CollectErrorStays | projects/agent-friendly-git-wrapper/app/cli/cli_parse.py:43-53 | an error in a prefix of the items is the error of the whole list |
| CliParse.CollectError | projects/agent-friendly-git-wrapper/app/cli/cli_parse.py:43-53 | the list fails exactly when some item is refused |
| CliParse.CollectMembers | projects/agent-friendly-git-wrapper/app/cli/cli_parse.py:43-53 | the letters are exactly those the items name |
| CliParse.OpsSortedDistinct | projects/agent-friendly-git-wrapper/app/cli/cli_parse.py:29-54 | the result is strictly increasing, holds exactly the letters its items name, and fails exactly when some item is unknown |
| CliParse.DiffKind | projects/agent-friendly-git-wrapper/app/cli/cli_parse.py:88-166 | a token is positional exactly when it does not start with `-`, and a value flag exactly when it is one of the flags that read a value |
| CliParse.TakeDiffValue | projects/agent-friendly-git-wrapper/app/cli/cli_parse.py:88-158 | the settings after a value flag has read its value |
| CliParse.DiffStep | projects/agent-friendly-git-wrapper/app/cli/cli_parse.py:80-166 | one pass consumes at least one token and never more than remain |
| CliParse.ParseDiffStyleArgs | projects/agent-friendly-git-wrapper/app/cli/cli_parse.py:57-182 | the `while` loop computes the diff-style settings and positionals, or the first error |
| CliParse.ScanDiffArgs | projects/agent-friendly-git-wrapper/app/cli/cli_parse.py:80-166 | the loop over the remaining tokens ends with the settings the scan reaches from the starting settings, or with the first error it meets |
| CliParse.DiffScanUnfold | projects/agent-friendly-git-wrapper/app/cli/cli_parse.py:80-166 | the scan after one successful step continues from the tokens left |
| CliParse.DiffScanStep | projects/agent-friendly-git-wrapper/app/cli/cli_parse.py:80-166 | one pass of the loop, as the scan sees it |
| CliParse.DiffScanValue | projects/agent-friendly-git-wrapper/app/cli/cli_parse.py:88-158 | a value flag reads the token after it, whatever that token is |
| CliParse.DiffValueFlagAtEnd | projects/agent-friendly-git-wrapper/app/cli/cli_parse.py:89-90 | a value flag with nothing after it raises `requires a value` |
| CliParse.DiffUnknownDash | projects/agent-friendly-git-wrapper/app/cli/cli_parse.py:159-160 | an unknown dash token raises `unknown argument`, whatever follows |
| CliParse.DiffContextConsumed | projects/agent-friendly-git-wrapper/app/cli/cli_parse.py:88-95 | `--context N` records `N` and marks the context as set |
| CliParse.DiffStepKeeps | projects/agent-friendly-git-wrapper/app/cli/cli_parse.py:80-166 | one step keeps the scan invariants |
| CliParse.DiffScanKeeps | projects/agent-friendly-git-wrapper/app/cli/cli_parse.py:80-166 | `context_set` holds exactly when a context is set; a set context stays set; the settings change only through their own flags |
| CliParse.ExcludeArgs | projects/agent-friendly-git-wrapper/app/cli/cli_parse.py:146-151 | `--exclude v` for each value: two tokens per value |
| CliParse.DiffExcludeStep | projects/agent-friendly-git-wrapper/app/cli/cli_parse.py:146-151 | one `--exclude` appends the items of its value |
| CliParse.DiffExcludesInOrder | projects/agent-friendly-git-wrapper/app/cli/cli_parse.py:146-151 | `--exclude` values extend the excludes in the order given |
| CliParse.DiffStyleExcludes | projects/agent-friendly-git-wrapper/app/cli/cli_parse.py:72-151 | the excludes are the configured defaults followed by the listed values, in order |
| CliParse.DiffPositionals | projects/agent-friendly-git-wrapper/app/cli/cli_parse.py:161-166 | tokens without a dash become positionals in order when allowed, and raise otherwise |
| CliParse.LogStep | projects/agent-friendly-git-wrapper/app/cli/cli_parse.py:197-233 | one pass consumes at least one token and never more than remain |
| CliParse.ParseLogLikeArgs | projects/agent-friendly-git-wrapper/app/cli/cli_parse.py:185-244 | the `while` loop computes the log settings and leftover tokens, or the first error |
| CliParse.LogScanUnfold | projects/agent-friendly-git-wrapper/app/cli/cli_parse.py:197-233 | the scan after one successful step continues from the tokens left |
| CliParse.LogScanStep | projects/agent-friendly-git-wrapper/app/cli/cli_parse.py:197-233 | one pass of the loop, as the scan sees it |
| CliParse.LogKeepsUnrecognised | projects/agent-friendly-git-wrapper/app/cli/cli_parse.py:232-233 | tokens that are not log flags are all kept, in their original order |
| CliParse.LogScanValue | projects/agent-friendly-git-wrapper/app/cli/cli_parse.py:199-226 | a log value flag reads the token after it, whatever that token is |
| CliParse.LogValueConsumed | projects/agent-friendly-git-wrapper/app/cli/cli_parse.py:206-226 | `--since`, `--range` and `--path` take the next token, even another flag, and store it stripped |
| CliParse.LogCountConsumed | projects/agent-friendly-git-wrapper/app/cli/cli_parse.py:199-205 | `--n` takes an integer, and a value `int()` refuses raises |
| CliParse.LogValueFlagAtEnd | projects/agent-friendly-git-wrapper/app/cli/cli_parse.py:199-226 | a value flag with nothing after it raises `requires a value` |
| CliParse.BuildDiffArgs | projects/agent-friendly-git-wrapper/app/cli/cli_parse.py:247-279 | starts `diff`, then the range when given; the patch is included exactly when `--patch` is among the flags, which happens exactly in detail mode with detail not 0 or 1 |
| CliParse.BuildPathspecs | projects/agent-friendly-git-wrapper/app/cli/cli_parse.py:282-289 | the includes in order, then each exclude behind `:(exclude)` |
| CliParse.ValidateStatNameStatus | projects/agent-friendly-git-wrapper/app/cli/cli_parse.py:292-295 | raises exactly when both are requested, with the source's message |
| Routing.Named | projects/agent-friendly-git-wrapper/app/routing/routing.py:50-51 | one normalised entry per configured entry |
| Routing.ApplyCommand | projects/agent-friendly-git-wrapper/app/routing/routing.py:51-59 | a blank name changes nothing; a non-blank name adds exactly that command to the table |
| Routing.ApplyCommandKeepsOthers | projects/agent-friendly-git-wrapper/app/routing/routing.py:51-59 | an entry leaves every other command's meta as it was |
| Routing.LoadCommands | projects/agent-friendly-git-wrapper/app/routing/routing.py:43-60 | the loop computes the command table |
| Routing.CommandsAfterSnoc | projects/agent-friendly-git-wrapper/app/routing/routing.py:50-59 | one more entry, as the table sees it |
| Routing.CommandsAfterKeys | projects/agent-friendly-git-wrapper/app/routing/routing.py:43-60 | the table holds `state` and exactly the configured non-blank names |
| Routing.StateKept | projects/agent-friendly-git-wrapper/app/routing/routing.py:46-60 | `state` keeps its defaults unless some configured name normalises to `state` |
| Routing.LastCommandEntry | projects/agent-friendly-git-wrapper/app/routing/routing.py:54-59 | the last entry decides: a non-dict sets only `enabled`, a dict merges over what was there |
| Routing.LowerSet | projects/agent-friendly-git-wrapper/app/routing/routing.py:63-65 | fails exactly when `values or []` cannot be iterated; otherwise a name is in the set exactly when it is the lower-cased non-empty strip of some item, so `""` never is |
| Routing.OverrideStep | projects/agent-friendly-git-wrapper/app/routing/routing.py:74-77 | a non-blank name takes `bool(value)`; a blank one changes nothing |
| Routing.NormalizeOverrides | projects/agent-friendly-git-wrapper/app/routing/routing.py:68-78 | the loop computes the overrides, `{}` for a non-dict |
| Routing.OverridesAfterSnoc | projects/agent-friendly-git-wrapper/app/routing/routing.py:73-77 | one more entry, as the overrides see it |
| Routing.OverridesLastWins | projects/agent-friendly-git-wrapper/app/routing/routing.py:68-78 | a name is overridden exactly when some entry carries it, and the last such entry gives its flag |
| Routing.Settings | projects/agent-friendly-git-wrapper/app/routing/routing.py:83-87 | the overlap default is never empty |
| Routing.Fallback | projects/agent-friendly-git-wrapper/app/routing/routing.py:103-111 | the preferred tool when enabled, else git, else gh, else the preferred name; enabled whenever either tool is |
| Routing.PickTool | projects/agent-friendly-git-wrapper/app/routing/routing.py:81-133 | a non-empty tool override is returned as is |
| Routing.PickToolOrder | projects/agent-friendly-git-wrapper/app/routing/routing.py:89-133 | overlap entries first, then the git-only list, then the gh-only list, then the unknown-command policy |
| Routing.PickToolEnabled | projects/agent-friendly-git-wrapper/app/routing/routing.py:101-133 | outside the only-lists the choice is an enabled tool whenever one is, and only a non-passthrough policy raises |
| Routing.CommandAllowedOverride | projects/agent-friendly-git-wrapper/app/routing/routing.py:136-144 | the tool's last override for the command decides; with none, `default_command_enabled` (true by default) |
| Routing.ToolEnabledOnlyGitGh | projects/agent-friendly-git-wrapper/app/routing/routing.py:147-154 | only `git` and `gh` are ever enabled, and both are without a router section |
| Routing.BuiltinHandler | projects/agent-friendly-git-wrapper/app/routing/routing.py:215-232 | `None` exactly for a command outside the table; a disabled command raises; an enabled one runs the normalised `handler` setting, or the command itself when that is blank, and raises `unknown builtin handler` exactly when that handler is not registered |
| Routing.BuiltinState | projects/agent-friendly-git-wrapper/app/routing/routing.py:8-10 | without configured commands, `state` runs the `state` handler |
| Guardrails.HasDeleteFlagExists | projects/agent-friendly-git-wrapper/app/policy/guardrails.py:31-34 | the loop finds a delete flag exactly when one occurs |
| Guardrails.BranchDeleteIff | projects/agent-friendly-git-wrapper/app/policy/guardrails.py:27-34 | a delete exactly when the command is `branch` and some argument is `-d`, `-D` or `--delete` |
| Guardrails.NonEmptyParts | projects/agent-friendly-git-wrapper/app/policy/guardrails.py:40 | no kept part is empty |
| Guardrails.MatchesSafeBlock | projects/agent-friendly-git-wrapper/app/policy/guardrails.py:37-49 | true exactly when some pattern's first word is the command and its other words are all arguments |
| Guardrails.SafeBlockIgnoresOrder | projects/agent-friendly-git-wrapper/app/policy/guardrails.py:47 | only which words the arguments contain matters, not order or repetition |
| Guardrails.LastNonDashIsLast | projects/agent-friendly-git-wrapper/app/policy/guardrails.py:123-127 | empty when every argument is a flag, else the last argument without a leading dash |
| Guardrails.MergeSource | projects/agent-friendly-git-wrapper/app/policy/guardrails.py:123-127 | the loop computes the last non-dash argument |
| Guardrails.RuleOutcome | projects/agent-friendly-git-wrapper/app/policy/guardrails.py:117-129 | a message exactly when the rule refuses the source, and then the `allowed only from` message |
| Guardrails.MergeRefusedIff | projects/agent-friendly-git-wrapper/app/policy/guardrails.py:115-129 | once the loop completes, the merge is refused exactly when some rule refuses it, with that rule's message |
| Guardrails.GuardrailsBlock | projects/agent-friendly-git-wrapper/app/policy/guardrails.py:57-131 | no guard section, no arguments or a tool other than git gives `None`; a block happens only for a git command |
| Guardrails.OverrideLetsThrough | projects/agent-friendly-git-wrapper/app/policy/guardrails.py:91-92 | the override switch lets every command through once the lists are readable |
| Guardrails.ChecksInOrder | projects/agent-friendly-git-wrapper/app/policy/guardrails.py:94-131 | safe mode, clean worktree, protected branch, branch name, merge policy: the first hit decides |
| Guardrails.BranchCommandRules | projects/agent-friendly-git-wrapper/app/policy/guardrails.py:98-109 | a `branch` command that deletes nothing never needs a clean worktree; one that deletes on a protected branch is refused unless stopped earlier |
| Guardrails.MergeRule | projects/agent-friendly-git-wrapper/app/policy/guardrails.py:115-131 | a merge that passes the earlier checks is refused exactly when some rule for the branch refuses the last non-dash argument |
| PullRequest.Marker | projects/agent-friendly-git-wrapper/app/commands/pr_cmd.py:59-60 | never empty: the stripped configured marker when non-blank, else the default |
| PullRequest.NotesMarkers | projects/agent-friendly-git-wrapper/app/commands/pr_cmd.py:53-61 | both markers are non-empty and fall back to the defaults when not configured |
| PullRequest.ExtractBlock | projects/agent-friendly-git-wrapper/app/commands/pr_cmd.py:64-71 | a block exactly when both markers occur, the first end not before the first start; the body is the start marker, the block and the rest around it |
| PullRequest.MergeNotes | projects/agent-friendly-git-wrapper/app/commands/pr_cmd.py:74-83 | without a block in the current body or well-placed markers in the template, the template is returned |
| PullRequest.MergeKeepsNotes | projects/agent-friendly-git-wrapper/app/commands/pr_cmd.py:79-83 | the merged body keeps the template's start marker where it was, then the old notes, then the template's end marker and rest |
| PullRequest.MergeThenExtract | projects/agent-friendly-git-wrapper/app/commands/pr_cmd.py:64-83 | extracting from the merged body gives back the block of the current body, when that block is well formed and the start marker does not occur inside the end marker |
| PullRequest.ExtractFirst | projects/agent-friendly-git-wrapper/app/commands/pr_cmd.py:64-71 | the block of a body whose first markers are known |
| PullRequest.BlockWindow | projects/agent-friendly-git-wrapper/app/commands/pr_cmd.py:83 | the markers and the notes form one window of the merged body |
| PullRequest.ExtractAt | projects/agent-friendly-git-wrapper/app/commands/pr_cmd.py:66-71 | with the first positions known and apart, the block is the text between them |
| PullRequest.FirstMarkers | projects/agent-friendly-git-wrapper/app/commands/pr_cmd.py:79-83 | where the first start and end markers of the merged body lie |
| PullRequest.EndNotAt | projects/agent-friendly-git-wrapper/app/commands/pr_cmd.py:79-83 | no end marker of the merged body begins before the one after the notes |
| PullRequest.CountOf | projects/agent-friendly-git-wrapper/app/commands/pr_cmd.py:102-110 | no outcome counts more checks than there are |
| PullRequest.SummarizeChecks | projects/agent-friendly-git-wrapper/app/commands/pr_cmd.py:99-111 | the loop computes the total and the success, failed and pending counts |
| PullRequest.CountsAddUp | projects/agent-friendly-git-wrapper/app/commands/pr_cmd.py:99-111 | success, failed and pending add up to the total, which is the number of checks |
| PullRequest.OutcomeIgnoresCase | projects/agent-friendly-git-wrapper/app/commands/pr_cmd.py:103 | a state and its lower-cased form count the same |
| BranchHygiene.BranchConfig | projects/agent-friendly-git-wrapper/app/commands/branch_cmd.py:10-15 | the `branch_hygiene` dict, or `{}` when it is missing or not a dict |
| BranchHygiene.MatchAny | projects/agent-friendly-git-wrapper/app/commands/branch_cmd.py:18-23 | true exactly when some pattern matches the name |
| BranchHygiene.RuleBlocks | projects/agent-friendly-git-wrapper/app/commands/branch_cmd.py:115-123 | a rule that does not target the base passes; one that does blocks exactly when it lists allowed sources without the branch; only an unreadable list raises |
| BranchHygiene.MergePolicyStatus | projects/agent-friendly-git-wrapper/app/commands/branch_cmd.py:112-124 | the status is always `ok` or `blocked` |
| BranchHygiene.Verdicts | projects/agent-friendly-git-wrapper/app/commands/branch_cmd.py:114-123 | one verdict per rule |
| BranchHygiene.FirstBlockIff | projects/agent-friendly-git-wrapper/app/commands/branch_cmd.py:114-124 | `blocked` exactly when some verdict blocks and all before it pass; `ok` exactly when all pass |
| BranchHygiene.StatusIsFirstBlock | projects/agent-friendly-git-wrapper/app/commands/branch_cmd.py:112-124 | the policy loop is the verdict loop run on the rules' verdicts |
| BranchHygiene.MergePolicyStatusIff | projects/agent-friendly-git-wrapper/app/commands/branch_cmd.py:112-124 | `blocked` exactly when some rule blocks and all before it pass cleanly; `ok` exactly when every rule passes |
| BranchHygiene.NoTargetIsOk | projects/agent-friendly-git-wrapper/app/commands/branch_cmd.py:117-119 | with no rule targeting the base, every branch is `ok` |
| BranchHygiene.SkippedRule | projects/agent-friendly-git-wrapper/app/commands/branch_cmd.py:115-119 | a non-dict rule or one with a blank target is passed over |
| BranchHygiene.ListedBranchIsOk | projects/agent-friendly-git-wrapper/app/commands/branch_cmd.py:120-124 | a branch listed by every targeting rule is `ok` |
| BranchHygiene.SyncCounts | projects/agent-friendly-git-wrapper/app/commands/branch_cmd.py:462 | succeeds exactly when the output has two words, giving behind then ahead |
| BranchHygiene.Sync | projects/agent-friendly-git-wrapper/app/commands/branch_cmd.py:463-469 | diverged, ahead, behind and in-sync each exactly under their condition on the two counts |
| BranchHygiene.SyncSwap | projects/agent-friendly-git-wrapper/app/commands/branch_cmd.py:463-469 | swapping the counts swaps ahead and behind and keeps the other two |
| LogUtils.Head | projects/agent-friendly-git-wrapper/app/utils/log_utils.py:22 | `data[:n]` is a prefix of length `min(n, len(data))` |
| LogUtils.Captured | projects/agent-friendly-git-wrapper/app/utils/log_utils.py:17-23 | the buffer is a prefix of all forwarded text: empty for a non-positive limit, else of length `min(limit, total)` |
| LogUtils.CapturedAppend | projects/agent-friendly-git-wrapper/app/utils/log_utils.py:20-22 | one write tops the buffer up with the head of the data that still fits |
| LogUtils.CapturedGrows | projects/agent-friendly-git-wrapper/app/utils/log_utils.py:17-23 | the buffer only grows by appending |
| LogUtils.TeeStream.constructor | projects/agent-friendly-git-wrapper/app/utils/log_utils.py:11-15 | an empty buffer, nothing forwarded, the given limit |
| LogUtils.TeeStream.Write | projects/agent-friendly-git-wrapper/app/utils/log_utils.py:17-23 | forwards the data, keeps the buffer the capture of everything forwarded (extending the old one, within the limit), returns `len(data)` |
| LogUtils.Texts | projects/agent-friendly-git-wrapper/app/utils/log_utils.py:67 | succeeds exactly when every item is a string, giving those strings |
| LogUtils.ResolvedLine | projects/agent-friendly-git-wrapper/app/utils/log_utils.py:73-75 | a line starts with `  - `; an item that is not a dict raises |
| LogUtils.ResolvedLines | projects/agent-friendly-git-wrapper/app/utils/log_utils.py:72-75 | one `  - ` line per resolved command, failing exactly when one item fails |
| LogUtils.PlainLines | projects/agent-friendly-git-wrapper/app/utils/log_utils.py:62-80 | at least six lines, the last `---`; fails exactly when the header or resolved block fails |
| LogUtils.PlainEntry | projects/agent-friendly-git-wrapper/app/utils/log_utils.py:61-81 | the entry starts with `timestamp: ` and ends with `---` and a newline |
| LogUtils.OptionalLinesIff | projects/agent-friendly-git-wrapper/app/utils/log_utils.py:69-79 | a `stdout:` line exactly when stdout is truthy, likewise stderr, and a `resolved:` line exactly when the resolved list is truthy |
| LogUtils.HeaderShape | projects/agent-friendly-git-wrapper/app/utils/log_utils.py:62-68 | each header line starts with its own tag |
| LogUtils.ResolvedShape | projects/agent-friendly-git-wrapper/app/utils/log_utils.py:69-75 | empty, or a `resolved:` line followed by `  - ` lines, non-empty exactly when the list is truthy |
| LogUtils.OptionalShape | projects/agent-friendly-git-wrapper/app/utils/log_utils.py:76-79 | an optional line is present exactly when its value is truthy, and carries its tag |
| LogUtils.TagFacts | projects/agent-friendly-git-wrapper/app/utils/log_utils.py:62-80 | which lines of the entry carry which tag |
| LogUtils.LeadingChar | projects/agent-friendly-git-wrapper/app/utils/log_utils.py:62-80 | a line starting with neither `s` nor `r` carries no stdout, stderr or resolved tag |
| Runtime.ResolvedEntry | projects/agent-friendly-git-wrapper/app/utils/runtime.py:32 | a dict whose `tool` is the tool and whose `args` are the `str()` of each argument, in order |
| Runtime.Recorded | projects/agent-friendly-git-wrapper/app/utils/runtime.py:22-32 | the config is unchanged unless recording applies |
| Runtime.RecordedAppendsOne | projects/agent-friendly-git-wrapper/app/utils/runtime.py:27-32 | exactly one entry is appended to `resolved_commands` (a missing list starts empty); every other key keeps its value |
| Runtime.RecordedChangesIff | projects/agent-friendly-git-wrapper/app/utils/runtime.py:22-32 | recording changes the config exactly when it applies |
| Runtime.RecordedTwice | projects/agent-friendly-git-wrapper/app/utils/runtime.py:22-32 | two records in a row append both entries, in call order |
| Runtime.TimeoutSetting | projects/agent-friendly-git-wrapper/app/utils/runtime.py:34-42 | nothing without a non-empty config or with a missing or `None` setting; otherwise the configured value |
| Runtime.RuntimeContext.constructor | projects/agent-friendly-git-wrapper/app/utils/runtime.py:10-12 | the context starts with no config |
| Runtime.RuntimeContext.SetConfig | projects/agent-friendly-git-wrapper/app/utils/runtime.py:14-16 | a dict is stored; anything else clears the context |
| Runtime.RuntimeContext.GetConfig | projects/agent-friendly-git-wrapper/app/utils/runtime.py:18-20 | returns the stored config |
| Runtime.RuntimeContext.RecordResolved | projects/agent-friendly-git-wrapper/app/utils/runtime.py:22-32 | the new config is `Recorded` of the old one |
| Runtime.RuntimeContext.Timeout | projects/agent-friendly-git-wrapper/app/utils/runtime.py:34-42 | returns `TimeoutSetting` of the stored config |

## Left out

- Calls to `git`, `gh` and subprocesses, the clock, file I/O and the process streams are
  inputs: the current branch and worktree state for the guardrails, the `git rev-list`
  output for sync counts, and the forwarded text of a `TeeStream`.
- `fnmatch` is not modelled. Glob matching is a function parameter (`Guardrails.Glob`) of
  `MatchAny`, `_branch_matches` and the guardrails.
- `tiktoken` is not modelled. The token count is an optional function parameter
  (`CompactTune.Tokenizer`). Without one, measuring falls back to characters, as the source
  does when the module is missing. The encoding name is not modelled.
- `str.splitlines` splits on `\n` only. Python's other line boundaries (`\r`, `\x0b`,
  `\x1c`, ` ` and so on) are not modelled.
- Text.IsDigit, Text.AllDigits, Text.ParseInt, CompactRewrite.TakeDigits, CompactSpec.ApplySetting:
  a digit is an ASCII `0`-`9`. Python's `str.isdigit()`, the regex `\d` and `int()` also
  accept other Unicode digits. So the source reads `u٣` as context 3 and refuses `u²` with
  `ValueError` (`isdigit` accepts `²`, `int` does not); the model reports both as unknown
  options. A hunk header with non-ASCII digits is not matched by the model.
- `lower()` and `upper()` are ASCII only. Non-ASCII letters in `--ops` values are not
  modelled.
- `str()` of a list or a dict (Python's `repr`) is a placeholder text. Floats are not part of
  the value model.
- An `AttributeError` raised by `.get` on a non-dict is modelled as `TypeError`.
- Runtime.RuntimeContext.Timeout: models only the paths of `get_timeout` that return `None`
  before conversion, and returns the raw setting. The `float()` conversion, its
  `RuntimeError` and the `value <= 0` check are left out because floats are not modelled.
- Runtime.RuntimeContext.RecordResolved: the source appends to the list in place, and a
  caller holding the same dict sees the new entry. The model replaces the stored config
  instead, so that aliasing is not captured.
- LogUtils.TeeStream.Write: the wrapped stream is modelled by the field `forwarded`, which
  holds everything written to it. `flush` only forwards to the wrapped stream and is left out. `limit` is
  a constant because nothing reassigns it.
- LogUtils.PlainEntry: only the plain-text format is modelled. The `json` and `toon`
  formats and the lower-casing of `fmt` are left out, since they are JSON serialisation.
- Routing.PickTool: the `difflib` suggestions appended to the error of an unknown command
  are left out. `suggest_commands`, `dispatch_custom` and the command dispatcher that calls
  a handler are not part of this model.
- Routing.BuiltinHandler: returns the handler name to call instead of calling it.
  Registered handlers are a set of names.
- `_load_config` and `_merge_custom_commands` read YAML files and are not part of this model.
- `dispatch_branch`, `dispatch_pr` and the PR payload fetchers are command drivers around git
  and gh output. Only their classification rules are modelled: `_merge_policy_status`, the
  sync status and the check summary.
- CliParse.DiffKind: classifies a token by testing the exact flags before `--compact=` and
  `--noise=`. No exact flag starts with either prefix, so the outcome is the same as the
  source's order.

## Observations

The contracts show two places where `_compact_output` and
`_parse_compact_spec` behave other than a reader of the option names might expect. In both
cases the model follows the code:

- Setting `path_table` through a profile does not turn on `short_diff_header`. Only the
  `path-table`, `path-id` and `path-ids` keywords set both, as
  `CompactSpec.ProfilePathTableNotCoupled` and `CompactSpec.PathTableToken` show.
- The output ends with a newline whenever the input does. The converse does not hold: under
  `prefix_first_only`, a last line that is just a repeated marker becomes empty and so
  produces a final newline. `CompactRewrite.TrailingNewlineNotOnlyFromInput` gives such an
  input.

These are recorded as observations, not defects: nothing shows the authors intended
otherwise.
