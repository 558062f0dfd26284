/** Reading the router's configuration: dict merging, compact-option defaults and
    profiles, noise levels and default excludes (`app/config/config_loader.py`).
    The YAML file reading itself is not modelled; `config` is the parsed document. */
module ConfigLoader {
  import opened Wrappers
  import opened Text
  import opened Values

  /** `config.get("router", {})` when it is a dict, else `{}`. */
  function Router(config: Entries): Entries {
    Section(config, "router")
  }

  // ---------------------------------------------------------------------------
  // _deep_merge

  /** What `_deep_merge` returns once the override entries from index `i` on are
      applied to `merged`: a key whose old and new values are both dicts is merged
      recursively, any other key takes the override value. */
  function DeepMergeFrom(merged: Entries, over: Entries, i: nat): Entries
    requires i <= |over|
    decreases Dict(over), |over| - i
  {
    if i == |over| then merged
    else
      var key := over[i].0;
      var value := over[i].1;
      var current := Get(merged, key);
      var next :=
        if value.Dict? && current.Some? && current.value.Dict?
        then Dict(DeepMergeFrom(current.value.entries, value.entries, 0))
        else value;
      DeepMergeFrom(Set(merged, key, next), over, i + 1)
  }

  function DeepMerged(base: Entries, over: Entries): Entries {
    DeepMergeFrom(base, over, 0)
  }

  /** The value `_deep_merge` stores for a key whose base value is `current` and
      whose override value is `value`. */
  function MergedValue(current: Option<Value>, value: Value): Value {
    if value.Dict? && current.Some? && current.value.Dict?
    then Dict(DeepMerged(current.value.entries, value.entries))
    else value
  }

  /** `_deep_merge(base, override)`: copies `base`, then assigns each override key in turn. */
  method DeepMerge(base: Entries, over: Entries) returns (merged: Entries)
    ensures merged == DeepMerged(base, over)
    decreases Dict(over)
  {
    merged := base;
    var i := 0;
    while i < |over|
      invariant 0 <= i <= |over|
      invariant DeepMergeFrom(merged, over, i) == DeepMerged(base, over)
    {
      var key := over[i].0;
      var value := over[i].1;
      var current := Get(merged, key);
      if value.Dict? && current.Some? && current.value.Dict? {
        assert value < Dict(over);
        var sub := DeepMerge(current.value.entries, value.entries);
        merged := Set(merged, key, Dict(sub));
      } else {
        merged := Set(merged, key, value);
      }
      i := i + 1;
    }
  }

  /** The keys of the override entries from index `i` on. */
  function KeysFrom(over: Entries, i: nat): set<string> {
    set j | i <= j < |over| :: over[j].0
  }

  lemma {:induction false} DeepMergeFromKeys(merged: Entries, over: Entries, i: nat)
    requires i <= |over|
    ensures Keys(DeepMergeFrom(merged, over, i)) == Keys(merged) + KeysFrom(over, i)
    decreases |over| - i
  {
    if i < |over| {
      var key := over[i].0;
      var current := Get(merged, key);
      var next := MergedValue(current, over[i].1);
      DeepMergeFromKeys(Set(merged, key, next), over, i + 1);
      KeysOfSet(merged, key, next);
      assert KeysFrom(over, i) == {key} + KeysFrom(over, i + 1);
    }
  }

  /** The result of `_deep_merge` has exactly the keys of both inputs. */
  lemma DeepMergeKeys(base: Entries, over: Entries)
    ensures Keys(DeepMerged(base, over)) == Keys(base) + Keys(over)
  {
    DeepMergeFromKeys(base, over, 0);
    assert KeysFrom(over, 0) == Keys(over);
  }

  lemma {:induction false} DeepMergeFromValues(merged: Entries, over: Entries, i: nat, k: string)
    requires i <= |over| && DistinctKeys(over)
    ensures k !in KeysFrom(over, i) ==> Get(DeepMergeFrom(merged, over, i), k) == Get(merged, k)
    ensures forall j :: i <= j < |over| && over[j].0 == k ==>
      Get(DeepMergeFrom(merged, over, i), k) == Some(MergedValue(Get(merged, k), over[j].1))
    decreases |over| - i
  {
    if i < |over| {
      var key := over[i].0;
      var next := MergedValue(Get(merged, key), over[i].1);
      var m' := Set(merged, key, next);
      DeepMergeFromValues(m', over, i + 1, k);
      assert KeysFrom(over, i) == {key} + KeysFrom(over, i + 1);
      if key == k {
        assert k !in KeysFrom(over, i + 1);
      }
    }
  }

  /** Each override key takes the override value, merged recursively when both sides
      hold dicts; every other key keeps its base value. */
  lemma DeepMergeValues(base: Entries, over: Entries, k: string)
    requires DistinctKeys(over)
    ensures !HasKey(over, k) ==> Get(DeepMerged(base, over), k) == Get(base, k)
    ensures HasKey(over, k) ==> Get(DeepMerged(base, over), k) == Some(MergedValue(Get(base, k), Get(over, k).value))
  {
    GetIn(over, k);
    DeepMergeFromValues(base, over, 0, k);
    assert KeysFrom(over, 0) == Keys(over);
    if k in Keys(over) {
      var j :| 0 <= j < |over| && over[j].0 == k;
      GetAt(over, j);
    }
  }

  // ---------------------------------------------------------------------------
  // _merge_compact_options

  /** What `_merge_compact_options` returns once the override entries from index `i`
      on are assigned over `merged`. */
  function OverlayFrom(merged: Entries, over: Entries, i: nat): Entries
    requires i <= |over|
    decreases |over| - i
  {
    if i == |over| then merged else OverlayFrom(Set(merged, over[i].0, over[i].1), over, i + 1)
  }

  function Overlay(base: Entries, over: Entries): Entries {
    OverlayFrom(base, over, 0)
  }

  /** `_merge_compact_options(base, override)`: a copy of `base` with every override key assigned. */
  method MergeCompactOptions(base: Entries, over: Entries) returns (merged: Entries)
    ensures merged == Overlay(base, over)
  {
    merged := base;
    var i := 0;
    while i < |over|
      invariant 0 <= i <= |over|
      invariant OverlayFrom(merged, over, i) == Overlay(base, over)
    {
      merged := Set(merged, over[i].0, over[i].1);
      i := i + 1;
    }
  }

  lemma OverlayFromFacts(merged: Entries, over: Entries, i: nat, k: string)
    requires i <= |over| && DistinctKeys(over)
    ensures Keys(OverlayFrom(merged, over, i)) == Keys(merged) + KeysFrom(over, i)
    ensures k !in KeysFrom(over, i) ==> Get(OverlayFrom(merged, over, i), k) == Get(merged, k)
    ensures forall j :: i <= j < |over| && over[j].0 == k ==> Get(OverlayFrom(merged, over, i), k) == Some(over[j].1)
  {
    OverlayFromKeys(merged, over, i);
    if k !in KeysFrom(over, i) {
      OverlayFromKeeps(merged, over, i, k);
    }
    forall j | i <= j < |over| && over[j].0 == k
      ensures Get(OverlayFrom(merged, over, i), k) == Some(over[j].1)
    {
      OverlayFromSets(merged, over, i, j);
    }
  }

  /** The keys after the overlay are the base keys and the override keys. */
  lemma {:induction false} OverlayFromKeys(merged: Entries, over: Entries, i: nat)
    requires i <= |over|
    ensures Keys(OverlayFrom(merged, over, i)) == Keys(merged) + KeysFrom(over, i)
    decreases |over| - i
  {
    if i < |over| {
      OverlayFromKeys(Set(merged, over[i].0, over[i].1), over, i + 1);
      KeysOfSet(merged, over[i].0, over[i].1);
      assert KeysFrom(over, i) == {over[i].0} + KeysFrom(over, i + 1);
    }
  }

  /** A key no override names keeps its value. */
  lemma {:induction false} OverlayFromKeeps(merged: Entries, over: Entries, i: nat, k: string)
    requires i <= |over| && k !in KeysFrom(over, i)
    ensures Get(OverlayFrom(merged, over, i), k) == Get(merged, k)
    decreases |over| - i
  {
    if i < |over| {
      assert over[i].0 in KeysFrom(over, i);
      assert KeysFrom(over, i + 1) <= KeysFrom(over, i);
      OverlayFromKeeps(Set(merged, over[i].0, over[i].1), over, i + 1, k);
    }
  }

  /** An override key ends with its override value. */
  lemma {:induction false} OverlayFromSets(merged: Entries, over: Entries, i: nat, j: nat)
    requires i <= j < |over| && DistinctKeys(over)
    ensures Get(OverlayFrom(merged, over, i), over[j].0) == Some(over[j].1)
    decreases |over| - i
  {
    var m' := Set(merged, over[i].0, over[i].1);
    if i < j {
      OverlayFromSets(m', over, i + 1, j);
    } else {
      assert over[i].0 !in KeysFrom(over, i + 1);
      OverlayFromKeeps(m', over, i + 1, over[i].0);
    }
  }

  /** Every override key takes the override value, every other base key keeps its
      base value, and the keys are those of both dicts. */
  lemma OverlayFacts(base: Entries, over: Entries, k: string)
    requires DistinctKeys(over)
    ensures Keys(Overlay(base, over)) == Keys(base) + Keys(over)
    ensures Get(Overlay(base, over), k) == if k in Keys(over) then Get(over, k) else Get(base, k)
  {
    OverlayFromFacts(base, over, 0, k);
    assert KeysFrom(over, 0) == Keys(over);
    if k in Keys(over) {
      var j :| 0 <= j < |over| && over[j].0 == k;
      GetAt(over, j);
    }
  }

  // ---------------------------------------------------------------------------
  // _load_compact_defaults

  /** `str(v or dflt)` */
  function StrOr(v: Value, dflt: string): string {
    if Truthy(v) then ToStr(v) else dflt
  }

  /** `str(v or dflt)` is empty exactly when `v` is falsy and the default is empty. */
  lemma StrOrEmpty(v: Value, dflt: string)
    ensures StrOr(v, dflt) == "" <==> !Truthy(v) && dflt == ""
  {
    if Truthy(v) {
      TruthyText(v);
    }
  }

  /** The names of the compact options, in the order the defaults record lists them. */
  const CompactOptionKeys: seq<string> := [
    "context", "drop_headers", "no_prefix", "drop_diff_header", "drop_hunk_header",
    "short_diff_header", "short_hunk_header", "drop_filemode", "drop_rename",
    "drop_similarity", "drop_binary", "path_strip", "path_basename", "path_table",
    "path_common_prefix", "path_prefix_token", "hunk_new_only", "prefix_first_only"
  ]

  /** The option record built from a `compact_defaults` section `e`. */
  function CompactRecord(e: Entries, context: int): (r: Entries)
    ensures |r| == |CompactOptionKeys|
    ensures forall i :: 0 <= i < |r| ==> r[i].0 == CompactOptionKeys[i]
  {
    [
      ("context", Int(context)),
      ("drop_headers", Bool(Truthy(GetOr(e, "drop_headers", Bool(true))))),
      ("no_prefix", Bool(Truthy(GetOr(e, "no_prefix", Bool(true))))),
      ("drop_diff_header", Bool(Truthy(GetOr(e, "drop_diff_header", Bool(false))))),
      ("drop_hunk_header", Bool(Truthy(GetOr(e, "drop_hunk_header", Bool(false))))),
      ("short_diff_header", Bool(Truthy(GetOr(e, "short_diff_header", Bool(false))))),
      ("short_hunk_header", Bool(Truthy(GetOr(e, "short_hunk_header", Bool(false))))),
      ("drop_filemode", Bool(Truthy(GetOr(e, "drop_filemode", Bool(false))))),
      ("drop_rename", Bool(Truthy(GetOr(e, "drop_rename", Bool(false))))),
      ("drop_similarity", Bool(Truthy(GetOr(e, "drop_similarity", Bool(false))))),
      ("drop_binary", Bool(Truthy(GetOr(e, "drop_binary", Bool(false))))),
      ("path_strip", Str(StrOr(GetOr(e, "path_strip", Str("")), ""))),
      ("path_basename", Bool(Truthy(GetOr(e, "path_basename", Bool(false))))),
      ("path_table", Bool(Truthy(GetOr(e, "path_table", Bool(false))))),
      ("path_common_prefix", Bool(Truthy(GetOr(e, "path_common_prefix", Bool(false))))),
      ("path_prefix_token", Str(StrOr(GetOr(e, "path_prefix_token", Str("...")), "..."))),
      ("hunk_new_only", Bool(Truthy(GetOr(e, "hunk_new_only", Bool(false))))),
      ("prefix_first_only", Bool(Truthy(GetOr(e, "prefix_first_only", Bool(false)))))
    ]
  }

  /** The record `_load_compact_defaults` yields when nothing is configured. */
  const DefaultCompactOptions: Entries := [
    ("context", Int(0)), ("drop_headers", Bool(true)), ("no_prefix", Bool(true)),
    ("drop_diff_header", Bool(false)), ("drop_hunk_header", Bool(false)),
    ("short_diff_header", Bool(false)), ("short_hunk_header", Bool(false)),
    ("drop_filemode", Bool(false)), ("drop_rename", Bool(false)),
    ("drop_similarity", Bool(false)), ("drop_binary", Bool(false)),
    ("path_strip", Str("")), ("path_basename", Bool(false)), ("path_table", Bool(false)),
    ("path_common_prefix", Bool(false)), ("path_prefix_token", Str("...")),
    ("hunk_new_only", Bool(false)), ("prefix_first_only", Bool(false))
  ]

  /** `_load_compact_defaults(config)`: the fixed 18-key option record, read from
      `router.compact_defaults`. */
  function LoadCompactDefaults(config: Entries): (r: Result<Entries>)
    ensures var s := Get(Router(config), "compact_defaults");
      (s.None? || s == Some(Null)) ==> r == Ok(DefaultCompactOptions)
    ensures var s := Get(Router(config), "compact_defaults");
      (s.Some? && s.value != Null && !s.value.Dict?) ==> r == Err(RuntimeError("router compact_defaults must be a dict"))
    ensures r.Ok? ==> |r.value| == |CompactOptionKeys|
    ensures r.Ok? ==> forall i :: 0 <= i < |r.value| ==> r.value[i].0 == CompactOptionKeys[i]
  {
    var s := GetOr(Router(config), "compact_defaults", Dict([]));
    var d := if s == Null then Dict([]) else s;
    if !d.Dict? then Err(RuntimeError("router compact_defaults must be a dict"))
    else
      var context :- ToInt(GetOr(d.entries, "context", Int(0)));
      Ok(CompactRecord(d.entries, context))
  }

  /** The path prefix token of the loaded defaults is never empty (`or "..."`). */
  lemma PrefixTokenNonEmpty(config: Entries)
    requires LoadCompactDefaults(config).Ok?
    ensures exists t :: t != "" && LoadCompactDefaults(config).value[15] == ("path_prefix_token", Str(t))
  {
    var s := GetOr(Router(config), "compact_defaults", Dict([]));
    var d := if s == Null then Dict([]) else s;
    var v := GetOr(d.entries, "path_prefix_token", Str("..."));
    if v.Int? {
      assert |NatToStr(if v.i < 0 then -v.i else v.i)| >= 1;
    }
    assert StrOr(v, "...") != "";
  }

  // ---------------------------------------------------------------------------
  // _load_compact_profiles, _load_history_compact_meta_overrides

  /** `router.get(key, {}) or {}`, required to be a dict. */
  function DictSetting(config: Entries, key: string, message: string): (r: Result<Entries>)
    ensures var v := GetOr(Router(config), key, Dict([]));
      !Truthy(v) ==> r == Ok([])
    ensures var v := GetOr(Router(config), key, Dict([]));
      v.Dict? ==> r == Ok(v.entries)
    ensures var v := GetOr(Router(config), key, Dict([]));
      Truthy(v) && !v.Dict? ==> r == Err(RuntimeError(message))
  {
    var v := GetOr(Router(config), key, Dict([]));
    var w := if Truthy(v) then v else Dict([]);
    if w.Dict? then Ok(w.entries) else Err(RuntimeError(message))
  }

  /** `_load_compact_profiles(config)`: `None` or absent gives `{}`, a non-dict raises. */
  function LoadCompactProfiles(config: Entries): (r: Result<Entries>)
    ensures var v := Get(Router(config), "compact_profiles");
      (v.None? || v == Some(Null)) ==> r == Ok([])
    ensures var v := Get(Router(config), "compact_profiles");
      (v.Some? && v.value.Dict?) ==> r == Ok(v.value.entries)
    ensures var v := Get(Router(config), "compact_profiles");
      (v.Some? && Truthy(v.value) && !v.value.Dict?) ==> r.Err?
  {
    DictSetting(config, "compact_profiles", "router compact_profiles must be a dict")
  }

  /** `_load_history_compact_meta_overrides(config)`: `None` or absent gives `{}`, a non-dict raises. */
  function LoadHistoryCompactMetaOverrides(config: Entries): (r: Result<Entries>)
    ensures var v := Get(Router(config), "history_compact_meta_overrides");
      (v.None? || v == Some(Null)) ==> r == Ok([])
    ensures var v := Get(Router(config), "history_compact_meta_overrides");
      (v.Some? && v.value.Dict?) ==> r == Ok(v.value.entries)
    ensures var v := Get(Router(config), "history_compact_meta_overrides");
      (v.Some? && Truthy(v.value) && !v.value.Dict?) ==> r.Err?
  {
    DictSetting(config, "history_compact_meta_overrides", "router history_compact_meta_overrides must be a dict")
  }

  // ---------------------------------------------------------------------------
  // _load_noise_flags, _resolve_noise_level, _load_default_excludes

  /** `[str(x) for x in items if str(x).strip()]`: the kept strings are not stripped. */
  function NonBlankStrs(items: seq<Value>): (r: seq<string>)
    ensures |r| <= |items|
  {
    if items == [] then []
    else
      var s := ToStr(items[0]);
      var rest := NonBlankStrs(items[1..]);
      if Strip(s) != "" then [s] + rest else rest
  }

  lemma {:induction false} NonBlankStrsNonBlank(items: seq<Value>)
    ensures forall i :: 0 <= i < |NonBlankStrs(items)| ==> Strip(NonBlankStrs(items)[i]) != ""
  {
    if items != [] {
      NonBlankStrsNonBlank(items[1..]);
      var s := ToStr(items[0]);
      var rest := NonBlankStrs(items[1..]);
      if Strip(s) != "" {
        var r := [s] + rest;
        assert NonBlankStrs(items) == r;
        forall i | 0 <= i < |r| ensures Strip(r[i]) != "" {
          if i > 0 { assert r[i] == rest[i - 1]; }
        }
      }
    }
  }

  /** The value `_load_noise_flags` reads as the flag list of `level`. */
  function NoiseFlagsValue(config: Entries, level: string): Value {
    var levels := DictOrEmpty(Some(GetOr(Router(config), "diff_noise_levels", Dict([]))));
    var info := GetOr(levels, level, Dict([]));
    if info.Dict? then GetOr(info.entries, "flags", List([])) else info
  }

  /** `_load_noise_flags(config, level)` */
  function LoadNoiseFlags(config: Entries, level: string): (r: Result<seq<string>>)
    ensures !Truthy(NoiseFlagsValue(config, level)) ==> r == Ok([])
    ensures Truthy(NoiseFlagsValue(config, level)) && !NoiseFlagsValue(config, level).List? ==>
      r == Err(RuntimeError("router diff: noise flags must be a list"))
    ensures r.Ok? ==> forall i :: 0 <= i < |r.value| ==> Strip(r.value[i]) != ""
  {
    var flags := NoiseFlagsValue(config, level);
    if !Truthy(flags) then Ok([])
    else if !flags.List? then Err(RuntimeError("router diff: noise flags must be a list"))
    else
      NonBlankStrsNonBlank(flags.items);
      Ok(NonBlankStrs(flags.items))
  }

  /** An absent noise level has no flags. */
  lemma NoiseFlagsOfMissingLevel(config: Entries, level: string)
    requires !HasKey(DictOrEmpty(Some(GetOr(Router(config), "diff_noise_levels", Dict([])))), level)
    ensures LoadNoiseFlags(config, level) == Ok([])
  {
  }

  /** Flags that are all non-blank strings come back unchanged and in order. */
  lemma {:induction false} NonBlankStrsKeepsStrings(items: seq<Value>)
    requires forall i :: 0 <= i < |items| ==> items[i].Str? && Strip(items[i].s) != ""
    ensures |NonBlankStrs(items)| == |items|
    ensures forall i :: 0 <= i < |items| ==> NonBlankStrs(items)[i] == items[i].s
  {
    if items != [] {
      NonBlankStrsKeepsStrings(items[1..]);
    }
  }

  /** `_resolve_noise_level(config, noise_level)`: the level to use and its flags. */
  function ResolveNoiseLevel(config: Entries, noiseLevel: string): (r: Result<(string, seq<string>)>)
    ensures r.Ok? ==> r.value.0 != ""
    ensures Strip(noiseLevel) != "" && r.Ok? ==> r.value.0 == Strip(noiseLevel)
    ensures Strip(noiseLevel) == "" && Strip(ToStr(GetOr(Router(config), "diff_default_noise", Str("max")))) == "" && r.Ok? ==>
      r.value.0 == "max"
    ensures r.Ok? ==> LoadNoiseFlags(config, r.value.0) == Ok(r.value.1)
  {
    var level := Strip(noiseLevel);
    var chosen :=
      if level != "" then level
      else
        var configured := Strip(ToStr(GetOr(Router(config), "diff_default_noise", Str("max"))));
        if configured != "" then configured else "max";
    var flags :- LoadNoiseFlags(config, chosen);
    Ok((chosen, flags))
  }

  /** `_load_default_excludes(config)` */
  function LoadDefaultExcludes(config: Entries): (r: Result<seq<string>>)
    ensures var v := GetOr(Router(config), "diff_default_excludes", List([]));
      !Truthy(v) ==> r == Ok([])
    ensures var v := GetOr(Router(config), "diff_default_excludes", List([]));
      Truthy(v) && !v.List? ==> r == Err(RuntimeError("router diff: diff_default_excludes must be a list"))
    ensures var v := GetOr(Router(config), "diff_default_excludes", List([]));
      Truthy(v) && v.List? ==> r == Ok(StrippedNonBlank(v.items))
    ensures r.Ok? ==> forall i :: 0 <= i < |r.value| ==> r.value[i] != ""
  {
    var v := GetOr(Router(config), "diff_default_excludes", List([]));
    if !Truthy(v) then Ok([])
    else if !v.List? then Err(RuntimeError("router diff: diff_default_excludes must be a list"))
    else Ok(StrippedNonBlank(v.items))
  }
}
