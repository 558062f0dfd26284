/** Choosing between `git` and `gh` for a command, the per-tool command permissions
    and the table of built-in router commands (`app/routing/routing.py`). */
module Routing {
  import opened Wrappers
  import opened Text
  import opened Values
  import ConfigLoader

  /** `str(key).strip().lower()`, the form command names are compared in. */
  function Normalized(s: string): string {
    Lower(Strip(s))
  }

  // ---------------------------------------------------------------------------
  // load_commands

  /** The built-in commands before configuration: `state`, enabled, handled by `state`. */
  const StateMeta: Entries := [("enabled", Bool(true)), ("handler", Str("state"))]
  const DefaultCommands: map<string, Entries> := map["state" := StateMeta]

  /** The entries of a configuration dict with their keys normalised. */
  function Named(entries: Entries): (r: Entries)
    ensures |r| == |entries|
  {
    seq(|entries|, i requires 0 <= i < |entries| => (Normalized(entries[i].0), entries[i].1))
  }

  /** One configured entry, its name normalised, applied to the command table: a dict is
      merged over the existing entry, anything else becomes `{"enabled": bool(value)}`;
      a blank name is skipped. */
  function ApplyCommand(commands: map<string, Entries>, entry: (string, Value)): (r: map<string, Entries>)
    ensures entry.0 == "" ==> r == commands
    ensures entry.0 != "" ==> r.Keys == commands.Keys + {entry.0}
  {
    var cmd := entry.0;
    if cmd == "" then commands
    else
      match entry.1
      case Dict(e) =>
        var current := if cmd in commands then commands[cmd] else [];
        commands[cmd := ConfigLoader.Overlay(current, e)]
      case v => commands[cmd := [("enabled", Bool(Truthy(v)))]]
  }

  /** An entry leaves every other command's meta as it was. */
  lemma ApplyCommandKeepsOthers(commands: map<string, Entries>, entry: (string, Value), k: string)
    requires k in commands && k != entry.0
    ensures k in ApplyCommand(commands, entry) && ApplyCommand(commands, entry)[k] == commands[k]
  {
  }

  /** The table after the named entries `named` have been applied in order. */
  function CommandsAfter(named: Entries): map<string, Entries>
    decreases |named|
  {
    if named == [] then DefaultCommands
    else ApplyCommand(CommandsAfter(named[..|named| - 1]), named[|named| - 1])
  }

  /** `load_commands(config)` as a value. */
  function Commands(config: Entries): map<string, Entries> {
    match Get(config, "commands")
    case Some(Dict(configured)) => CommandsAfter(Named(configured))
    case _ => DefaultCommands
  }

  /** `load_commands(config)`: the defaults copied, then each configured entry applied. */
  method LoadCommands(config: Entries) returns (commands: map<string, Entries>)
    ensures commands == Commands(config)
  {
    commands := DefaultCommands;
    var configured := Get(config, "commands");
    if configured.Some? && configured.value.Dict? {
      var entries := configured.value.entries;
      ghost var named := Named(entries);
      var i := 0;
      while i < |entries|
        invariant 0 <= i <= |entries|
        invariant commands == CommandsAfter(named[..i])
      {
        CommandsAfterSnoc(named, i);
        var cmd := Normalized(entries[i].0);
        if cmd != "" {
          if entries[i].1.Dict? {
            var merged := if cmd in commands then commands[cmd] else [];
            // `merged.update(value)` is the same shallow merge as `_merge_compact_options`
            merged := ConfigLoader.MergeCompactOptions(merged, entries[i].1.entries);
            commands := commands[cmd := merged];
          } else {
            commands := commands[cmd := [("enabled", Bool(Truthy(entries[i].1)))]];
          }
        }
        i := i + 1;
      }
      assert named[..|entries|] == named;
    }
  }

  /** One more entry, as the table sees it. */
  lemma CommandsAfterSnoc(named: Entries, i: nat)
    requires i < |named|
    ensures CommandsAfter(named[..i + 1]) == ApplyCommand(CommandsAfter(named[..i]), named[i])
  {
    assert named[..i + 1][..i] == named[..i];
  }

  /** The names a table of named entries defines: every non-blank one. */
  function NamesOf(named: Entries): set<string> {
    set i | 0 <= i < |named| && named[i].0 != "" :: named[i].0
  }

  /** The table holds `state` and exactly the configured non-blank names. */
  lemma {:induction false} CommandsAfterKeys(named: Entries)
    ensures CommandsAfter(named).Keys == {"state"} + NamesOf(named)
    decreases |named|
  {
    if named != [] {
      var init := named[..|named| - 1];
      CommandsAfterKeys(init);
      assert forall i :: 0 <= i < |init| ==> init[i] == named[i];
      assert NamesOf(named) == NamesOf(init) + (if named[|named| - 1].0 == "" then {} else {named[|named| - 1].0});
    }
  }

  /** The `state` entry keeps its defaults unless some configured name is `state`. */
  lemma {:induction false} StateKept(named: Entries)
    requires "state" !in NamesOf(named)
    ensures "state" in CommandsAfter(named) && CommandsAfter(named)["state"] == StateMeta
    decreases |named|
  {
    if named != [] {
      var init := named[..|named| - 1];
      assert NamesOf(init) <= NamesOf(named) by {
        assert forall i :: 0 <= i < |init| ==> init[i] == named[i];
      }
      StateKept(init);
      ApplyCommandKeepsOthers(CommandsAfter(init), named[|named| - 1], "state");
    }
  }

  /** The last entry decides its command's meta: a non-dict value becomes the `enabled`
      flag alone, a dict is merged over what was there, key by key. */
  lemma LastCommandEntry(named: Entries, k: string)
    requires named != [] && named[|named| - 1].0 != ""
    ensures var last := named[|named| - 1];
      var before := CommandsAfter(named[..|named| - 1]);
      var meta := CommandsAfter(named)[last.0];
      (!last.1.Dict? ==> meta == [("enabled", Bool(Truthy(last.1)))])
      && (last.1.Dict? && DistinctKeys(last.1.entries) ==>
            Get(meta, k) == if k in Keys(last.1.entries) then Get(last.1.entries, k)
                            else if last.0 in before then Get(before[last.0], k) else None)
  {
    var last := named[|named| - 1];
    if last.1.Dict? && DistinctKeys(last.1.entries) {
      var before := CommandsAfter(named[..|named| - 1]);
      ConfigLoader.OverlayFacts(if last.0 in before then before[last.0] else [], last.1.entries, k);
    }
  }

  // ---------------------------------------------------------------------------
  // _lower_set and _normalize_overrides

  /** `_lower_set(values)`: the non-blank items of `values or []`, stripped and
      lower-cased; iterating a value that is not iterable fails. */
  function LowerSet(values: Value): (r: Result<set<string>>)
    ensures r.Err? <==> IterateOrEmpty(values).Err?
    ensures r.Ok? ==> "" !in r.value
    ensures r.Ok? ==> var items := IterateOrEmpty(values).value;
      forall x :: x in r.value <==>
        exists i :: 0 <= i < |items| && Strip(ToStr(items[i])) != "" && Lower(Strip(ToStr(items[i]))) == x
  {
    var items :- IterateOrEmpty(values);
    LowerOfKept(items);
    Ok(LowerNames(StrippedNonBlank(items)))
  }

  /** The names lower-cased, as a set. */
  function LowerNames(names: seq<string>): set<string> {
    set i | 0 <= i < |names| :: Lower(names[i])
  }

  /** Lower-casing the kept names gives the lower-cased non-blank strips of the items. */
  lemma LowerOfKept(items: seq<Value>)
    ensures forall x :: x in LowerNames(StrippedNonBlank(items)) <==>
        exists i :: 0 <= i < |items| && Strip(ToStr(items[i])) != "" && Lower(Strip(ToStr(items[i]))) == x
  {
    var names := StrippedNonBlank(items);
    StrippedNonBlankMembers(items);
    forall x
      ensures x in LowerNames(names) <==>
        exists i :: 0 <= i < |items| && Strip(ToStr(items[i])) != "" && Lower(Strip(ToStr(items[i]))) == x
    {
      if x in LowerNames(names) {
        var k :| 0 <= k < |names| && Lower(names[k]) == x;
        assert names[k] in names;
        var i :| 0 <= i < |items| && Strip(ToStr(items[i])) == names[k];
      }
      if exists i :: 0 <= i < |items| && Strip(ToStr(items[i])) != "" && Lower(Strip(ToStr(items[i]))) == x {
        var i :| 0 <= i < |items| && Strip(ToStr(items[i])) != "" && Lower(Strip(ToStr(items[i]))) == x;
        assert Strip(ToStr(items[i])) in names;
        var k :| 0 <= k < |names| && names[k] == Strip(ToStr(items[i]));
        assert Lower(names[k]) in LowerNames(names);
      }
    }
  }

  /** One named entry read into the overrides: a non-blank name takes `bool(value)`. */
  function OverrideStep(overrides: map<string, bool>, entry: (string, Value)): (r: map<string, bool>)
    ensures entry.0 == "" ==> r == overrides
    ensures entry.0 != "" ==> r.Keys == overrides.Keys + {entry.0} && r[entry.0] == Truthy(entry.1)
  {
    if entry.0 == "" then overrides else overrides[entry.0 := Truthy(entry.1)]
  }

  /** The overrides after the named entries `named` have been read in order: a later
      entry for the same name replaces an earlier one. */
  function OverridesAfter(named: Entries): map<string, bool>
    decreases |named|
  {
    if named == [] then map[]
    else OverrideStep(OverridesAfter(named[..|named| - 1]), named[|named| - 1])
  }

  /** `_normalize_overrides(section)` as a value: `{}` for anything but a dict. */
  function Overrides(section: Value): map<string, bool> {
    if section.Dict? then OverridesAfter(Named(section.entries)) else map[]
  }

  /** `_normalize_overrides(section)`: one assignment per non-blank key. */
  method NormalizeOverrides(section: Value) returns (overrides: map<string, bool>)
    ensures overrides == Overrides(section)
  {
    overrides := map[];
    if !section.Dict? {
      return;
    }
    var entries := section.entries;
    ghost var named := Named(entries);
    var i := 0;
    while i < |entries|
      invariant 0 <= i <= |entries|
      invariant overrides == OverridesAfter(named[..i])
    {
      OverridesAfterSnoc(named, i);
      var cmd := Normalized(entries[i].0);
      if cmd != "" {
        overrides := overrides[cmd := Truthy(entries[i].1)];
      }
      i := i + 1;
    }
    assert named[..|entries|] == named;
  }

  lemma OverridesAfterSnoc(named: Entries, i: nat)
    requires i < |named|
    ensures OverridesAfter(named[..i + 1]) == OverrideStep(OverridesAfter(named[..i]), named[i])
  {
    assert named[..i + 1][..i] == named[..i];
  }

  /** A name is overridden iff some entry carries it, and then the last such entry gives
      its flag. */
  lemma {:induction false} OverridesLastWins(named: Entries, cmd: string)
    requires cmd != ""
    ensures cmd in OverridesAfter(named) <==> exists i :: 0 <= i < |named| && named[i].0 == cmd
    ensures forall i ::
      (0 <= i < |named| && named[i].0 == cmd && (forall j :: i < j < |named| ==> named[j].0 != cmd))
      ==> (cmd in OverridesAfter(named) && OverridesAfter(named)[cmd] == Truthy(named[i].1))
    decreases |named|
  {
    if named != [] {
      var n := |named| - 1;
      var init := named[..n];
      OverridesLastWins(init, cmd);
      assert forall i :: 0 <= i < n ==> init[i] == named[i];
    }
  }

  // ---------------------------------------------------------------------------
  // pick_tool

  /** The `router` settings `pick_tool` reads, with their defaults. */
  datatype RouterSettings = RouterSettings(overlapDefault: string, enableGit: bool, enableGh: bool, unknownPolicy: string)

  function Settings(config: Entries): (s: RouterSettings)
    ensures s.overlapDefault != ""
  {
    var router := ConfigLoader.Router(config);
    var overlapDefault := Normalized(ToStr(GetOr(router, "overlap_default", Str("git"))));
    RouterSettings(
      if overlapDefault == "" then "git" else overlapDefault,
      Truthy(GetOr(router, "enable_git", Bool(true))),
      Truthy(GetOr(router, "enable_gh", Bool(true))),
      Normalized(ToStr(GetOr(router, "unknown_command_policy", Str("passthrough")))))
  }

  /** Whether a tool the settings can enable is enabled. */
  predicate Enabled(s: RouterSettings, tool: string) {
    (tool == "git" && s.enableGit) || (tool == "gh" && s.enableGh)
  }

  /** The fallback shared by overlap commands and unknown commands under `passthrough`:
      the preferred tool when it is enabled, else git, else gh, else the preferred tool
      anyway. */
  function Fallback(preferred: string, s: RouterSettings): (r: string)
    ensures Enabled(s, preferred) ==> r == preferred
    ensures (s.enableGit || s.enableGh) ==> Enabled(s, r)
    ensures !s.enableGit && !s.enableGh ==> r == preferred
    ensures !Enabled(s, preferred) && s.enableGit ==> r == "git"
    ensures !Enabled(s, preferred) && !s.enableGit && s.enableGh ==> r == "gh"
  {
    if preferred == "git" && s.enableGit then "git"
    else if preferred == "gh" && s.enableGh then "gh"
    else if s.enableGit then "git"
    else if s.enableGh then "gh"
    else preferred
  }

  /** The preferred tool of each named overlap entry read so far (only dict entries
      count; a later entry for the same name replaces an earlier one). */
  function OverlapDefaultsAfter(named: Entries, overlapDefault: string): map<string, string>
    decreases |named|
  {
    if named == [] then map[]
    else
      var prev := OverlapDefaultsAfter(named[..|named| - 1], overlapDefault);
      var last := named[|named| - 1];
      match last.1
      case Dict(e) => prev[last.0 := Normalized(ToStr(GetOr(e, "default", Str(overlapDefault))))]
      case _ => prev
  }

  /** The overlap table of `pick_tool`. */
  function OverlapDefaults(config: Entries, overlapDefault: string): map<string, string> {
    OverlapDefaultsAfter(Named(Section(config, "overlap_commands")), overlapDefault)
  }

  function UnrecognizedCommand(command: string): Error {
    RuntimeError("router: unrecognized command '" + command + "'.")
  }

  /** `pick_tool(command, tool_override, config)`, without the suggestion text that
      follows the error for an unrecognised command. */
  function PickTool(command: string, toolOverride: string, config: Entries): (r: Result<string>)
    ensures toolOverride != "" ==> r == Ok(toolOverride)
  {
    var s := Settings(config);
    if toolOverride != "" then Ok(toolOverride)
    else
      var overlap := OverlapDefaults(config, s.overlapDefault);
      var gitOnly :- LowerSet(GetOr(config, "git_only_commands", List([])));
      var ghOnly :- LowerSet(GetOr(config, "gh_only_commands", List([])));
      if command in overlap then Ok(Fallback(overlap[command], s))
      else if command in gitOnly then Ok("git")
      else if command in ghOnly then Ok("gh")
      else if s.unknownPolicy == "passthrough" then Ok(Fallback(s.overlapDefault, s))
      else Err(UnrecognizedCommand(command))
  }

  /** The order of the rules: overlap entries first, then the git-only list, then the
      gh-only list, then the unknown-command policy. */
  lemma PickToolOrder(command: string, config: Entries)
    requires LowerSet(GetOr(config, "git_only_commands", List([]))).Ok?
    requires LowerSet(GetOr(config, "gh_only_commands", List([]))).Ok?
    ensures var s := Settings(config);
      var overlap := OverlapDefaults(config, s.overlapDefault);
      var gitOnly := LowerSet(GetOr(config, "git_only_commands", List([]))).value;
      var ghOnly := LowerSet(GetOr(config, "gh_only_commands", List([]))).value;
      var r := PickTool(command, "", config);
      (command in overlap ==> r == Ok(Fallback(overlap[command], s)))
      && (command !in overlap && command in gitOnly ==> r == Ok("git"))
      && (command !in overlap && command !in gitOnly && command in ghOnly ==> r == Ok("gh"))
      && (command !in overlap && command !in gitOnly && command !in ghOnly ==>
            r == if s.unknownPolicy == "passthrough" then Ok(Fallback(s.overlapDefault, s))
                 else Err(UnrecognizedCommand(command)))
  {
  }

  /** Outside the git-only and gh-only lists, the chosen tool is an enabled one whenever
      either tool is enabled, and a command fails only when it is unknown and the policy
      is not `passthrough`. */
  lemma PickToolEnabled(command: string, config: Entries)
    requires LowerSet(GetOr(config, "git_only_commands", List([]))).Ok?
    requires LowerSet(GetOr(config, "gh_only_commands", List([]))).Ok?
    requires command !in LowerSet(GetOr(config, "git_only_commands", List([]))).value
    requires command !in LowerSet(GetOr(config, "gh_only_commands", List([]))).value
    ensures var s := Settings(config);
      var r := PickTool(command, "", config);
      (r.Ok? && (s.enableGit || s.enableGh) ==> ToolEnabled(r.value, config))
      && (r.Err? <==> command !in OverlapDefaults(config, s.overlapDefault)
                      && s.unknownPolicy != "passthrough")
  {
    PickToolOrder(command, config);
  }

  // ---------------------------------------------------------------------------
  // command_allowed and tool_enabled

  /** `command_allowed(tool, command, config)`: the tool's override for the command when
      there is one, `router.default_command_enabled` (true by default) otherwise. */
  predicate CommandAllowed(tool: string, command: string, config: Entries) {
    var defaultEnabled := Truthy(GetOr(ConfigLoader.Router(config), "default_command_enabled", Bool(true)));
    var overrides := Overrides(GetOr(Section(config, "command_overrides"), tool, Dict([])));
    if command in overrides then overrides[command] else defaultEnabled
  }

  /** An override listed for a tool decides, the last entry whose key normalises to the
      command winning; with none, the router default does. */
  lemma CommandAllowedOverride(tool: string, command: string, config: Entries)
    requires command != ""
    ensures var section := GetOr(Section(config, "command_overrides"), tool, Dict([]));
      var defaultEnabled := Truthy(GetOr(ConfigLoader.Router(config), "default_command_enabled", Bool(true)));
      (!section.Dict? ==> CommandAllowed(tool, command, config) == defaultEnabled)
      && (section.Dict? ==>
            var named := Named(section.entries);
            ((forall i :: 0 <= i < |named| ==> named[i].0 != command)
               ==> CommandAllowed(tool, command, config) == defaultEnabled)
            && (forall i :: (0 <= i < |named| && named[i].0 == command
                             && (forall j :: i < j < |named| ==> named[j].0 != command))
                  ==> CommandAllowed(tool, command, config) == Truthy(named[i].1)))
  {
    var section := GetOr(Section(config, "command_overrides"), tool, Dict([]));
    if section.Dict? {
      OverridesLastWins(Named(section.entries), command);
    }
  }

  /** `tool_enabled(tool, config)`: only `git` and `gh` can be enabled, each by its
      router flag, which defaults to true. */
  predicate ToolEnabled(tool: string, config: Entries) {
    Enabled(Settings(config), tool)
  }

  /** Nothing but `git` and `gh` is ever enabled, and with an empty configuration both
      are. */
  lemma ToolEnabledOnlyGitGh(tool: string, config: Entries)
    ensures ToolEnabled(tool, config) ==> tool == "git" || tool == "gh"
    ensures Get(config, "router").None? ==> (ToolEnabled(tool, config) <==> tool == "git" || tool == "gh")
  {
  }

  // ---------------------------------------------------------------------------
  // dispatch_builtin

  function CommandDisabled(command: string): Error {
    RuntimeError("router: command '" + command + "' is disabled by config")
  }

  function UnknownHandler(handler: string, command: string): Error {
    RuntimeError("router: unknown builtin handler '" + handler + "' for command '" + command + "'")
  }

  /** The handler `dispatch_builtin` would call for `command`, given the names of the
      registered handlers: `None` when the command is not a built-in. */
  function BuiltinHandler(command: string, config: Entries, handlers: set<string>): (r: Result<Option<string>>)
    ensures r == Ok(None) <==> command !in Commands(config)
    ensures r.Ok? && r.value.Some? ==> r.value.value in handlers
    ensures command in Commands(config) && !Truthy(GetOr(Commands(config)[command], "enabled", Bool(true)))
      ==> r == Err(CommandDisabled(command))
    ensures command in Commands(config) && Truthy(GetOr(Commands(config)[command], "enabled", Bool(true))) ==>
      var configured := Normalized(ToStr(GetOr(Commands(config)[command], "handler", Str(""))));
      var handler := if configured != "" then configured else command;
      (r == Ok(Some(handler)) <==> handler in handlers)
      && (r == Err(UnknownHandler(handler, command)) <==> handler !in handlers)
  {
    var commands := Commands(config);
    if command !in commands then Ok(None)
    else
      var meta := commands[command];
      if !Truthy(GetOr(meta, "enabled", Bool(true))) then Err(CommandDisabled(command))
      else
        var handlerName := Normalized(ToStr(GetOr(meta, "handler", Str(""))));
        var handler := if handlerName == "" then command else handlerName;
        if handler !in handlers then Err(UnknownHandler(handler, command))
        else Ok(Some(handler))
  }

  /** Without configured commands, `state` is the only built-in, and it runs the
      `state` handler. */
  lemma BuiltinState(config: Entries, handlers: set<string>)
    requires Get(config, "commands").None?
    ensures forall command :: command != "state" ==> BuiltinHandler(command, config, handlers) == Ok(None)
    ensures BuiltinHandler("state", config, handlers)
      == if "state" in handlers then Ok(Some("state")) else Err(UnknownHandler("state", "state"))
  {
    NormalizedState();
  }

  lemma NormalizedState()
    ensures Normalized("state") == "state"
  {
    StripNoSpace("state");
  }
}
