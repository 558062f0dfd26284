/** The runtime context of a router run (`app/utils/runtime.py`): the active configuration,
    the log of commands a run resolved to, and the configured command timeout. */
module Runtime {
  import opened Wrappers
  import opened Values

  /** `{"tool": tool, "args": [str(a) for a in args]}` */
  function ResolvedEntry(tool: string, args: seq<Value>): (r: Value)
    ensures r.Dict? && Get(r.entries, "tool") == Some(Str(tool))
    ensures Get(r.entries, "args").Some? && Get(r.entries, "args").value.List?
    ensures var items := Get(r.entries, "args").value.items;
      |items| == |args| && forall i :: 0 <= i < |args| ==> items[i] == Str(ToStr(args[i]))
  {
    Dict([("tool", Str(tool)), ("args", List(seq(|args|, i requires 0 <= i < |args| => Str(ToStr(args[i])))))])
  }

  /** Whether recording reaches the append: a non-empty config whose `_runtime` is a dict
      and whose `resolved_commands` is missing or a list. */
  predicate Records(config: Option<Entries>) {
    config.Some? && config.value != []
    && var meta := Get(config.value, "_runtime");
    meta.Some? && meta.value.Dict?
    && GetOr(meta.value.entries, "resolved_commands", List([])).List?
  }

  /** The configuration after `record_resolved(tool, args)`. */
  function Recorded(config: Option<Entries>, tool: string, args: seq<Value>): (r: Option<Entries>)
    ensures !Records(config) ==> r == config
    ensures Records(config) ==> r.Some?
  {
    if !Records(config) then config
    else
      var meta := Get(config.value, "_runtime").value.entries;
      var resolved := GetOr(meta, "resolved_commands", List([])).items;
      var meta' := Set(meta, "resolved_commands", List(resolved + [ResolvedEntry(tool, args)]));
      Some(Set(config.value, "_runtime", Dict(meta')))
  }

  /** When recording applies, exactly one entry for the command is appended to the list
      (a missing list starting empty); every other key of `_runtime` and of the config
      keeps its value. */
  lemma RecordedAppendsOne(config: Option<Entries>, tool: string, args: seq<Value>)
    requires Records(config)
    ensures var meta := Get(config.value, "_runtime").value.entries;
      var before := GetOr(meta, "resolved_commands", List([])).items;
      var after := Recorded(config, tool, args).value;
      Get(after, "_runtime").Some? && Get(after, "_runtime").value.Dict?
      && var meta' := Get(after, "_runtime").value.entries;
      Get(meta', "resolved_commands") == Some(List(before + [ResolvedEntry(tool, args)]))
      && (forall k :: k != "resolved_commands" ==> Get(meta', k) == Get(meta, k))
      && (forall k :: k != "_runtime" ==> Get(after, k) == Get(config.value, k))
  {
  }

  /** Recording changes the configuration exactly when it applies. */
  lemma RecordedChangesIff(config: Option<Entries>, tool: string, args: seq<Value>)
    ensures Recorded(config, tool, args) != config <==> Records(config)
  {
    if Records(config) {
      RecordedAppendsOne(config, tool, args);
      var meta := Get(config.value, "_runtime").value.entries;
      var before := GetOr(meta, "resolved_commands", List([])).items;
      var after := Recorded(config, tool, args).value;
      var meta' := Get(after, "_runtime").value.entries;
      if Get(meta, "resolved_commands").Some? {
        assert Get(meta', "resolved_commands") != Get(meta, "resolved_commands") by {
          assert |before + [ResolvedEntry(tool, args)]| != |before|;
        }
      }
      assert meta' != meta;
    }
  }

  /** Two records in a row append both entries, in call order. */
  lemma RecordedTwice(config: Option<Entries>, tool1: string, args1: seq<Value>, tool2: string, args2: seq<Value>)
    requires Records(config)
    ensures var once := Recorded(config, tool1, args1);
      Records(once)
      && var twice := Recorded(once, tool2, args2).value;
      var before := GetOr(Get(config.value, "_runtime").value.entries, "resolved_commands", List([])).items;
      GetOr(Get(twice, "_runtime").value.entries, "resolved_commands", List([])).items
        == before + [ResolvedEntry(tool1, args1), ResolvedEntry(tool2, args2)]
  {
    RecordedAppendsOne(config, tool1, args1);
    var once := Recorded(config, tool1, args1);
    assert once.value != [] by {
      assert Get(once.value, "_runtime").Some?;
    }
    RecordedAppendsOne(once, tool2, args2);
    var before := GetOr(Get(config.value, "_runtime").value.entries, "resolved_commands", List([])).items;
    assert before + [ResolvedEntry(tool1, args1)] + [ResolvedEntry(tool2, args2)]
        == before + [ResolvedEntry(tool1, args1), ResolvedEntry(tool2, args2)];
  }

  /** `command_timeout` as configured, before `float()`: nothing when there is no config,
      the config is empty, or the key is missing or null. */
  function TimeoutSetting(config: Option<Entries>): (r: Option<Value>)
    ensures config.None? || config.value == [] ==> r.None?
    ensures config.Some? && Get(Section(config.value, "router"), "command_timeout") in {None, Some(Null)} ==> r.None?
    ensures r.Some? ==> r.value != Null && Get(Section(config.value, "router"), "command_timeout") == r
  {
    if config.None? || config.value == [] then None
    else
      var timeout := Get(Section(config.value, "router"), "command_timeout");
      if timeout.None? || timeout.value == Null then None else timeout
  }

  /** `RuntimeContext`: the active configuration dict, `None` until one is set. */
  class RuntimeContext {
    var config: Option<Entries>

    constructor()
      ensures config == None
    {
      config := None;
    }

    /** `set_config(config)`: a dict is stored, anything else clears the context. */
    method SetConfig(newConfig: Value)
      modifies this
      ensures newConfig.Dict? ==> config == Some(newConfig.entries)
      ensures !newConfig.Dict? ==> config == None
    {
      config := if newConfig.Dict? then Some(newConfig.entries) else None;
    }

    /** `get_config()` */
    method GetConfig() returns (c: Option<Entries>)
      ensures c == config
    {
      c := config;
    }

    /** `record_resolved(tool, args)`: appends the command to `_runtime.resolved_commands`
        (creating the list when missing), or does nothing when there is no non-empty
        config, `_runtime` is not a dict, or the list slot holds something else. */
    method RecordResolved(tool: string, args: seq<Value>)
      modifies this
      ensures config == Recorded(old(config), tool, args)
    {
      var runtime := GetConfig();
      if runtime.None? || runtime.value == [] {
        return;
      }
      var meta := Get(runtime.value, "_runtime");
      if meta.None? || !meta.value.Dict? {
        return;
      }
      // `meta.setdefault("resolved_commands", [])`
      var resolved := GetOr(meta.value.entries, "resolved_commands", List([]));
      if resolved.List? {
        var entries := Set(meta.value.entries, "resolved_commands", List(resolved.items + [ResolvedEntry(tool, args)]));
        config := Some(Set(runtime.value, "_runtime", Dict(entries)));
      }
    }

    /** `get_timeout()` on its paths that return `None` before any conversion: the raw
        setting when there is one. */
    method Timeout() returns (t: Option<Value>)
      ensures t == TimeoutSetting(config)
    {
      var runtime := GetConfig();
      if runtime.None? || runtime.value == [] {
        return None;
      }
      var routerConfig := Section(runtime.value, "router");
      var timeout := Get(routerConfig, "command_timeout");
      if timeout.None? || timeout.value == Null {
        return None;
      }
      t := timeout;
    }
  }
}
