/** The guardrails that stop a `git` command before it runs (`app/policy/guardrails.py`):
    safe mode, a clean worktree, protected branches, branch-name patterns and merge
    policies, checked in that order. The current branch, whether the worktree is clean
    and the `fnmatch` glob test are inputs here rather than calls to git. */
module Guardrails {
  import opened Wrappers
  import opened Text
  import opened Values

  /** `fnmatch(name, pattern)`, left abstract. */
  type Glob = (string, string) -> bool

  // ---------------------------------------------------------------------------
  // Helpers

  predicate IsDeleteFlag(token: string) {
    token == "-d" || token == "-D" || token == "--delete"
  }

  /** Whether some token is a delete flag. */
  predicate HasDeleteFlag(args: seq<string>)
    decreases |args|
  {
    args != [] && (IsDeleteFlag(args[0]) || HasDeleteFlag(args[1..]))
  }

  /** `_is_branch_delete(cmd, args)`: a `branch` command with `-d`, `-D` or `--delete`
      anywhere among its arguments. */
  predicate IsBranchDelete(cmd: string, args: seq<string>) {
    cmd == "branch" && HasDeleteFlag(args)
  }

  lemma {:induction false} HasDeleteFlagExists(args: seq<string>)
    ensures HasDeleteFlag(args) <==> exists i :: 0 <= i < |args| && IsDeleteFlag(args[i])
    decreases |args|
  {
    if args != [] {
      HasDeleteFlagExists(args[1..]);
      assert forall i :: 1 <= i < |args| ==> args[1..][i - 1] == args[i];
    }
  }

  /** A command deletes a branch iff it is `branch` and one of its arguments is a delete
      flag. */
  lemma BranchDeleteIff(cmd: string, args: seq<string>)
    ensures IsBranchDelete(cmd, args) <==> cmd == "branch" && exists i :: 0 <= i < |args| && IsDeleteFlag(args[i])
  {
    HasDeleteFlagExists(args);
  }

  /** `[p for p in pattern.split(" ") if p]` */
  function NonEmptyParts(parts: seq<string>): (r: seq<string>)
    ensures forall i :: 0 <= i < |r| ==> r[i] != ""
    decreases |parts|
  {
    if parts == [] then []
    else (if parts[0] != "" then [parts[0]] else []) + NonEmptyParts(parts[1..])
  }

  function Words(pattern: string): seq<string> {
    NonEmptyParts(Split(pattern, ' '))
  }

  /** One safe-mode pattern against a command: its first word is the command and every
      further word is among the arguments, in any order. */
  predicate PatternMatches(parts: seq<string>, cmd: string, args: seq<string>) {
    parts != [] && parts[0] == cmd && forall j :: 1 <= j < |parts| ==> parts[j] in args
  }

  /** `_matches_safe_block(cmd, args, patterns)`: the first matching pattern stops the
      search. */
  function MatchesSafeBlock(cmd: string, args: seq<string>, patterns: seq<string>): (r: bool)
    ensures r <==> exists i :: 0 <= i < |patterns| && PatternMatches(Words(patterns[i]), cmd, args)
    decreases |patterns|
  {
    if patterns == [] then false
    else
      var parts := Words(patterns[0]);
      if parts == [] || parts[0] != cmd then MatchesSafeBlock(cmd, args, patterns[1..])
      else if |parts| == 1 then true
      else if forall j :: 1 <= j < |parts| ==> parts[j] in args then true
      else
        var rest := MatchesSafeBlock(cmd, args, patterns[1..]);
        assert forall i :: 1 <= i < |patterns| ==> patterns[1..][i - 1] == patterns[i];
        rest
  }

  /** Only which words the arguments contain matters, not their order or repetition. */
  lemma SafeBlockIgnoresOrder(cmd: string, args: seq<string>, args': seq<string>, patterns: seq<string>)
    requires forall x :: x in args <==> x in args'
    ensures MatchesSafeBlock(cmd, args, patterns) == MatchesSafeBlock(cmd, args', patterns)
  {
    if MatchesSafeBlock(cmd, args, patterns) {
      var i :| 0 <= i < |patterns| && PatternMatches(Words(patterns[i]), cmd, args);
      assert PatternMatches(Words(patterns[i]), cmd, args');
    }
    if MatchesSafeBlock(cmd, args', patterns) {
      var i :| 0 <= i < |patterns| && PatternMatches(Words(patterns[i]), cmd, args');
      assert PatternMatches(Words(patterns[i]), cmd, args);
    }
  }

  /** `_branch_matches(name, patterns)` */
  predicate BranchMatches(name: string, patterns: seq<string>, glob: Glob) {
    exists i :: 0 <= i < |patterns| && glob(name, patterns[i])
  }

  // ---------------------------------------------------------------------------
  // The merge source

  /** The last argument without a leading `-`, or `""` when there is none. */
  function LastNonDash(tokens: seq<string>): string
    decreases |tokens|
  {
    if tokens == [] then ""
    else if StartsWith(tokens[|tokens| - 1], "-") then LastNonDash(tokens[..|tokens| - 1])
    else tokens[|tokens| - 1]
  }

  /** The merge source is the empty string when every argument is a flag, and otherwise
      an argument without a leading dash after which every argument is a flag. */
  lemma {:induction false} LastNonDashIsLast(tokens: seq<string>)
    ensures (forall i :: 0 <= i < |tokens| ==> StartsWith(tokens[i], "-")) ==> LastNonDash(tokens) == ""
    ensures (exists i :: 0 <= i < |tokens| && !StartsWith(tokens[i], "-")) ==>
      exists i :: 0 <= i < |tokens| && tokens[i] == LastNonDash(tokens) && !StartsWith(tokens[i], "-")
        && forall j :: i < j < |tokens| ==> StartsWith(tokens[j], "-")
    decreases |tokens|
  {
    if tokens != [] {
      var n := |tokens| - 1;
      var init := tokens[..n];
      LastNonDashIsLast(init);
      assert forall i :: 0 <= i < n ==> init[i] == tokens[i];
      if !StartsWith(tokens[n], "-") {
        assert LastNonDash(tokens) == tokens[n];
      } else if exists i :: 0 <= i < |tokens| && !StartsWith(tokens[i], "-") {
        var i :| 0 <= i < |tokens| && !StartsWith(tokens[i], "-");
        assert i < n && !StartsWith(init[i], "-");
        var w :| 0 <= w < n && init[w] == LastNonDash(init) && !StartsWith(init[w], "-")
          && forall j :: w < j < n ==> StartsWith(init[j], "-");
        assert tokens[w] == LastNonDash(tokens);
        assert forall j :: w < j < |tokens| ==> StartsWith(tokens[j], "-");
      }
    }
  }

  /** The `for token in cmd_args` loop of the merge rule: skip flags, remember the last
      other token. */
  method MergeSource(cmdArgs: seq<string>) returns (source: string)
    ensures source == LastNonDash(cmdArgs)
  {
    source := "";
    var i := 0;
    while i < |cmdArgs|
      invariant 0 <= i <= |cmdArgs|
      invariant source == LastNonDash(cmdArgs[..i])
    {
      assert cmdArgs[..i + 1][..i] == cmdArgs[..i];
      if !StartsWith(cmdArgs[i], "-") {
        source := cmdArgs[i];
      }
      i := i + 1;
    }
    assert cmdArgs[..|cmdArgs|] == cmdArgs;
  }

  // ---------------------------------------------------------------------------
  // Merge policies

  /** The allowed sources of a rule, stripped and without blanks. */
  function AllowedSources(rule: Entries): Result<seq<string>> {
    StrippedListOf(GetOr(rule, "allowed_sources", List([])))
  }

  function MergeMessage(branch: string, allowed: seq<string>): string {
    "router guardrails: merge into " + branch + " allowed only from " + Join(allowed, ", ")
  }

  /** Whether a rule targets the branch (a non-blank `target` equal to it). */
  predicate Targets(rule: Value, branch: string) {
    rule.Dict? && var target := Strip(ToStr(GetOr(rule.entries, "target", Str(""))));
    target != "" && target == branch
  }

  /** A rule that refuses a merge of `source` into `branch`: it targets the branch, lists
      allowed sources, and `source` is non-empty and not among them. */
  predicate Refuses(rule: Value, branch: string, source: string) {
    Targets(rule, branch) && AllowedSources(rule.entries).Ok?
    && var allowed := AllowedSources(rule.entries).value;
    allowed != [] && source != "" && source !in allowed
  }

  /** What one rule decides: `Ok(Some(message))` when it refuses the merge, `Ok(None)`
      when it lets the loop go on, an error when its allowed sources cannot be read. */
  function RuleOutcome(rule: Value, branch: string, source: string): (r: Result<Option<string>>)
    ensures r.Ok? && r.value.Some? <==> Refuses(rule, branch, source)
    ensures r.Ok? && r.value.Some? ==> r.value.value == MergeMessage(branch, AllowedSources(rule.entries).value)
  {
    if !Targets(rule, branch) then Ok(None)
    else
      var allowed :- AllowedSources(rule.entries);
      if allowed != [] && source != "" && source !in allowed then Ok(Some(MergeMessage(branch, allowed)))
      else Ok(None)
  }

  /** The `for rule in merge_policies` loop: the message of the first rule that refuses
      the merge. */
  function MergePolicyBlock(rules: seq<Value>, branch: string, source: string): (r: Result<Option<string>>)
    decreases |rules|
  {
    if rules == [] then Ok(None)
    else
      var outcome :- RuleOutcome(rules[0], branch, source);
      if outcome.Some? then Ok(outcome) else MergePolicyBlock(rules[1..], branch, source)
  }

  /** When the loop completes, the merge is refused iff some rule refuses it, and the
      message is that of a refusing rule. */
  lemma {:induction false} MergeRefusedIff(rules: seq<Value>, branch: string, source: string)
    requires MergePolicyBlock(rules, branch, source).Ok?
    ensures var r := MergePolicyBlock(rules, branch, source).value;
      (r.Some? <==> exists i :: 0 <= i < |rules| && Refuses(rules[i], branch, source))
      && (r.Some? ==> exists i :: 0 <= i < |rules| && Refuses(rules[i], branch, source) &&
                        r.value == MergeMessage(branch, AllowedSources(rules[i].entries).value))
    decreases |rules|
  {
    if rules != [] {
      var outcome := RuleOutcome(rules[0], branch, source);
      if outcome.value.None? {
        MergeRefusedIff(rules[1..], branch, source);
        assert forall i :: 1 <= i < |rules| ==> rules[1..][i - 1] == rules[i];
      }
    }
  }

  // ---------------------------------------------------------------------------
  // guardrails_block

  /** The stripped, non-blank lists the guardrails section holds. */
  datatype GuardLists = GuardLists(
    protectedBranches: seq<string>,
    protectedPatterns: seq<string>,
    protectedOps: seq<string>,
    requireCleanOps: seq<string>,
    safeBlockOps: seq<string>,
    enforceNameOps: seq<string>,
    branchPatterns: seq<string>)

  /** `[str(item).strip() for item in guard.get(key, []) if str(item).strip()]` */
  function ListSetting(guard: Entries, key: string): Result<seq<string>> {
    StrippedListOf(GetOr(guard, key, List([])))
  }

  /** The seven lists, read in the order the source reads them; the first one that
      cannot be iterated fails. */
  function ReadLists(guard: Entries): Result<GuardLists> {
    var protectedBranches :- ListSetting(guard, "protected_branches");
    var protectedPatterns :- ListSetting(guard, "protected_patterns");
    var protectedOps :- ListSetting(guard, "protected_ops");
    var requireCleanOps :- ListSetting(guard, "require_clean_ops");
    var safeBlockOps :- ListSetting(guard, "safe_block_ops");
    var enforceNameOps :- ListSetting(guard, "enforce_branch_name_ops");
    var branchPatterns :- ListSetting(guard, "branch_name_patterns");
    Ok(GuardLists(protectedBranches, protectedPatterns, protectedOps, requireCleanOps,
                  safeBlockOps, enforceNameOps, branchPatterns))
  }

  /** The runtime switches under `_runtime`, false unless set. */
  datatype Switches = Switches(override: bool, safeMode: bool, requireClean: bool)

  function ReadSwitches(config: Entries): Switches {
    var runtime := Section(config, "_runtime");
    Switches(Truthy(GetOr(runtime, "override", Bool(false))),
             Truthy(GetOr(runtime, "safe_mode", Bool(false))),
             Truthy(GetOr(runtime, "require_clean", Bool(false))))
  }

  const SafeModeMessage := "router guardrails: blocked by safe mode"
  const NotCleanMessage := "router guardrails: worktree not clean (use --override to proceed)"
  const NameMessage := "router guardrails: branch name does not match allowed patterns"

  function ProtectedMessage(branch: string): string {
    "router guardrails: blocked on protected branch '" + branch + "'"
  }

  /** Whether the command must run on a clean worktree: always under the switch or when
      listed, but a `branch` command only when it deletes. */
  predicate NeedsClean(cmd: string, cmdArgs: seq<string>, lists: GuardLists, sw: Switches) {
    (sw.requireClean || cmd in lists.requireCleanOps) && (cmd != "branch" || IsBranchDelete(cmd, cmdArgs))
  }

  /** Whether the command is refused on a protected branch. */
  predicate ProtectedHit(cmd: string, cmdArgs: seq<string>, branch: string, lists: GuardLists, glob: Glob) {
    (branch in lists.protectedBranches || BranchMatches(branch, lists.protectedPatterns, glob))
    && ((cmd in lists.protectedOps && cmd != "branch") || IsBranchDelete(cmd, cmdArgs))
  }

  /** Whether the branch name breaks the naming rule for this command. */
  predicate NameHit(cmd: string, branch: string, lists: GuardLists, glob: Glob) {
    lists.branchPatterns != [] && cmd in lists.enforceNameOps && !BranchMatches(branch, lists.branchPatterns, glob)
  }

  /** The guardrails section: `{}` when absent or not a dict. */
  function Guard(config: Entries): Entries {
    Section(config, "guardrails")
  }

  /** The checks after the lists are read, for a git command `cmd` with `cmdArgs`. */
  function Checks(cmd: string, cmdArgs: seq<string>, config: Entries, lists: GuardLists,
                  branch: string, clean: bool, glob: Glob): Result<Option<string>> {
    var sw := ReadSwitches(config);
    if sw.override then Ok(None)
    else if sw.safeMode && MatchesSafeBlock(cmd, cmdArgs, lists.safeBlockOps) then Ok(Some(SafeModeMessage))
    else if NeedsClean(cmd, cmdArgs, lists, sw) && !clean then Ok(Some(NotCleanMessage))
    else if ProtectedHit(cmd, cmdArgs, branch, lists, glob) then Ok(Some(ProtectedMessage(branch)))
    else if NameHit(cmd, branch, lists, glob) then Ok(Some(NameMessage))
    else if cmd == "merge" then
      var rules :- IterateOrEmpty(GetOr(Guard(config), "merge_policies", List([])));
      MergePolicyBlock(rules, branch, LastNonDash(cmdArgs))
    else Ok(None)
  }

  /** `guardrails_block(tool, args, config, git_output)`: the message that blocks the
      command, or `None`. */
  function GuardrailsBlock(tool: string, args: seq<string>, config: Entries,
                           branch: string, clean: bool, glob: Glob): (r: Result<Option<string>>)
    ensures Guard(config) == [] || args == [] || tool != "git" ==> r == Ok(None)
    ensures r.Ok? && r.value.Some? ==> tool == "git" && args != []
  {
    var guard := Guard(config);
    if guard == [] || args == [] || tool != "git" then Ok(None)
    else
      var lists :- ReadLists(guard);
      Checks(args[0], args[1..], config, lists, branch, clean, glob)
  }

  /** The override switch lets every command through once the lists are readable. */
  lemma OverrideLetsThrough(tool: string, args: seq<string>, config: Entries, branch: string, clean: bool, glob: Glob)
    requires ReadSwitches(config).override && ReadLists(Guard(config)).Ok?
    ensures GuardrailsBlock(tool, args, config, branch, clean, glob) == Ok(None)
  {
  }

  /** The checks run in a fixed order and the first hit decides: safe mode, then the
      clean worktree, then protected branches, then branch names, then merge policy. */
  lemma ChecksInOrder(cmd: string, cmdArgs: seq<string>, config: Entries, lists: GuardLists,
                      branch: string, clean: bool, glob: Glob)
    requires !ReadSwitches(config).override
    ensures var r := Checks(cmd, cmdArgs, config, lists, branch, clean, glob);
      var sw := ReadSwitches(config);
      var safe := sw.safeMode && MatchesSafeBlock(cmd, cmdArgs, lists.safeBlockOps);
      var dirty := NeedsClean(cmd, cmdArgs, lists, sw) && !clean;
      (safe ==> r == Ok(Some(SafeModeMessage)))
      && (!safe && dirty ==> r == Ok(Some(NotCleanMessage)))
      && (!safe && !dirty && ProtectedHit(cmd, cmdArgs, branch, lists, glob) ==> r == Ok(Some(ProtectedMessage(branch))))
      && (!safe && !dirty && !ProtectedHit(cmd, cmdArgs, branch, lists, glob) && NameHit(cmd, branch, lists, glob) ==>
            r == Ok(Some(NameMessage)))
      && (var passes := !safe && !dirty && !ProtectedHit(cmd, cmdArgs, branch, lists, glob) && !NameHit(cmd, branch, lists, glob);
          passes && cmd != "merge" ==> r == Ok(None))
  {
  }

  /** A `branch` command that deletes nothing never needs a clean worktree, and one that
      deletes on a protected branch is refused unless safe mode or the worktree check
      fires first. */
  lemma BranchCommandRules(cmdArgs: seq<string>, config: Entries, lists: GuardLists, branch: string, clean: bool, glob: Glob)
    requires !ReadSwitches(config).override
    ensures !IsBranchDelete("branch", cmdArgs) ==> !NeedsClean("branch", cmdArgs, lists, ReadSwitches(config))
    ensures IsBranchDelete("branch", cmdArgs) && branch in lists.protectedBranches
      && !(ReadSwitches(config).safeMode && MatchesSafeBlock("branch", cmdArgs, lists.safeBlockOps))
      && !(NeedsClean("branch", cmdArgs, lists, ReadSwitches(config)) && !clean)
      ==> Checks("branch", cmdArgs, config, lists, branch, clean, glob) == Ok(Some(ProtectedMessage(branch)))
  {
  }

  /** A merge that passes the earlier checks is refused iff some merge rule for the
      current branch refuses its source, the last argument that is not a flag. */
  lemma MergeRule(cmdArgs: seq<string>, config: Entries, lists: GuardLists, branch: string, clean: bool, glob: Glob)
    requires !ReadSwitches(config).override
    requires !(ReadSwitches(config).safeMode && MatchesSafeBlock("merge", cmdArgs, lists.safeBlockOps))
    requires !(NeedsClean("merge", cmdArgs, lists, ReadSwitches(config)) && !clean)
    requires !ProtectedHit("merge", cmdArgs, branch, lists, glob) && !NameHit("merge", branch, lists, glob)
    requires Checks("merge", cmdArgs, config, lists, branch, clean, glob).Ok?
    ensures var rules := IterateOrEmpty(GetOr(Guard(config), "merge_policies", List([])));
      rules.Ok?
      && (Checks("merge", cmdArgs, config, lists, branch, clean, glob).value.Some?
          <==> exists i :: 0 <= i < |rules.value| && Refuses(rules.value[i], branch, LastNonDash(cmdArgs)))
  {
    var rules := IterateOrEmpty(GetOr(Guard(config), "merge_policies", List([]))).value;
    MergeRefusedIff(rules, branch, LastNonDash(cmdArgs));
  }
}
