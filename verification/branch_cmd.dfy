/** The classification rules of the `branch` command (`app/commands/branch_cmd.py`):
    its configuration section, the merge-policy status of a branch relative to a base,
    glob matching against a list of patterns, and the sync status of a branch against
    its upstream. Listing refs, reading commit dates and counting commits are git calls
    and come in as inputs. */
module BranchHygiene {
  import opened Wrappers
  import opened Text
  import opened Values
  import Guardrails

  // ---------------------------------------------------------------------------
  // _get_branch_config

  /** `_get_branch_config(config)`: the `branch_hygiene` section, `{}` unless it is a dict. */
  function BranchConfig(config: Entries): (r: Entries)
    ensures var v := Get(config, "branch_hygiene");
      (v.Some? && v.value.Dict? ==> r == v.value.entries) && (v.None? || !v.value.Dict? ==> r == [])
  {
    Section(config, "branch_hygiene")
  }

  /** `branch_cfg.get("merge_policies", [])`, iterated by the policy loop. */
  function MergePolicies(config: Entries): Result<seq<Value>> {
    Iterate(GetOr(BranchConfig(config), "merge_policies", List([])))
  }

  // ---------------------------------------------------------------------------
  // _match_any

  /** `_match_any(name, patterns)`: whether some pattern matches the name. */
  predicate MatchAny(name: string, patterns: seq<string>, glob: Guardrails.Glob): (r: bool)
    ensures r <==> exists i :: 0 <= i < |patterns| && glob(name, patterns[i])
    decreases |patterns|
  {
    if patterns == [] then false
    else
      assert forall i :: 1 <= i < |patterns| ==> patterns[1..][i - 1] == patterns[i];
      glob(name, patterns[0]) || MatchAny(name, patterns[1..], glob)
  }

  // ---------------------------------------------------------------------------
  // _merge_policy_status

  const StatusOk := "ok"
  const StatusBlocked := "blocked"

  /** What one rule says about merging `branch` into `base`: `Ok(true)` when it targets
      the base and names allowed sources that leave the branch out, `Ok(false)` when it
      does not apply, an error when its allowed sources cannot be iterated. */
  function RuleBlocks(rule: Value, base: string, branch: string): (r: Result<bool>)
    ensures !Guardrails.Targets(rule, base) ==> r == Ok(false)
    ensures r.Ok? && r.value <==>
      Guardrails.Targets(rule, base) && Guardrails.AllowedSources(rule.entries).Ok?
      && Guardrails.AllowedSources(rule.entries).value != []
      && branch !in Guardrails.AllowedSources(rule.entries).value
    ensures r.Err? ==> Guardrails.Targets(rule, base) && Guardrails.AllowedSources(rule.entries).Err?
  {
    if !Guardrails.Targets(rule, base) then Ok(false)
    else
      var allowed :- Guardrails.AllowedSources(rule.entries);
      Ok(allowed != [] && branch !in allowed)
  }

  /** `_merge_policy_status(base, branch, policies)`: `"blocked"` at the first rule that
      blocks the branch, `"ok"` when none does. */
  function MergePolicyStatus(base: string, branch: string, policies: seq<Value>): (r: Result<string>)
    ensures r.Ok? ==> r.value == StatusOk || r.value == StatusBlocked
    decreases |policies|
  {
    if policies == [] then Ok(StatusOk)
    else
      var blocks :- RuleBlocks(policies[0], base, branch);
      if blocks then Ok(StatusBlocked) else MergePolicyStatus(base, branch, policies[1..])
  }

  /** What each rule says, in order. */
  function Verdicts(base: string, branch: string, policies: seq<Value>): (r: seq<Result<bool>>)
    ensures |r| == |policies|
  {
    seq(|policies|, i requires 0 <= i < |policies| => RuleBlocks(policies[i], base, branch))
  }

  /** The policy loop over verdicts already taken: `"blocked"` at the first `true`, the
      error of the first failure met before that, `"ok"` when every verdict is `false`. */
  function FirstBlock(verdicts: seq<Result<bool>>): Result<string>
    decreases |verdicts|
  {
    if verdicts == [] then Ok(StatusOk)
    else if verdicts[0].Err? then Err(verdicts[0].error)
    else if verdicts[0].value then Ok(StatusBlocked)
    else FirstBlock(verdicts[1..])
  }

  /** Every verdict before position `i` lets the branch through. */
  predicate PassesBefore(verdicts: seq<Result<bool>>, i: int)
    requires 0 <= i <= |verdicts|
  {
    forall j :: 0 <= j < i ==> verdicts[j] == Ok(false)
  }

  /** `"blocked"` exactly when some verdict blocks and all before it pass; `"ok"` exactly
      when all pass. */
  lemma {:induction false} FirstBlockIff(verdicts: seq<Result<bool>>)
    ensures FirstBlock(verdicts) == Ok(StatusBlocked) <==>
      exists i :: 0 <= i < |verdicts| && PassesBefore(verdicts, i) && verdicts[i] == Ok(true)
    ensures FirstBlock(verdicts) == Ok(StatusOk) <==> PassesBefore(verdicts, |verdicts|)
    decreases |verdicts|
  {
    if verdicts != [] {
      var tail := verdicts[1..];
      FirstBlockIff(tail);
      assert forall j :: 1 <= j < |verdicts| ==> tail[j - 1] == verdicts[j];
      if verdicts[0] == Ok(false) {
        if exists i :: 0 <= i < |verdicts| && PassesBefore(verdicts, i) && verdicts[i] == Ok(true) {
          var i :| 0 <= i < |verdicts| && PassesBefore(verdicts, i) && verdicts[i] == Ok(true);
          assert PassesBefore(tail, i - 1) && tail[i - 1] == Ok(true);
        }
        if exists i :: 0 <= i < |tail| && PassesBefore(tail, i) && tail[i] == Ok(true) {
          var i :| 0 <= i < |tail| && PassesBefore(tail, i) && tail[i] == Ok(true);
          assert PassesBefore(verdicts, i + 1) && verdicts[i + 1] == Ok(true);
        }
        if PassesBefore(tail, |tail|) {
          assert PassesBefore(verdicts, |verdicts|);
        }
      } else {
        assert !PassesBefore(verdicts, |verdicts|);
        if verdicts[0] == Ok(true) {
          assert PassesBefore(verdicts, 0);
        }
      }
    }
  }

  /** The policy loop is the verdict loop run on the rules' verdicts. */
  lemma {:induction false} StatusIsFirstBlock(base: string, branch: string, policies: seq<Value>)
    ensures MergePolicyStatus(base, branch, policies) == FirstBlock(Verdicts(base, branch, policies))
    decreases |policies|
  {
    if policies != [] {
      StatusIsFirstBlock(base, branch, policies[1..]);
      assert Verdicts(base, branch, policies)[1..] == Verdicts(base, branch, policies[1..]);
    }
  }

  /** The status is `"blocked"` exactly when some rule blocks the branch and every rule
      before it is read without error and lets the branch through, and `"ok"` exactly
      when every rule does. */
  lemma MergePolicyStatusIff(base: string, branch: string, policies: seq<Value>)
    ensures var verdicts := Verdicts(base, branch, policies);
      MergePolicyStatus(base, branch, policies) == Ok(StatusBlocked) <==>
      exists i :: 0 <= i < |policies| && PassesBefore(verdicts, i) && verdicts[i] == Ok(true)
    ensures var verdicts := Verdicts(base, branch, policies);
      MergePolicyStatus(base, branch, policies) == Ok(StatusOk) <==> PassesBefore(verdicts, |policies|)
  {
    StatusIsFirstBlock(base, branch, policies);
    FirstBlockIff(Verdicts(base, branch, policies));
  }

  /** A list with no rule targeting the base leaves every branch `"ok"`. */
  lemma {:induction false} NoTargetIsOk(base: string, branch: string, policies: seq<Value>)
    requires forall i :: 0 <= i < |policies| ==> !Guardrails.Targets(policies[i], base)
    ensures MergePolicyStatus(base, branch, policies) == Ok(StatusOk)
    decreases |policies|
  {
    if policies != [] {
      assert forall i :: 1 <= i < |policies| ==> policies[1..][i - 1] == policies[i];
      NoTargetIsOk(base, branch, policies[1..]);
    }
  }

  /** A rule that is not a dict, or whose target is blank, is passed over. */
  lemma SkippedRule(base: string, branch: string, rule: Value, rest: seq<Value>)
    requires !rule.Dict? || Strip(ToStr(GetOr(rule.entries, "target", Str("")))) == ""
    ensures MergePolicyStatus(base, branch, [rule] + rest) == MergePolicyStatus(base, branch, rest)
  {
    assert ([rule] + rest)[1..] == rest;
  }

  /** A branch that every targeting rule lists among its allowed sources is `"ok"`. */
  lemma {:induction false} ListedBranchIsOk(base: string, branch: string, policies: seq<Value>)
    requires forall i :: 0 <= i < |policies| && Guardrails.Targets(policies[i], base) ==>
      Guardrails.AllowedSources(policies[i].entries).Ok?
      && branch in Guardrails.AllowedSources(policies[i].entries).value
    ensures MergePolicyStatus(base, branch, policies) == Ok(StatusOk)
    decreases |policies|
  {
    if policies != [] {
      assert forall i :: 1 <= i < |policies| ==> policies[1..][i - 1] == policies[i];
      ListedBranchIsOk(base, branch, policies[1..]);
    }
  }

  // ---------------------------------------------------------------------------
  // Sync status (the `sync-report` loop of `dispatch_branch`)

  /** `behind, ahead = counts.split()` on the output of `git rev-list --left-right --count`. */
  function SyncCounts(counts: string): (r: Result<(string, string)>)
    ensures r.Ok? <==> |SplitWs(counts)| == 2
    ensures r.Ok? ==> r.value == (SplitWs(counts)[0], SplitWs(counts)[1])
  {
    var words := SplitWs(counts);
    if |words| != 2 then Err(ValueError(counts)) else Ok((words[0], words[1]))
  }

  datatype SyncStatus = InSync | Ahead | Behind | Diverged

  /** The word printed after `status=`. */
  function StatusWord(s: SyncStatus): string {
    match s
    case InSync => "in-sync"
    case Ahead => "ahead"
    case Behind => "behind"
    case Diverged => "diverged"
  }

  /** The status of a branch from its ahead and behind counts, compared as text to "0". */
  function Sync(ahead: string, behind: string): (r: SyncStatus)
    ensures r == Diverged <==> ahead != "0" && behind != "0"
    ensures r == Ahead <==> ahead != "0" && behind == "0"
    ensures r == Behind <==> ahead == "0" && behind != "0"
    ensures r == InSync <==> ahead == "0" && behind == "0"
  {
    if ahead != "0" && behind != "0" then Diverged
    else if ahead != "0" then Ahead
    else if behind != "0" then Behind
    else InSync
  }

  /** Swapping the counts swaps ahead and behind and keeps the other two statuses. */
  lemma SyncSwap(ahead: string, behind: string)
    ensures Sync(ahead, behind) == Ahead ==> Sync(behind, ahead) == Behind
    ensures Sync(ahead, behind) == Behind ==> Sync(behind, ahead) == Ahead
    ensures Sync(ahead, behind) in {InSync, Diverged} ==> Sync(behind, ahead) == Sync(ahead, behind)
  {
  }

  /** The four status words are distinct, so the printed word determines the status. */
  lemma StatusWordInjective(a: SyncStatus, b: SyncStatus)
    ensures StatusWord(a) == StatusWord(b) ==> a == b
  {
  }
}
