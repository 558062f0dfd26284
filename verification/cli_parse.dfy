/** The router's command-line helpers: the `--noise` flag reader, comma lists, the
    diff-filter letters of `--ops`, the token scanners of the diff-style and log-style
    commands, and the builders of `git diff` arguments and pathspecs. */
module CliParse {
  import opened Wrappers
  import opened Text
  import opened Values
  import ConfigLoader

  // ---------------------------------------------------------------------------
  // --noise

  /** `_parse_noise_flag(args, idx, command)`: whether the token at `idx` is a noise
      flag, the level it gives and the index to read next. */
  function ParseNoiseFlag(args: seq<string>, idx: nat): (r: (bool, string, nat))
    requires idx < |args|
    ensures r.0 <==> StartsWith(args[idx], "--noise=") || args[idx] == "--noise"
    ensures !r.0 ==> r.1 == "" && r.2 == idx
    ensures r.0 ==> idx < r.2 <= |args| && r.2 <= idx + 2
    ensures StartsWith(args[idx], "--noise=") ==> r.1 == Strip(args[idx][8..]) && r.2 == idx + 1
    ensures args[idx] == "--noise" && r.2 == idx + 2 ==> r.1 == Strip(args[idx + 1]) && !StartsWith(args[idx + 1], "-")
    ensures args[idx] == "--noise" && r.2 == idx + 1 ==>
      r.1 == "max" && (idx + 1 == |args| || StartsWith(args[idx + 1], "-"))
  {
    var token := args[idx];
    if StartsWith(token, "--noise=") then (true, Strip(token[8..]), idx + 1)
    else if token == "--noise" then
      if idx + 1 < |args| && !StartsWith(args[idx + 1], "-") then (true, Strip(args[idx + 1]), idx + 2)
      else (true, "max", idx + 1)
    else (false, "", idx)
  }

  // ---------------------------------------------------------------------------
  // Comma lists

  /** The parts that `_parse_list_arg` keeps, stripped, in order. */
  function KeptParts(parts: seq<string>): (r: seq<string>)
    ensures |r| <= |parts|
    ensures forall i :: 0 <= i < |r| ==> r[i] != ""
  {
    if parts == [] then []
    else
      var part := Strip(parts[|parts| - 1]);
      KeptParts(parts[..|parts| - 1]) + (if part != "" then [part] else [])
  }

  /** The items of a comma-delimited list. */
  function ListItems(value: string): seq<string> {
    KeptParts(Split(value, ','))
  }

  /** `_parse_list_arg(value)` */
  method ParseListArg(value: string) returns (items: seq<string>)
    ensures items == ListItems(value)
  {
    var parts := Split(value, ',');
    items := [];
    for i := 0 to |parts|
      invariant items == KeptParts(parts[..i])
    {
      var part := Strip(parts[i]);
      KeptPartsSnoc(parts, i, part);
      if part != "" {
        items := items + [part];
      }
    }
    assert parts[..|parts|] == parts;
  }

  /** One more part, as `KeptParts` sees it. */
  lemma KeptPartsSnoc(parts: seq<string>, i: nat, part: string)
    requires i < |parts| && part == Strip(parts[i])
    ensures KeptParts(parts[..i + 1]) == KeptParts(parts[..i]) + (if part != "" then [part] else [])
  {
    assert parts[..i + 1][..i] == parts[..i];
  }

  /** Every kept item is already stripped. */
  lemma {:induction false} KeptPartsStripped(parts: seq<string>)
    ensures forall i :: 0 <= i < |KeptParts(parts)| ==> Strip(KeptParts(parts)[i]) == KeptParts(parts)[i]
  {
    if parts != [] {
      var init := parts[..|parts| - 1];
      var prev := KeptParts(init);
      var part := Strip(parts[|parts| - 1]);
      var r := KeptParts(parts);
      assert r == prev + (if part != "" then [part] else []);
      KeptPartsStripped(init);
      StripIdempotent(parts[|parts| - 1]);
      forall i | 0 <= i < |r| ensures Strip(r[i]) == r[i] {
        if i < |prev| {
          assert r[i] == prev[i];
        } else {
          assert r[i] == part;
        }
      }
    }
  }

  /** An item that is stripped, non-empty and comma-free survives the round trip. */
  predicate ListItem(s: string) {
    s != "" && Strip(s) == s && ',' !in s
  }

  /** Well-formed items are all kept, unchanged. */
  lemma {:induction false} KeptPartsOfItems(items: seq<string>)
    requires forall i :: 0 <= i < |items| ==> ListItem(items[i])
    ensures KeptParts(items) == items
  {
    if items != [] {
      var init := items[..|items| - 1];
      assert ListItem(items[|items| - 1]);
      KeptPartsOfItems(init);
      assert init + [items[|items| - 1]] == items;
    }
  }

  /** Comma-free pieces joined with commas split back into themselves. */
  lemma {:induction false} SplitOfJoin(items: seq<string>)
    requires items != []
    requires forall i :: 0 <= i < |items| ==> ',' !in items[i]
    ensures Split(Join(items, ","), ',') == items
  {
    SplitWithoutSeparator(items[0], ',');
    if |items| > 1 {
      assert Join(items, ",") == items[0] + [','] + Join(items[1..], ",");
      SplitConcat(items[0], Join(items[1..], ","), ',');
      SplitOfJoin(items[1..]);
      assert [items[0]] + items[1..] == items;
    }
  }

  /** Joining well-formed items with commas and parsing the list gives the items back. */
  lemma ListItemsOfJoin(items: seq<string>)
    requires forall i :: 0 <= i < |items| ==> ListItem(items[i])
    ensures ListItems(Join(items, ",")) == items
  {
    if items == [] {
      assert Split("", ',') == [""];
      assert KeptParts([""]) == KeptParts([]) + [];
    } else {
      SplitOfJoin(items);
      KeptPartsOfItems(items);
    }
  }

  // ---------------------------------------------------------------------------
  // --ops

  /** The diff-filter letter of each label `_parse_ops` knows. */
  const OpsLabels: seq<(string, char)> := [
    ("added", 'A'), ("modified", 'M'), ("deleted", 'D'), ("renamed", 'R'), ("copied", 'C'),
    ("typechange", 'T'), ("unmerged", 'U'), ("unknown", 'X'), ("broken", 'B')
  ]

  /** The letter of `key` in a label table. */
  function LabelLetter(key: string, labels: seq<(string, char)>): (r: Option<char>)
    ensures r.Some? ==> exists i :: 0 <= i < |labels| && labels[i].1 == r.value
  {
    if labels == [] then None
    else if labels[0].0 == key then Some(labels[0].1)
    else LabelLetter(key, labels[1..])
  }

  lemma OpsLabelsUpper()
    ensures forall i :: 0 <= i < |OpsLabels| ==> IsUpperLetter(OpsLabels[i].1)
  {
  }

  predicate IsAsciiLetter(c: char) {
    'a' <= c <= 'z' || 'A' <= c <= 'Z'
  }

  predicate IsUpperLetter(c: char) {
    'A' <= c <= 'Z'
  }

  /** The letter a list item stands for: `None` for a blank item (skipped), an error
      for an unknown label. */
  function OpLetter(part: string): (r: Result<Option<char>>)
    ensures r.Ok? && r.value.Some? ==> IsUpperLetter(r.value.value)
  {
    var key := Lower(Strip(part));
    if key == "" then Ok(None)
    else if |key| == 1 && IsAsciiLetter(key[0]) then Ok(Some(UpperChar(key[0])))
    else
      OpsLabelsUpper();
      match LabelLetter(key, OpsLabels)
      case Some(c) => Ok(Some(c))
      case None => Err(RuntimeError("router diff: unknown ops value '" + part + "'"))
  }

  /** The letters that `letterOf` gives the items, in order, or the error of the first
      item it refuses. */
  function Collect(parts: seq<string>, letterOf: string -> Result<Option<char>>): Result<seq<char>> {
    if parts == [] then Ok([])
    else
      var prev :- Collect(parts[..|parts| - 1], letterOf);
      var letter :- letterOf(parts[|parts| - 1]);
      Ok(prev + (if letter.Some? then [letter.value] else []))
  }

  /** The letters of the `--ops` items. */
  function OpsLetters(parts: seq<string>): Result<seq<char>> {
    Collect(parts, OpLetter)
  }

  /** The letter with offset `k` from `A`. */
  function Letter(k: nat): char
    requires k < 26
  {
    ('A' as int + k) as char
  }

  /** The letters among the first `n` of the alphabet that are in `letters`, in order. */
  function SortedPrefix(letters: set<char>, n: nat): (r: string)
    requires n <= 26
    ensures forall i :: 0 <= i < |r| ==> 'A' <= r[i] && (r[i] as int) < 'A' as int + n
    ensures forall i, j :: 0 <= i < j < |r| ==> r[i] < r[j]
    ensures forall c :: c in r <==> c in letters && 'A' <= c && (c as int) < 'A' as int + n
  {
    if n == 0 then ""
    else SortedPrefix(letters, n - 1) + (if Letter(n - 1) in letters then [Letter(n - 1)] else [])
  }

  /** `"".join(sorted(set(letters)))` on upper-case letters: strictly increasing, and
      holding exactly the upper-case letters given. */
  function SortedLetters(letters: seq<char>): (r: string)
    ensures forall i, j :: 0 <= i < j < |r| ==> r[i] < r[j]
    ensures forall c :: c in r <==> c in letters && IsUpperLetter(c)
  {
    SortedPrefix(set c | c in letters, 26)
  }

  /** `_parse_ops(value)` as a value. */
  function Ops(value: string): Result<string> {
    var letters :- OpsLetters(ListItems(value));
    Ok(SortedLetters(letters))
  }

  /** `_parse_ops(value)`: the letters collected item by item, then sorted without
      duplicates. */
  method ParseOps(value: string) returns (r: Result<string>)
    ensures r == Ops(value)
  {
    var parts := ParseListArg(value);
    var letters: seq<char> := [];
    for i := 0 to |parts|
      invariant Collect(parts[..i], OpLetter) == Ok(letters)
    {
      var letter := OpLetter(parts[i]);
      CollectSnoc(parts, i, OpLetter);
      if letter.Err? {
        CollectErrorStays(parts, i + 1, OpLetter);
        return Err(letter.error);
      }
      if letter.value.Some? {
        letters := letters + [letter.value.value];
      } else {
        assert letters + [] == letters;
      }
    }
    assert parts[..|parts|] == parts;
    return Ok(SortedLetters(letters));
  }

  /** `Collect` on one more item. */
  lemma CollectSnoc(parts: seq<string>, n: nat, letterOf: string -> Result<Option<char>>)
    requires n < |parts|
    ensures Collect(parts[..n + 1], letterOf) ==
      match Collect(parts[..n], letterOf)
      case Err(e) => Err(e)
      case Ok(prev) =>
        match letterOf(parts[n])
        case Err(e) => Err(e)
        case Ok(letter) => Ok(prev + (if letter.Some? then [letter.value] else []))
  {
    assert parts[..n + 1][..n] == parts[..n];
  }

  /** An error in a prefix of the items is the error of the whole list. */
  lemma {:induction false} CollectErrorStays(parts: seq<string>, n: nat, letterOf: string -> Result<Option<char>>)
    requires n <= |parts| && Collect(parts[..n], letterOf).Err?
    ensures Collect(parts, letterOf) == Collect(parts[..n], letterOf)
    decreases |parts| - n
  {
    if n < |parts| {
      assert parts[..n + 1][..n] == parts[..n];
      CollectErrorStays(parts, n + 1, letterOf);
    } else {
      assert parts[..n] == parts;
    }
  }

  /** The list fails exactly when some item is refused. */
  lemma {:induction false} CollectError(parts: seq<string>, letterOf: string -> Result<Option<char>>)
    ensures Collect(parts, letterOf).Err? <==> exists i :: 0 <= i < |parts| && letterOf(parts[i]).Err?
  {
    if parts != [] {
      var init := parts[..|parts| - 1];
      var last := parts[|parts| - 1];
      CollectError(init, letterOf);
      if Collect(init, letterOf).Err? {
        var i :| 0 <= i < |init| && letterOf(init[i]).Err?;
        assert letterOf(parts[i]).Err?;
      } else if letterOf(last).Err? {
      } else {
        forall i | 0 <= i < |parts| ensures !letterOf(parts[i]).Err? {
          if i < |init| {
            assert parts[i] == init[i];
          }
        }
      }
    }
  }

  /** The letters are exactly those the items name. */
  lemma {:induction false} CollectMembers(parts: seq<string>, letterOf: string -> Result<Option<char>>, c: char)
    requires Collect(parts, letterOf).Ok?
    ensures c in Collect(parts, letterOf).value <==> exists i :: 0 <= i < |parts| && letterOf(parts[i]) == Ok(Some(c))
  {
    if parts != [] {
      var init := parts[..|parts| - 1];
      CollectMembers(init, letterOf, c);
      var prev := Collect(init, letterOf).value;
      if c in prev {
        var i :| 0 <= i < |init| && letterOf(init[i]) == Ok(Some(c));
        assert letterOf(parts[i]) == Ok(Some(c));
      }
      if exists i :: 0 <= i < |parts| && letterOf(parts[i]) == Ok(Some(c)) {
        var i :| 0 <= i < |parts| && letterOf(parts[i]) == Ok(Some(c));
        if i < |init| {
          assert letterOf(init[i]) == Ok(Some(c));
        }
      }
    }
  }

  /** `_parse_ops` gives a strictly increasing string (sorted, no duplicates) of exactly
      the letters its items name, and fails exactly when some item is unknown. */
  lemma OpsSortedDistinct(value: string)
    ensures Ops(value).Err? <==> exists i :: 0 <= i < |ListItems(value)| && OpLetter(ListItems(value)[i]).Err?
    ensures Ops(value).Ok? ==> (forall i, j :: 0 <= i < j < |Ops(value).value| ==> Ops(value).value[i] < Ops(value).value[j])
    ensures Ops(value).Ok? ==> forall c :: (c in Ops(value).value
      <==> exists i :: 0 <= i < |ListItems(value)| && OpLetter(ListItems(value)[i]) == Ok(Some(c)))
  {
    var parts := ListItems(value);
    CollectError(parts, OpLetter);
    if Ops(value).Ok? {
      forall c ensures c in Ops(value).value <==> exists i :: 0 <= i < |parts| && OpLetter(parts[i]) == Ok(Some(c)) {
        CollectMembers(parts, OpLetter, c);
        if exists i :: 0 <= i < |parts| && OpLetter(parts[i]) == Ok(Some(c)) {
          var i :| 0 <= i < |parts| && OpLetter(parts[i]) == Ok(Some(c));
          assert IsUpperLetter(c);
        }
      }
    }
  }

  // ---------------------------------------------------------------------------
  // Diff-style arguments

  /** The settings `_parse_diff_style_args` collects, with its positionals. */
  datatype DiffSettings = DiffSettings(
    noiseLevel: string,
    context: Option<int>,
    contextSet: bool,
    detail: int,
    detailMode: string,
    includes: seq<string>,
    excludes: seq<string>,
    ops: string,
    compactEnabled: bool,
    compactSpec: string,
    positionals: seq<string>)

  /** The settings before any token, with the configured default excludes. */
  function DiffStart(excludes: seq<string>): DiffSettings {
    DiffSettings("", None, false, 2, "", [], excludes, "", false, "", [])
  }

  /** The flags that take the next token as their value. */
  predicate DiffValueFlag(token: string) {
    token == "--context" || token == "--detail" || token == "--include" || token == "--exclude" || token == "--ops"
  }

  /** The detail mode selected by an output-shaping flag, if `token` is one. */
  function ModeFlag(token: string): Option<string> {
    if token == "--summary" then Some("summary")
    else if token == "--files-only" || token == "--super-compact" then Some("files")
    else if token == "--stat" then Some("stat")
    else if token == "--name-status" then Some("name-status")
    else None
  }

  /** What the diff scanner makes of a token. */
  datatype DiffToken =
    | NoiseToken              // `--noise` or `--noise=X`, read by `_parse_noise_flag`
    | ValueToken              // a flag that takes the next token as its value
    | CompactToken            // `--compact`, with an optional spec after it
    | CompactInline(spec: string)
    | ModeToken(mode: string)
    | DashToken               // any other token with a leading `-`
    | WordToken               // a positional

  /** The classification of a token. The exact flags are tested before the two prefixed
      forms; none of them starts with `--noise=` or `--compact=`, so the outcome is that of
      the order the scanner uses. */
  function DiffKind(token: string): (k: DiffToken)
    ensures k == WordToken <==> !StartsWith(token, "-")
    ensures k == ValueToken <==> DiffValueFlag(token)
  {
    if token == "--noise" then NoiseToken
    else if DiffValueFlag(token) then ValueToken
    else if token == "--compact" then CompactToken
    else if ModeFlag(token).Some? then ModeToken(ModeFlag(token).value)
    else if StartsWith(token, "--noise=") then NoiseToken
    else if StartsWith(token, "--compact=") then CompactInline(Strip(token[10..]))
    else if StartsWith(token, "-") then DashToken
    else WordToken
  }

  function MissingValue(command: string, flag: string): Error {
    RuntimeError("router " + command + ": " + flag + " requires a value")
  }

  function UnknownArgument(command: string, token: string): Error {
    RuntimeError("router " + command + ": unknown argument '" + token + "'")
  }

  /** The settings after a value flag has read its value. */
  function TakeDiffValue(flag: string, value: string, st: DiffSettings): (r: Result<DiffSettings>)
    ensures r.Ok? ==> (r.value.contextSet <==> st.contextSet || flag == "--context")
    ensures r.Ok? && flag == "--context" ==> r.value.context.Some?
    ensures r.Ok? && flag != "--context" ==> r.value.context == st.context
    ensures r.Ok? ==> st.excludes <= r.value.excludes && st.includes <= r.value.includes
    ensures r.Ok? ==> r.value.positionals == st.positionals
  {
    if flag == "--context" then
      var n :- ToInt(Str(value));
      Ok(st.(context := Some(n), contextSet := true))
    else if flag == "--detail" then
      var n :- ToInt(Str(value));
      Ok(st.(detail := n, detailMode := "detail"))
    else if flag == "--include" then Ok(st.(includes := st.includes + ListItems(value)))
    else if flag == "--exclude" then Ok(st.(excludes := st.excludes + ListItems(value)))
    else
      var ops :- Ops(value);
      Ok(st.(ops := ops))
  }

  /** One pass of the scanning loop on the remaining tokens `rest`: the new settings and
      the number of tokens consumed. */
  function DiffStep(rest: seq<string>, st: DiffSettings, command: string, allowPositional: bool): (r: Result<(DiffSettings, nat)>)
    requires rest != []
    ensures r.Ok? ==> 1 <= r.value.1 <= |rest|
  {
    var token := rest[0];
    match DiffKind(token)
    case NoiseToken =>
      var noise := ParseNoiseFlag(rest, 0);
      Ok((st.(noiseLevel := noise.1), if noise.0 then noise.2 else 1))
    case ValueToken =>
      if |rest| < 2 then Err(MissingValue(command, token))
      else
        var next :- TakeDiffValue(token, rest[1], st);
        Ok((next, 2))
    case CompactInline(spec) => Ok((st.(compactEnabled := true, compactSpec := spec), 1))
    case CompactToken =>
      if |rest| >= 2 && !StartsWith(rest[1], "-") then Ok((st.(compactEnabled := true, compactSpec := Strip(rest[1])), 2))
      else Ok((st.(compactEnabled := true), 1))
    case ModeToken(mode) => Ok((st.(detailMode := mode), 1))
    case DashToken => Err(UnknownArgument(command, token))
    case WordToken =>
      if allowPositional then Ok((st.(positionals := st.positionals + [token]), 1))
      else Err(UnknownArgument(command, token))
  }

  /** The scanning loop from settings `st` over the remaining tokens `rest`. */
  function DiffScan(rest: seq<string>, st: DiffSettings, command: string, allowPositional: bool): Result<DiffSettings>
    decreases |rest|
  {
    if rest == [] then Ok(st)
    else
      var step :- DiffStep(rest, st, command, allowPositional);
      DiffScan(rest[step.1..], step.0, command, allowPositional)
  }

  /** `_parse_diff_style_args(args, config, command, allow_positional=...)` as a value. */
  function DiffStyleArgs(args: seq<string>, config: Entries, command: string, allowPositional: bool): Result<DiffSettings> {
    var excludes :- ConfigLoader.LoadDefaultExcludes(config);
    DiffScan(args, DiffStart(excludes), command, allowPositional)
  }

  /** `_parse_diff_style_args`: the `while idx < len(args)` loop, one flag (with its
      value) or positional per pass. */
  method ParseDiffStyleArgs(args: seq<string>, config: Entries, command: string, allowPositional: bool)
    returns (r: Result<DiffSettings>)
    ensures r == DiffStyleArgs(args, config, command, allowPositional)
  {
    var excludes := ConfigLoader.LoadDefaultExcludes(config);
    if excludes.Err? {
      return Err(excludes.error);
    }
    r := ScanDiffArgs(args, DiffStart(excludes.value), command, allowPositional);
  }

  /** The `while idx < len(args)` loop of `_parse_diff_style_args`, from the settings
      it starts with. */
  method ScanDiffArgs(args: seq<string>, start: DiffSettings, command: string, allowPositional: bool)
    returns (r: Result<DiffSettings>)
    ensures r == DiffScan(args, start, command, allowPositional)
  {
    var st := start;
    var rest := args;
    var idx := 0;
    while rest != []
      invariant 0 <= idx <= |args| && rest == args[idx..]
      invariant DiffScan(rest, st, command, allowPositional) == DiffScan(args, start, command, allowPositional)
      decreases |rest|
    {
      var step := DiffStep(rest, st, command, allowPositional);
      if step.Err? {
        return Err(step.error);
      }
      st := step.value.0;
      rest := rest[step.value.1..];
      idx := idx + step.value.1;
    }
    return Ok(st);
  }

  /** The scan after one successful step. */
  lemma DiffScanUnfold(rest: seq<string>, st: DiffSettings, command: string, allowPositional: bool)
    requires rest != [] && DiffStep(rest, st, command, allowPositional).Ok?
    ensures var step := DiffStep(rest, st, command, allowPositional).value;
      DiffScan(rest, st, command, allowPositional) == DiffScan(rest[step.1..], step.0, command, allowPositional)
  {
  }

  /** One pass of the loop, as the scan sees it. */
  lemma DiffScanStep(args: seq<string>, idx: nat, st: DiffSettings, command: string, allowPositional: bool)
    requires idx < |args|
    ensures var step := DiffStep(args[idx..], st, command, allowPositional);
      step.Err? ==> DiffScan(args[idx..], st, command, allowPositional) == Err(step.error)
    ensures var step := DiffStep(args[idx..], st, command, allowPositional);
      step.Ok? ==> (idx + step.value.1 <= |args|
        && DiffScan(args[idx..], st, command, allowPositional) == DiffScan(args[idx + step.value.1..], step.value.0, command, allowPositional))
  {
    var step := DiffStep(args[idx..], st, command, allowPositional);
    if step.Ok? {
      assert args[idx..][step.value.1..] == args[idx + step.value.1..];
    }
  }

  /** A value flag reads the token after it, whatever that token is. */
  lemma DiffScanValue(flag: string, value: string, rest: seq<string>, st: DiffSettings, command: string, allowPositional: bool)
    requires DiffValueFlag(flag)
    ensures var taken := TakeDiffValue(flag, value, st);
      DiffScan([flag, value] + rest, st, command, allowPositional)
        == if taken.Err? then Err(taken.error) else DiffScan(rest, taken.value, command, allowPositional)
  {
    var args := [flag, value] + rest;
    assert args[0] == flag && args[1] == value && args[2..] == rest;
    assert DiffKind(flag) == ValueToken;
  }

  /** A value flag with nothing after it fails. */
  lemma DiffValueFlagAtEnd(flag: string, st: DiffSettings, command: string, allowPositional: bool)
    requires DiffValueFlag(flag)
    ensures DiffScan([flag], st, command, allowPositional) == Err(MissingValue(command, flag))
  {
    assert DiffKind(flag) == ValueToken;
  }

  /** A dash token that is no known flag fails, whatever follows. */
  lemma DiffUnknownDash(token: string, rest: seq<string>, st: DiffSettings, command: string, allowPositional: bool)
    requires DiffKind(token) == DashToken
    ensures DiffScan([token] + rest, st, command, allowPositional) == Err(UnknownArgument(command, token))
  {
    assert ([token] + rest)[0] == token;
  }

  /** `--context N` records `N` and marks the context as set. */
  lemma DiffContextConsumed(value: string, rest: seq<string>, st: DiffSettings, command: string, allowPositional: bool)
    ensures var r := DiffScan(["--context", value] + rest, st, command, allowPositional);
      match ParseInt(value)
      case None => r == Err(ValueError(value))
      case Some(n) => r == DiffScan(rest, st.(context := Some(n), contextSet := true), command, allowPositional)
  {
    DiffScanValue("--context", value, rest, st, command, allowPositional);
  }

  /** One step keeps what `DiffScanKeeps` states. */
  lemma DiffStepKeeps(rest: seq<string>, st: DiffSettings, command: string, allowPositional: bool)
    requires rest != []
    requires st.contextSet <==> st.context.Some?
    ensures var r := DiffStep(rest, st, command, allowPositional);
      r.Ok? ==> (
        && (r.value.0.contextSet <==> r.value.0.context.Some?)
        && (r.value.0.contextSet <==> st.contextSet || rest[0] == "--context")
        && st.excludes <= r.value.0.excludes
        && st.includes <= r.value.0.includes
        && st.positionals <= r.value.0.positionals
        && (!allowPositional ==> r.value.0.positionals == st.positionals))
  {
    if DiffKind(rest[0]) != ValueToken {
      assert rest[0] != "--context";
    }
  }

  /** What the scan keeps: `context_set` holds exactly when a context value is set, a set
      context stays set and is set only if `--context` occurs among the tokens; the
      configured excludes, the includes and the positionals are only ever extended, and
      no positional is taken unless the command allows them. */
  lemma {:induction false} DiffScanKeeps(rest: seq<string>, st: DiffSettings, command: string, allowPositional: bool)
    requires st.contextSet <==> st.context.Some?
    ensures var r := DiffScan(rest, st, command, allowPositional);
      r.Ok? ==> (
        && (r.value.contextSet <==> r.value.context.Some?)
        && (st.contextSet ==> r.value.contextSet)
        && (r.value.contextSet ==> st.contextSet || "--context" in rest)
        && st.excludes <= r.value.excludes
        && st.includes <= r.value.includes
        && st.positionals <= r.value.positionals
        && (!allowPositional ==> r.value.positionals == st.positionals))
    decreases |rest|
  {
    if rest != [] {
      var step := DiffStep(rest, st, command, allowPositional);
      if step.Ok? {
        var next := step.value.0;
        var tail := rest[step.value.1..];
        DiffStepKeeps(rest, st, command, allowPositional);
        DiffScanKeeps(tail, next, command, allowPositional);
        var r := DiffScan(rest, st, command, allowPositional);
        assert r == DiffScan(tail, next, command, allowPositional);
        if r.Ok? && r.value.contextSet && !next.contextSet {
          var k :| 0 <= k < |tail| && tail[k] == "--context";
          assert rest[step.value.1 + k] == "--context";
        }
      }
    }
  }

  /** The arguments `--exclude v1 --exclude v2 ...`. */
  function ExcludeArgs(values: seq<string>): (r: seq<string>)
    ensures |r| == 2 * |values|
  {
    if values == [] then [] else ["--exclude", values[0]] + ExcludeArgs(values[1..])
  }

  /** The items of several comma lists, one after the other. */
  function AllItems(values: seq<string>): seq<string> {
    if values == [] then [] else ListItems(values[0]) + AllItems(values[1..])
  }

  /** One `--exclude` flag with its value. */
  lemma DiffExcludeStep(value: string, rest: seq<string>, st: DiffSettings, command: string, allowPositional: bool)
    ensures DiffScan(["--exclude", value] + rest, st, command, allowPositional)
      == DiffScan(rest, st.(excludes := st.excludes + ListItems(value)), command, allowPositional)
  {
    assert TakeDiffValue("--exclude", value, st) == Ok(st.(excludes := st.excludes + ListItems(value)));
    DiffScanValue("--exclude", value, rest, st, command, allowPositional);
  }

  lemma ExcludesAppend(excludes: seq<string>, values: seq<string>)
    requires values != []
    ensures excludes + ListItems(values[0]) + AllItems(values[1..]) == excludes + AllItems(values)
  {
  }

  /** `--exclude` values extend the excludes in the order given. */
  lemma {:induction false} DiffExcludesInOrder(values: seq<string>, st: DiffSettings, command: string, allowPositional: bool)
    ensures DiffScan(ExcludeArgs(values), st, command, allowPositional)
      == Ok(st.(excludes := st.excludes + AllItems(values)))
  {
    if values != [] {
      var next := st.(excludes := st.excludes + ListItems(values[0]));
      assert ExcludeArgs(values) == ["--exclude", values[0]] + ExcludeArgs(values[1..]);
      DiffExcludeStep(values[0], ExcludeArgs(values[1..]), st, command, allowPositional);
      DiffExcludesInOrder(values[1..], next, command, allowPositional);
      ExcludesAppend(st.excludes, values);
    } else {
      assert st.excludes + AllItems(values) == st.excludes;
    }
  }

  /** The excludes of a command line made of `--exclude` flags are the configured
      default excludes followed by the listed values, in order. */
  lemma DiffStyleExcludes(values: seq<string>, config: Entries, command: string, allowPositional: bool)
    requires ConfigLoader.LoadDefaultExcludes(config).Ok?
    ensures var r := DiffStyleArgs(ExcludeArgs(values), config, command, allowPositional);
      r.Ok? && r.value.excludes == ConfigLoader.LoadDefaultExcludes(config).value + AllItems(values)
  {
    DiffExcludesInOrder(values, DiffStart(ConfigLoader.LoadDefaultExcludes(config).value), command, allowPositional);
  }

  /** Tokens without a leading dash become positionals, in order, when the command
      allows them, and are refused otherwise. */
  lemma {:induction false} DiffPositionals(rest: seq<string>, st: DiffSettings, command: string, allowPositional: bool)
    requires forall i :: 0 <= i < |rest| ==> !StartsWith(rest[i], "-")
    ensures allowPositional ==> DiffScan(rest, st, command, allowPositional) == Ok(st.(positionals := st.positionals + rest))
    ensures !allowPositional && rest != [] ==> DiffScan(rest, st, command, allowPositional) == Err(UnknownArgument(command, rest[0]))
    decreases |rest|
  {
    if rest != [] {
      var token := rest[0];
      assert DiffKind(token) == WordToken;
      var next := st.(positionals := st.positionals + [token]);
      if allowPositional {
        assert DiffStep(rest, st, command, allowPositional) == Ok((next, 1));
        DiffScanUnfold(rest, st, command, allowPositional);
        DiffPositionals(rest[1..], next, command, allowPositional);
        assert next.positionals + rest[1..] == st.positionals + rest;
      }
    } else {
      assert st.positionals + rest == st.positionals;
    }
  }

  // ---------------------------------------------------------------------------
  // Log-style arguments

  /** The settings `_parse_log_like_args` collects, with the tokens it leaves over. */
  datatype LogSettings = LogSettings(
    count: Option<int>,
    since: string,
    revRange: string,
    path: string,
    shortHash: bool,
    rest: seq<string>)

  const LogStart := LogSettings(None, "", "", "", false, [])

  /** What the log scanner makes of a token. */
  datatype LogToken = CountFlag | SinceFlag | RangeFlag | PathFlag | ShortHashFlag | OtherToken

  function LogKind(token: string): LogToken {
    if token == "--n" then CountFlag
    else if token == "--since" then SinceFlag
    else if token == "--range" then RangeFlag
    else if token == "--path" then PathFlag
    else if token == "--short-hash" then ShortHashFlag
    else OtherToken
  }

  /** The settings after a value flag has read its value. */
  function TakeLogValue(kind: LogToken, value: string, st: LogSettings): Result<LogSettings>
    requires kind != ShortHashFlag && kind != OtherToken
  {
    match kind
    case CountFlag =>
      var n :- ToInt(Str(value));
      Ok(st.(count := Some(n)))
    case SinceFlag => Ok(st.(since := Strip(value)))
    case RangeFlag => Ok(st.(revRange := Strip(value)))
    case PathFlag => Ok(st.(path := Strip(value)))
  }

  /** One pass of the log scanning loop: the new settings and the tokens consumed. */
  function LogStep(tokens: seq<string>, st: LogSettings, command: string): (r: Result<(LogSettings, nat)>)
    requires tokens != []
    ensures r.Ok? ==> 1 <= r.value.1 <= |tokens|
  {
    var token := tokens[0];
    var kind := LogKind(token);
    if kind == ShortHashFlag then Ok((st.(shortHash := true), 1))
    else if kind == OtherToken then Ok((st.(rest := st.rest + [token]), 1))
    else if |tokens| < 2 then Err(MissingValue(command, token))
    else
      var next :- TakeLogValue(kind, tokens[1], st);
      Ok((next, 2))
  }

  /** The log scanning loop over the remaining tokens. */
  function LogScan(tokens: seq<string>, st: LogSettings, command: string): Result<LogSettings>
    decreases |tokens|
  {
    if tokens == [] then Ok(st)
    else
      var step :- LogStep(tokens, st, command);
      LogScan(tokens[step.1..], step.0, command)
  }

  /** `_parse_log_like_args(args, command)`: the `while idx < len(args)` loop. */
  method ParseLogLikeArgs(args: seq<string>, command: string) returns (r: Result<LogSettings>)
    ensures r == LogScan(args, LogStart, command)
  {
    var st := LogStart;
    var rest := args;
    var idx := 0;
    while rest != []
      invariant 0 <= idx <= |args| && rest == args[idx..]
      invariant LogScan(rest, st, command) == LogScan(args, LogStart, command)
      decreases |rest|
    {
      var step := LogStep(rest, st, command);
      if step.Err? {
        return Err(step.error);
      }
      st := step.value.0;
      rest := rest[step.value.1..];
      idx := idx + step.value.1;
    }
    return Ok(st);
  }

  /** The scan after one successful step. */
  lemma LogScanUnfold(tokens: seq<string>, st: LogSettings, command: string)
    requires tokens != [] && LogStep(tokens, st, command).Ok?
    ensures var step := LogStep(tokens, st, command).value;
      LogScan(tokens, st, command) == LogScan(tokens[step.1..], step.0, command)
  {
  }

  /** One pass of the loop, as the scan sees it. */
  lemma LogScanStep(args: seq<string>, idx: nat, st: LogSettings, command: string)
    requires idx < |args|
    ensures var step := LogStep(args[idx..], st, command);
      step.Err? ==> LogScan(args[idx..], st, command) == Err(step.error)
    ensures var step := LogStep(args[idx..], st, command);
      step.Ok? ==> (idx + step.value.1 <= |args|
        && LogScan(args[idx..], st, command) == LogScan(args[idx + step.value.1..], step.value.0, command))
  {
    var step := LogStep(args[idx..], st, command);
    if step.Ok? {
      assert args[idx..][step.value.1..] == args[idx + step.value.1..];
    }
  }

  /** Tokens that are no log flag are all kept, in their original order. */
  lemma {:induction false} LogKeepsUnrecognised(tokens: seq<string>, st: LogSettings, command: string)
    requires forall i :: 0 <= i < |tokens| ==> LogKind(tokens[i]) == OtherToken
    ensures LogScan(tokens, st, command) == Ok(st.(rest := st.rest + tokens))
    decreases |tokens|
  {
    if tokens != [] {
      var next := st.(rest := st.rest + [tokens[0]]);
      assert LogStep(tokens, st, command) == Ok((next, 1));
      LogScanUnfold(tokens, st, command);
      LogKeepsUnrecognised(tokens[1..], next, command);
      assert next.rest + tokens[1..] == st.rest + tokens;
    } else {
      assert st.rest + tokens == st.rest;
    }
  }

  /** A log value flag reads the token after it, whatever that token is. */
  lemma LogScanValue(flag: string, value: string, tokens: seq<string>, st: LogSettings, command: string)
    requires LogKind(flag) != ShortHashFlag && LogKind(flag) != OtherToken
    ensures var taken := TakeLogValue(LogKind(flag), value, st);
      LogScan([flag, value] + tokens, st, command)
        == if taken.Err? then Err(taken.error) else LogScan(tokens, taken.value, command)
  {
    var args := [flag, value] + tokens;
    assert args[0] == flag && args[1] == value && args[2..] == tokens;
  }

  /** `--since`, `--range` and `--path` take the next token as their value, whatever it
      is, even another flag, and store it stripped. */
  lemma LogValueConsumed(flag: string, value: string, tokens: seq<string>, st: LogSettings, command: string)
    requires flag == "--since" || flag == "--range" || flag == "--path"
    ensures var next := if flag == "--since" then st.(since := Strip(value))
      else if flag == "--range" then st.(revRange := Strip(value)) else st.(path := Strip(value));
      LogScan([flag, value] + tokens, st, command) == LogScan(tokens, next, command)
  {
    if flag == "--since" {
      assert TakeLogValue(LogKind("--since"), value, st) == Ok(st.(since := Strip(value)));
      LogScanValue("--since", value, tokens, st, command);
    } else if flag == "--range" {
      assert TakeLogValue(LogKind("--range"), value, st) == Ok(st.(revRange := Strip(value)));
      LogScanValue("--range", value, tokens, st, command);
    } else {
      assert TakeLogValue(LogKind("--path"), value, st) == Ok(st.(path := Strip(value)));
      LogScanValue("--path", value, tokens, st, command);
    }
  }

  /** `--n` takes an integer; a value `int()` refuses fails. */
  lemma LogCountConsumed(value: string, tokens: seq<string>, st: LogSettings, command: string)
    ensures var r := LogScan(["--n", value] + tokens, st, command);
      match ParseInt(value)
      case None => r == Err(ValueError(value))
      case Some(n) => r == LogScan(tokens, st.(count := Some(n)), command)
  {
    assert LogKind("--n") == CountFlag;
    LogScanValue("--n", value, tokens, st, command);
  }

  /** A value flag with nothing after it fails. */
  lemma LogValueFlagAtEnd(flag: string, st: LogSettings, command: string)
    requires LogKind(flag) != ShortHashFlag && LogKind(flag) != OtherToken
    ensures LogScan([flag], st, command) == Err(MissingValue(command, flag))
  {
  }

  // ---------------------------------------------------------------------------
  // Builders

  /** The output-shaping modes that never include the patch. */
  predicate ShapingMode(mode: string) {
    mode == "files" || mode == "name-status" || mode == "stat" || mode == "summary"
  }

  /** The mode flag of a shaping mode. */
  function ShapingFlag(mode: string): string
    requires ShapingMode(mode)
  {
    if mode == "files" then "--name-only"
    else if mode == "name-status" then "--name-status"
    else if mode == "stat" then "--stat"
    else "--shortstat"
  }

  /** The flags for a detail level in patch mode. */
  function DetailFlags(detail: int): seq<string> {
    if detail == 0 then ["--name-only"]
    else if detail == 1 then ["--name-status"]
    else if detail == 2 then ["--patch"]
    else ["--patch", "--stat"]
  }

  /** `_build_diff_args(detail, detail_mode, range_ref)`: `diff`, the range when given,
      then the flags of the mode, and whether the output carries the patch. */
  function BuildDiffArgs(detail: int, detailMode: string, rangeRef: Option<string>): (r: (seq<string>, bool))
    ensures |r.0| >= 2 && r.0[0] == "diff"
    ensures rangeRef.Some? && rangeRef.value != "" ==> r.0[1] == rangeRef.value
    ensures var flags := r.0[if rangeRef.Some? && rangeRef.value != "" then 2 else 1..];
      r.1 <==> "--patch" in flags
    ensures r.1 <==> !ShapingMode(detailMode) && detail != 0 && detail != 1
  {
    var head := if rangeRef.Some? && rangeRef.value != "" then ["diff", rangeRef.value] else ["diff"];
    var mode := if detailMode == "" then "detail" else detailMode;
    var flags := if ShapingMode(mode) then [ShapingFlag(mode)] else DetailFlags(detail);
    assert (head + flags)[|head|..] == flags;
    (head + flags, !ShapingMode(mode) && detail != 0 && detail != 1)
  }

  const ExcludeMagic := ":(exclude)"

  /** `_build_pathspecs(includes, excludes)`: the includes, then each exclude behind
      the `:(exclude)` magic. */
  method BuildPathspecs(includes: seq<string>, excludes: seq<string>) returns (pathspecs: seq<string>)
    ensures |pathspecs| == |includes| + |excludes|
    ensures pathspecs[..|includes|] == includes
    ensures forall i :: 0 <= i < |excludes| ==> pathspecs[|includes| + i] == ExcludeMagic + excludes[i]
  {
    pathspecs := [];
    for i := 0 to |includes|
      invariant pathspecs == includes[..i]
    {
      pathspecs := pathspecs + [includes[i]];
    }
    assert includes[..|includes|] == includes;
    for i := 0 to |excludes|
      invariant |pathspecs| == |includes| + i
      invariant pathspecs[..|includes|] == includes
      invariant forall k :: 0 <= k < i ==> pathspecs[|includes| + k] == ExcludeMagic + excludes[k]
    {
      pathspecs := pathspecs + [ExcludeMagic + excludes[i]];
    }
  }

  /** `_validate_stat_name_status(command, show_stat, show_name_status)` */
  function ValidateStatNameStatus(command: string, showStat: bool, showNameStatus: bool): (r: Result<()>)
    ensures r.Err? <==> showStat && showNameStatus
    ensures r.Err? ==> r.error == RuntimeError("router " + command + ": choose --stat or --name-status, not both")
  {
    if showStat && showNameStatus then Err(RuntimeError("router " + command + ": choose --stat or --name-status, not both"))
    else Ok(())
  }
}
