/** The compact diff rewriter `_compact_output`: a unified diff goes in line by line
    and comes out with headers dropped or shortened, paths shortened or numbered
    through a table, hunk headers abbreviated and repeated `+`/`-`/` ` markers
    dropped. The per-line decision is the function `Step`; the rewrite of a whole
    text is `Rewrite`, and the method `CompactOutput` carries it out with the
    source's loops and dictionaries. */
module CompactRewrite {
  import opened Wrappers
  import opened Text
  import opened Values
  import ConfigLoader

  // ---------------------------------------------------------------------------
  // Options

  /** The option record with Python's coercions applied (`bool(options.get(k, False))`,
      `str(options.get(k, default) or default)`). */
  datatype Flags = Flags(
    dropHeaders: bool, dropDiffHeader: bool, dropHunkHeader: bool,
    shortDiffHeader: bool, shortHunkHeader: bool,
    dropFilemode: bool, dropRename: bool, dropSimilarity: bool, dropBinary: bool,
    pathStrip: string, pathBasename: bool, pathTable: bool, pathCommonPrefix: bool,
    pathPrefixToken: string, hunkNewOnly: bool, prefixFirstOnly: bool)

  predicate Flag(options: Entries, key: string) {
    Truthy(GetOr(options, key, Bool(false)))
  }

  function FlagsOf(options: Entries): (f: Flags)
    ensures f.pathPrefixToken != ""
    ensures f.pathStrip == "" <==> !Truthy(GetOr(options, "path_strip", Str("")))
  {
    var token := GetOr(options, "path_prefix_token", Str("..."));
    var strip := GetOr(options, "path_strip", Str(""));
    ConfigLoader.StrOrEmpty(token, "...");
    ConfigLoader.StrOrEmpty(strip, "");
    Flags(
      Flag(options, "drop_headers"), Flag(options, "drop_diff_header"),
      Flag(options, "drop_hunk_header"), Flag(options, "short_diff_header"),
      Flag(options, "short_hunk_header"), Flag(options, "drop_filemode"),
      Flag(options, "drop_rename"), Flag(options, "drop_similarity"),
      Flag(options, "drop_binary"), ConfigLoader.StrOr(strip, ""),
      Flag(options, "path_basename"), Flag(options, "path_table"),
      Flag(options, "path_common_prefix"), ConfigLoader.StrOr(token, "..."),
      Flag(options, "hunk_new_only"), Flag(options, "prefix_first_only"))
  }

  // ---------------------------------------------------------------------------
  // Paths

  /** Removes one leading `a/` or `b/`. */
  function StripSide(p: string): (r: string)
    ensures r == p || (|p| >= 2 && r == p[2..])
  {
    if StartsWith(p, "a/") || StartsWith(p, "b/") then p[2..] else p
  }

  /** The configured `path_strip` prefix removed, with the `/` that follows it. */
  function StripConfigured(p: string, strip: string): (r: string)
    ensures |r| <= |p| && r == p[|p| - |r|..]
    ensures strip == "" || !StartsWith(p, strip) ==> r == p
  {
    if strip != "" && StartsWith(p, strip) then
      var t := p[|strip|..];
      if StartsWith(t, "/") then t[1..] else t
    else p
  }

  /** The path named by the words of a `diff --git a/X b/Y` line: read from the
      `b/` side when it carries the `b/` marker and from the `a/` side otherwise,
      with the `a/`/`b/` marker, the configured `path_strip` prefix and then (under
      `path_basename`) the directories removed. The result is a tail of that side. */
  function PathOfWords(parts: seq<string>, f: Flags): (r: string)
    requires |parts| >= 4
    ensures var side := if StartsWith(parts[3], "b/") then parts[3] else parts[2];
      IsSuffix(r, side) && (f.pathStrip == "" && !f.pathBasename ==> r == StripSide(side))
    ensures f.pathBasename ==> forall i :: 0 <= i < |r| ==> r[i] != '/'
  {
    var side := if StartsWith(parts[3], "b/") then parts[3] else parts[2];
    var p := StripSide(side);
    var q := StripConfigured(p, f.pathStrip);
    var name := if f.pathBasename then LastSegment(q) else q;
    SuffixChain(name, q, p, side);
    name
  }

  /** `_extract_path`: the path of a `diff --git` line; a line of fewer than four
      words names none. */
  function ExtractPath(line: string, f: Flags): (r: string)
    ensures |SplitWs(line)| < 4 ==> r == ""
    ensures |SplitWs(line)| >= 4 ==> r == PathOfWords(SplitWs(line), f)
  {
    var parts := SplitWs(line);
    if |parts| < 4 then "" else PathOfWords(parts, f)
  }

  predicate IsSuffix(r: string, s: string) {
    |r| <= |s| && r == s[|s| - |r|..]
  }

  lemma SuffixTrans(r: string, q: string, s: string)
    requires IsSuffix(r, q) && IsSuffix(q, s)
    ensures IsSuffix(r, s)
  {
  }

  /** A tail of a tail of a tail is a tail. */
  lemma SuffixChain(name: string, q: string, p: string, side: string)
    requires |name| <= |q| && name == q[|q| - |name|..]
    requires |q| <= |p| && q == p[|p| - |q|..]
    requires p == side || (|side| >= 2 && p == side[2..])
    ensures IsSuffix(name, side)
  {
    assert IsSuffix(p, side);
    SuffixTrans(name, q, p);
    SuffixTrans(name, p, side);
  }

  /** A new element kept out of a list of distinct elements keeps it distinct. */
  lemma DistinctSnoc(s: seq<string>, x: string)
    requires Distinct(s) && x !in s
    ensures Distinct(s + [x])
  {
  }

  predicate Distinct(s: seq<string>) {
    forall i, j :: 0 <= i < j < |s| ==> s[i] != s[j]
  }

  predicate IsDiffHeader(line: string) {
    StartsWith(line, "diff --git ")
  }

  /** The paths of the `diff --git` lines, non-empty and each once, in the order
      they first appear. */
  function Discovered(lines: seq<string>, f: Flags): (r: seq<string>)
    ensures Distinct(r)
    ensures forall i :: 0 <= i < |r| ==> r[i] != ""
  {
    if lines == [] then []
    else
      var prev := Discovered(lines[..|lines| - 1], f);
      var line := lines[|lines| - 1];
      if IsDiffHeader(line) && ExtractPath(line, f) != "" && ExtractPath(line, f) !in prev
      then DistinctSnoc(prev, ExtractPath(line, f)); prev + [ExtractPath(line, f)]
      else prev
  }

  /** The position of the first occurrence of `x` in `s`. */
  function IndexOf(s: seq<string>, x: string): (r: nat)
    requires x in s
    ensures r < |s| && s[r] == x
    ensures forall j :: 0 <= j < r ==> s[j] != x
  {
    if s[0] == x then 0 else IndexOf(s[1..], x) + 1
  }

  /** The table ids: each path is numbered by its position, from 1. */
  function PathIds(paths: seq<string>): map<string, nat> {
    map p | p in paths :: IndexOf(paths, p) + 1
  }

  /** `item.split("/")[:-1]`: the directories of a path. */
  function DirSegments(item: string): seq<string> {
    var parts := Split(item, '/');
    parts[..|parts| - 1]
  }

  function MinLen(dirs: seq<seq<string>>): (r: nat)
    requires dirs != []
    ensures forall j :: 0 <= j < |dirs| ==> r <= |dirs[j]|
    ensures exists j :: 0 <= j < |dirs| && r == |dirs[j]|
  {
    if |dirs| == 1 then |dirs[0]|
    else
      var m := MinLen(dirs[1..]);
      assert forall j :: 1 <= j < |dirs| ==> dirs[j] == dirs[1..][j - 1];
      if |dirs[0]| <= m then |dirs[0]| else m
  }

  /** Every directory list has the same segment at `idx` as the first one. */
  predicate AgreeAt(dirs: seq<seq<string>>, idx: nat)
    requires dirs != [] && idx < MinLen(dirs)
  {
    forall j :: 0 <= j < |dirs| ==> dirs[j][idx] == dirs[0][idx]
  }

  /** The number of leading segments, from `idx` on, that all directory lists share. */
  function CommonCount(dirs: seq<seq<string>>, idx: nat): (r: nat)
    requires dirs != [] && idx <= MinLen(dirs)
    ensures idx <= r <= MinLen(dirs)
    decreases MinLen(dirs) - idx
  {
    if idx < MinLen(dirs) && AgreeAt(dirs, idx) then CommonCount(dirs, idx + 1) else idx
  }

  /** `_common_dir_prefix`: the directory segments every path shares, joined and
      followed by `/`; empty when there are no paths, when a path has no directory,
      or when the first segments already differ. */
  function CommonDirPrefix(items: seq<string>): (r: string)
    ensures r == "" || EndsWith(r, "/")
    ensures (items == [] || exists i :: 0 <= i < |items| && '/' !in items[i]) ==> r == ""
  {
    if items == [] || exists i :: 0 <= i < |items| && '/' !in items[i] then ""
    else
      var dirs := seq(|items|, i requires 0 <= i < |items| => DirSegments(items[i]));
      var n := CommonCount(dirs, 0);
      if n == 0 then "" else Join(dirs[0][..n], "/") + "/"
  }

  /** `_apply_common_prefix`: a path under the common prefix is shown as the prefix
      token followed by the rest of the path. */
  function ApplyCommonPrefix(path: string, prefix: string, token: string): (r: string)
    ensures prefix == "" || !StartsWith(path, prefix) ==> r == path
    ensures prefix != "" && StartsWith(path, prefix) ==> StartsWith(r, token)
  {
    if prefix != "" && StartsWith(path, prefix) then
      var trimmed := StripLeftChar(path[|prefix|..], '/');
      if trimmed != "" then token + "/" + trimmed else token
    else path
  }

  /** Reads a displayed path back into the path it stands for. */
  function ExpandCommonPrefix(shown: string, prefix: string, token: string): string {
    if shown == token then prefix
    else if StartsWith(shown, token + "/") then prefix + shown[|token| + 1..]
    else shown
  }

  // ---------------------------------------------------------------------------
  // Hunk headers

  /** A hunk header's ranges, as the decimal digit strings the header spells. */
  datatype Hunk = Hunk(oldStart: string, oldLen: Option<string>, newStart: string, newLen: Option<string>)

  predicate Digits(s: string) {
    forall i :: 0 <= i < |s| ==> IsDigit(s[i])
  }

  predicate WellFormedHunk(h: Hunk) {
    h.oldStart != "" && Digits(h.oldStart) && h.newStart != "" && Digits(h.newStart)
    && (h.oldLen.Some? ==> h.oldLen.value != "" && Digits(h.oldLen.value))
    && (h.newLen.Some? ==> h.newLen.value != "" && Digits(h.newLen.value))
  }

  /** The longest prefix of `s` made of digits. */
  function TakeDigits(s: string): (r: string)
    ensures |r| <= |s| && r == s[..|r|] && Digits(r)
    ensures |r| < |s| ==> !IsDigit(s[|r|])
  {
    if s == [] || !IsDigit(s[0]) then [] else [s[0]] + TakeDigits(s[1..])
  }

  /** One range `\d+(?:,\d+)?` at the front of `s`, and what follows it. */
  function ParseRange(s: string): (r: Option<(string, Option<string>, string)>)
    ensures r.Some? ==> s == RangeText(r.value.0, r.value.1) + r.value.2
    ensures r.Some? ==> r.value.0 != "" && Digits(r.value.0)
    ensures r.Some? && r.value.1.Some? ==> r.value.1.value != "" && Digits(r.value.1.value)
  {
    var start := TakeDigits(s);
    if start == "" then None
    else
      var rest := s[|start|..];
      if StartsWith(rest, ",") then
        var len := TakeDigits(rest[1..]);
        if len == "" then None else Some((start, Some(len), rest[1 + |len|..]))
      else Some((start, None, rest))
  }

  /** `re.match(r"@@ -(\d+)(?:,(\d+))? \+(\d+)(?:,(\d+))? @@.*", line)` for ASCII digits. */
  function ParseHunkHeader(line: string): (r: Option<Hunk>)
    ensures r.Some? ==> WellFormedHunk(r.value)
  {
    if StartsWith(line, "@@ -") then ParseOldRange(line[4..]) else None
  }

  /** The pattern after `@@ -`. */
  function ParseOldRange(s: string): (r: Option<Hunk>)
    ensures r.Some? ==> WellFormedHunk(r.value)
  {
    match ParseRange(s)
    case None => None
    case Some((start, len, rest)) =>
      if StartsWith(rest, " +") then ParseNewRange(start, len, rest[2..]) else None
  }

  /** The pattern after ` +`, given the old range. */
  function ParseNewRange(oldStart: string, oldLen: Option<string>, s: string): (r: Option<Hunk>)
    requires oldStart != "" && Digits(oldStart)
    requires oldLen.Some? ==> oldLen.value != "" && Digits(oldLen.value)
    ensures r.Some? ==> WellFormedHunk(r.value)
  {
    match ParseRange(s)
    case None => None
    case Some((start, len, tail)) =>
      if StartsWith(tail, " @@") then Some(Hunk(oldStart, oldLen, start, len)) else None
  }

  function RangeText(start: string, len: Option<string>): string {
    start + (if len.Some? then "," + len.value else "")
  }

  /** The header `@@ -a,b +c,d @@tail` for a hunk; a missing length is left out. */
  function RenderHunk(h: Hunk, tail: string): string {
    "@@ -" + (RangeText(h.oldStart, h.oldLen) + (" +" + (RangeText(h.newStart, h.newLen) + (" @@" + tail))))
  }

  /** The short form `@ a,b c,d`, or `@ c` with `hunk_new_only`; a length the header
      leaves out is written as 1. */
  function ShortHunk(h: Hunk, newOnly: bool): string {
    if newOnly then "@ " + h.newStart
    else "@ " + h.oldStart + "," + h.oldLen.GetOr("1") + " " + h.newStart + "," + h.newLen.GetOr("1")
  }

  // ---------------------------------------------------------------------------
  // One line

  /** What the rewrite of one line needs besides the line: the options, the table ids
      (`path_ids`) and the common directory prefix. */
  datatype Ctx = Ctx(flags: Flags, ids: map<string, nat>, commonPrefix: string)

  function Display(c: Ctx, path: string): string {
    ApplyCommonPrefix(path, c.commonPrefix, c.flags.pathPrefixToken)
  }

  /** The lines the `drop_*` options remove outright. */
  predicate DroppedLine(f: Flags, line: string) {
    (f.dropHeaders && (StartsWith(line, "index ") || StartsWith(line, "--- ") || StartsWith(line, "+++ ")))
    || (f.dropFilemode && (StartsWith(line, "new file mode ") || StartsWith(line, "deleted file mode ")))
    || (f.dropSimilarity && (StartsWith(line, "similarity index ") || StartsWith(line, "dissimilarity index ")))
    || (f.dropRename && (StartsWith(line, "rename from ") || StartsWith(line, "rename to ")
                         || StartsWith(line, "copy from ") || StartsWith(line, "copy to ")))
    || (f.dropBinary && (StartsWith(line, "Binary files ") || StartsWith(line, "GIT binary patch")))
  }

  /** The short form of a `diff --git` line: `f <id>` for a path in the table,
      `f <path>` otherwise, nothing when the line names no path. */
  function ShortDiffHeader(c: Ctx, line: string): Option<string> {
    var path := ExtractPath(line, c.flags);
    if c.flags.pathTable && path in c.ids then Some("f " + NatToStr(c.ids[path]))
    else if path != "" then Some(StripRight("f " + Display(c, path)))
    else None
  }

  /** A line that starts with a change marker. */
  predicate IsContentLine(line: string) {
    line != [] && (line[0] == '+' || line[0] == '-' || line[0] == ' ')
  }

  /** Under `path_table`, a `--- X`/`+++ X` line whose displayed path is in the table
      becomes `--- <id>`/`+++ <id>`; any other line stays as it is. */
  function TableRef(c: Ctx, line: string): string {
    if c.flags.pathTable && (StartsWith(line, "--- ") || StartsWith(line, "+++ ")) then
      var shown := Display(c, StripSide(line[4..]));
      if shown in c.ids then line[..4] + NatToStr(c.ids[shown]) else line
    else line
  }

  /** One pass of the main loop: the line kept (if any) and the new `last_prefix`. */
  function Step(c: Ctx, line: string, last: string): (Option<string>, string) {
    var f := c.flags;
    if DroppedLine(f, line) then (None, last)
    else if IsDiffHeader(line) && f.dropDiffHeader then (None, last)
    else if IsDiffHeader(line) && f.shortDiffHeader && ShortDiffHeader(c, line).Some? then
      (ShortDiffHeader(c, line), "")
    else if StartsWith(line, "@@ ") && f.shortHunkHeader && ParseHunkHeader(line).Some? then
      (Some(ShortHunk(ParseHunkHeader(line).value, f.hunkNewOnly)), "")
    else if StartsWith(line, "@@ ") && f.dropHunkHeader then (None, "")
    else if f.prefixFirstOnly && IsContentLine(line) then
      (Some(if [line[0]] == last then line[1..] else line), [line[0]])
    else (Some(TableRef(c, line)), if f.prefixFirstOnly then "" else last)
  }

  /** The main loop over `lines`, from an empty `kept` and `last_prefix`. */
  function Run(c: Ctx, lines: seq<string>): (seq<string>, string) {
    if lines == [] then ([], "")
    else
      var (kept, last) := Run(c, lines[..|lines| - 1]);
      var (out, last') := Step(c, lines[|lines| - 1], last);
      (kept + (if out.Some? then [out.value] else []), last')
  }

  // ---------------------------------------------------------------------------
  // The whole text

  /** The context `_compact_output` builds before its main loop. */
  function CtxOf(lines: seq<string>, f: Flags): Ctx {
    var paths := Discovered(lines, f);
    var prefix := if f.pathCommonPrefix then CommonDirPrefix(paths) else "";
    Ctx(f, if f.pathTable && paths != [] then PathIds(paths) else map[], prefix)
  }

  /** The `files[N]{id,path}:` table and its `  id,path` rows, under `path_table`. */
  function TableHeader(c: Ctx, paths: seq<string>): seq<string> {
    if c.flags.pathTable && paths != [] then
      [TableTitle(|paths|)] + TableRows(c, paths)
    else []
  }

  /** One row per path, numbered from 1 in order. */
  function TableRows(c: Ctx, paths: seq<string>): seq<string> {
    seq(|paths|, i requires 0 <= i < |paths| => TableRow(i + 1, Display(c, paths[i])))
  }

  function TableTitle(n: nat): string {
    "files[" + NatToStr(n) + "]{id,path}:"
  }

  function TableRow(id: nat, shown: string): string {
    "  " + NatToStr(id) + "," + shown
  }

  /** The kept lines of a text. */
  function KeptLines(text: string, f: Flags): seq<string> {
    var lines := SplitLines(text);
    var c := CtxOf(lines, f);
    TableHeader(c, Discovered(lines, f)) + Run(c, lines).0
  }

  /** `_compact_output(text, options)` once the options are read. */
  function Rewrite(text: string, f: Flags): (r: string)
    ensures text == "" ==> r == ""
    ensures text != "" && EndsWith(text, "\n") ==> EndsWith(r, "\n")
  {
    if text == "" then ""
    else Join(KeptLines(text, f), "\n") + (if EndsWith(text, "\n") then "\n" else "")
  }

  function Compact(text: string, options: Entries): string {
    Rewrite(text, FlagsOf(options))
  }

  // ---------------------------------------------------------------------------
  // Lemmas: paths

  /** Every discovered path is the path of some `diff --git` line. */
  lemma {:induction false} DiscoveredSound(lines: seq<string>, f: Flags)
    ensures forall p :: p in Discovered(lines, f) ==>
      exists i :: 0 <= i < |lines| && IsDiffHeader(lines[i]) && ExtractPath(lines[i], f) == p
  {
    if lines != [] {
      var init := lines[..|lines| - 1];
      DiscoveredSound(init, f);
      forall p | p in Discovered(lines, f)
        ensures exists i :: 0 <= i < |lines| && IsDiffHeader(lines[i]) && ExtractPath(lines[i], f) == p
      {
        if p in Discovered(init, f) {
          var i :| 0 <= i < |init| && IsDiffHeader(init[i]) && ExtractPath(init[i], f) == p;
          assert lines[i] == init[i];
        } else {
          assert IsDiffHeader(lines[|lines| - 1]) && ExtractPath(lines[|lines| - 1], f) == p;
        }
      }
    }
  }

  /** Every `diff --git` line that names a path contributes it. */
  lemma {:induction false} DiscoveredComplete(lines: seq<string>, f: Flags)
    ensures forall i :: 0 <= i < |lines| && IsDiffHeader(lines[i]) && ExtractPath(lines[i], f) != "" ==>
      ExtractPath(lines[i], f) in Discovered(lines, f)
  {
    if lines != [] {
      var init := lines[..|lines| - 1];
      DiscoveredComplete(init, f);
      forall i | 0 <= i < |lines| - 1 && IsDiffHeader(lines[i]) && ExtractPath(lines[i], f) != ""
        ensures ExtractPath(lines[i], f) in Discovered(lines, f)
      {
        assert lines[i] == init[i];
      }
    }
  }

  /** Paths are listed in the order they are first met: what an initial part of the
      diff discovers is an initial part of what the whole diff discovers. */
  lemma {:induction false} DiscoveredGrows(lines: seq<string>, k: nat, f: Flags)
    requires k <= |lines|
    ensures var whole := Discovered(lines, f);
      |Discovered(lines[..k], f)| <= |whole| && whole[..|Discovered(lines[..k], f)|] == Discovered(lines[..k], f)
    decreases |lines| - k
  {
    if k < |lines| {
      var init := lines[..|lines| - 1];
      assert lines[..k] == init[..k];
      DiscoveredGrows(init, k, f);
    } else {
      assert lines[..k] == lines;
    }
  }

  /** The table numbers the paths 1, 2, ... in their order. */
  /** Each path carries its position, counted from 1, as its id. */
  predicate Numbered(ids: map<string, nat>, paths: seq<string>) {
    forall i :: 0 <= i < |paths| ==> paths[i] in ids && ids[paths[i]] == i + 1
  }

  lemma PathIdsNumbering(paths: seq<string>)
    requires Distinct(paths)
    ensures Numbered(PathIds(paths), paths)
    ensures forall p :: p in PathIds(paths) <==> p in paths
  {
    forall i | 0 <= i < |paths|
      ensures PathIds(paths)[paths[i]] == i + 1
    {
      var r := IndexOf(paths, paths[i]);
      assert r == i;
    }
  }

  /** A path that contains `/` splits into at least two pieces. */
  lemma {:induction false} SplitHasSeparator(s: string, c: char)
    requires c in s
    ensures |Split(s, c)| >= 2
  {
    if s[0] != c {
      assert c in s[1..];
      SplitHasSeparator(s[1..], c);
    }
  }

  /** `CommonCount` stops at the first segment on which two paths differ. */
  lemma {:induction false} CommonCountAgrees(dirs: seq<seq<string>>, idx: nat)
    requires dirs != [] && idx <= MinLen(dirs)
    ensures var n := CommonCount(dirs, idx);
      forall k, j :: idx <= k < n && 0 <= j < |dirs| ==> dirs[j][k] == dirs[0][k]
    ensures var n := CommonCount(dirs, idx);
      n < MinLen(dirs) ==> exists j :: 0 <= j < |dirs| && dirs[j][n] != dirs[0][n]
    decreases MinLen(dirs) - idx
  {
    if idx < MinLen(dirs) && AgreeAt(dirs, idx) {
      CommonCountAgrees(dirs, idx + 1);
    }
  }

  /** The common prefix starts every path, and it consists of whole directory
      segments: no path continues it inside a segment. */
  lemma CommonDirPrefixIsPrefix(items: seq<string>)
    ensures var r := CommonDirPrefix(items);
      r != "" ==> forall i :: 0 <= i < |items| ==> StartsWith(items[i], r)
  {
    var r := CommonDirPrefix(items);
    if r != "" {
      var dirs := seq(|items|, i requires 0 <= i < |items| => DirSegments(items[i]));
      var n := CommonCount(dirs, 0);
      CommonCountAgrees(dirs, 0);
      var head := dirs[0][..n];
      forall i | 0 <= i < |items|
        ensures StartsWith(items[i], r)
      {
        var parts := Split(items[i], '/');
        SplitHasSeparator(items[i], '/');
        JoinSplit(items[i], '/');
        assert n <= |dirs[i]| == |parts| - 1;
        assert parts[..n] == head by {
          forall k | 0 <= k < n ensures parts[k] == head[k] {
            assert dirs[i][k] == dirs[0][k];
          }
        }
        assert parts == parts[..n] + parts[n..];
        JoinConcat(parts[..n], parts[n..], "/");
        assert items[i] == Join(head, "/") + "/" + Join(parts[n..], "/");
      }
    }
  }

  /** The displayed form of a path under the common prefix reads back into the path,
      provided the path does not repeat the `/` the prefix ends with. */
  lemma CommonPrefixRoundTrip(path: string, prefix: string, token: string)
    requires prefix != "" && StartsWith(path, prefix)
    requires |path| == |prefix| || path[|prefix|] != '/'
    requires token != "" && !StartsWith(path[|prefix|..], token)
    ensures ExpandCommonPrefix(ApplyCommonPrefix(path, prefix, token), prefix, token) == path
  {
    var rest := path[|prefix|..];
    assert path == prefix + rest;
    if rest != "" {
      var shown := token + "/" + rest;
      assert StartsWith(shown, token + "/");
      assert shown != token;
      assert shown[|token| + 1..] == rest;
    }
  }

  // ---------------------------------------------------------------------------
  // Lemmas: hunk headers

  lemma {:induction false} TakeDigitsOf(d: string, rest: string)
    requires Digits(d) && (rest == [] || !IsDigit(rest[0]))
    ensures TakeDigits(d + rest) == d
  {
    if d != [] {
      assert (d + rest)[1..] == d[1..] + rest;
      TakeDigitsOf(d[1..], rest);
    } else {
      assert d + rest == rest;
    }
  }

  lemma ParseRangeOf(start: string, len: Option<string>, rest: string)
    requires start != "" && Digits(start)
    requires len.Some? ==> len.value != "" && Digits(len.value)
    requires rest != [] && rest[0] == ' '
    ensures ParseRange(RangeText(start, len) + rest) == Some((start, len, rest))
  {
    if len.Some? {
      assert RangeText(start, len) == start + ("," + len.value);
      ParseRangeWithLen(start, len.value, rest);
    } else {
      var s := start + rest;
      assert RangeText(start, len) + rest == s;
      TakeDigitsOf(start, rest);
      assert s[|start|..] == rest;
      assert !StartsWith(rest, ",");
    }
  }

  lemma ParseRangeWithLen(start: string, l: string, rest: string)
    requires start != "" && Digits(start) && l != "" && Digits(l)
    requires rest != [] && rest[0] == ' '
    ensures ParseRange(start + ("," + l) + rest) == Some((start, Some(l), rest))
  {
    var tail := "," + l + rest;
    var s := start + tail;
    assert start + ("," + l) + rest == s;
    TakeDigitsOf(start, tail);
    assert s[|start|..] == tail;
    assert StartsWith(tail, ",");
    assert tail[1..] == l + rest;
    TakeDigitsOf(l, rest);
    assert tail[1 + |l|..] == rest;
  }

  lemma AfterPrefix(p: string, s: string)
    ensures StartsWith(p + s, p) && (p + s)[|p|..] == s
  {
    assert (p + s)[..|p|] == p;
  }

  /** Rendering a hunk header and matching it gives back the hunk, whatever follows the
      closing `@@`. */
  lemma HunkRoundTrip(h: Hunk, tail: string)
    requires WellFormedHunk(h)
    ensures ParseHunkHeader(RenderHunk(h, tail)) == Some(h)
  {
    var s := RangeText(h.oldStart, h.oldLen) + (" +" + (RangeText(h.newStart, h.newLen) + (" @@" + tail)));
    AfterPrefix("@@ -", s);
    OldRangeRoundTrip(h, tail);
  }

  lemma OldRangeRoundTrip(h: Hunk, tail: string)
    requires WellFormedHunk(h)
    ensures ParseOldRange(RangeText(h.oldStart, h.oldLen) + (" +" + (RangeText(h.newStart, h.newLen) + (" @@" + tail)))) == Some(h)
  {
    var u := RangeText(h.newStart, h.newLen) + (" @@" + tail);
    var rest := " +" + u;
    ParseRangeOf(h.oldStart, h.oldLen, rest);
    AfterPrefix(" +", u);
    NewRangeRoundTrip(h, tail);
  }

  lemma NewRangeRoundTrip(h: Hunk, tail: string)
    requires WellFormedHunk(h)
    ensures ParseNewRange(h.oldStart, h.oldLen, RangeText(h.newStart, h.newLen) + (" @@" + tail)) == Some(h)
  {
    ParseRangeOf(h.newStart, h.newLen, " @@" + tail);
    AfterPrefix(" @@", tail);
  }

  /** Conversely, a line the pattern matches is the rendering of the hunk it yields. */
  lemma HunkMatchIsRendering(line: string)
    requires ParseHunkHeader(line).Some?
    ensures exists tail :: line == RenderHunk(ParseHunkHeader(line).value, tail)
  {
    var h := ParseHunkHeader(line).value;
    assert ParseOldRange(line[4..]) == Some(h);
    var tail := OldRangeIsRendering(line[4..]);
    assert line == "@@ -" + line[4..] by {
      assert line[..4] == "@@ -";
    }
    assert line == RenderHunk(h, tail);
  }

  lemma OldRangeIsRendering(s: string) returns (tail: string)
    requires ParseOldRange(s).Some?
    ensures var h := ParseOldRange(s).value;
      s == RangeText(h.oldStart, h.oldLen) + (" +" + (RangeText(h.newStart, h.newLen) + (" @@" + tail)))
  {
    var (os, ol, rest) := ParseRange(s).value;
    var r2 := rest[2..];
    assert rest == " +" + r2 by {
      assert rest[..2] == " +";
    }
    tail := NewRangeIsRendering(os, ol, r2);
  }

  lemma NewRangeIsRendering(os: string, ol: Option<string>, s: string) returns (tail: string)
    requires os != "" && Digits(os)
    requires ol.Some? ==> ol.value != "" && Digits(ol.value)
    requires ParseNewRange(os, ol, s).Some?
    ensures var h := ParseNewRange(os, ol, s).value;
      s == RangeText(h.newStart, h.newLen) + (" @@" + tail)
  {
    var (ns, nl, t) := ParseRange(s).value;
    tail := t[3..];
    assert t == " @@" + tail by {
      assert t[..3] == " @@";
    }
  }

  // ---------------------------------------------------------------------------
  // Lemmas: one line

  lemma CharsOfPrefix(line: string, p: string)
    requires StartsWith(line, p)
    ensures forall k :: 0 <= k < |p| ==> line[k] == p[k]
  {
    forall k | 0 <= k < |p| ensures line[k] == p[k] {
      assert line[..|p|][k] == line[k];
    }
  }

  /** Only `index`, `---`, `+++`, file-mode, similarity, rename/copy and binary lines
      are ever dropped outright; a change line only as a `---`/`+++` header. */
  lemma DroppedLineShape(f: Flags, line: string)
    requires DroppedLine(f, line)
    ensures line != []
    ensures line[0] == 'i' || line[0] == '-' || line[0] == '+' || line[0] == 'n' || line[0] == 'd'
      || line[0] == 's' || line[0] == 'r' || line[0] == 'c' || line[0] == 'B' || line[0] == 'G'
    ensures (line[0] == '+' || line[0] == '-') ==> f.dropHeaders
    ensures line[0] == 'd' ==> |line| >= 3 && (line[1] != 'i' || line[2] != 'f')
  {
    if StartsWith(line, "deleted file mode ") {
      CharsOfPrefix(line, "deleted file mode ");
    } else if StartsWith(line, "dissimilarity index ") {
      CharsOfPrefix(line, "dissimilarity index ");
    } else {
      CharsOfPrefix(line, line[..1]);
    }
  }

  /** With `short_hunk_header`, a header the pattern matches becomes `@ a,b c,d`
      (or `@ c`), even when `drop_hunk_header` is also on, and the marker run ends. */
  lemma StepMatchedHunk(c: Ctx, line: string, last: string)
    requires StartsWith(line, "@@ ") && c.flags.shortHunkHeader && ParseHunkHeader(line).Some?
    ensures Step(c, line, last) == (Some(ShortHunk(ParseHunkHeader(line).value, c.flags.hunkNewOnly)), "")
  {
    CharsOfPrefix(line, "@@ ");
    if DroppedLine(c.flags, line) {
      DroppedLineShape(c.flags, line);
    }
    if IsDiffHeader(line) {
      CharsOfPrefix(line, "diff --git ");
    }
  }

  /** In particular a rendered header is shortened to its own ranges. */
  lemma StepShortHunk(c: Ctx, h: Hunk, tail: string, last: string)
    requires WellFormedHunk(h) && c.flags.shortHunkHeader
    ensures Step(c, RenderHunk(h, tail), last) == (Some(ShortHunk(h, c.flags.hunkNewOnly)), "")
  {
    var line := RenderHunk(h, tail);
    HunkRoundTrip(h, tail);
    assert StartsWith(line, "@@ ") by {
      assert line[..3] == "@@ ";
    }
    StepMatchedHunk(c, line, last);
  }

  /** A hunk header the pattern does not match is kept unchanged unless
      `drop_hunk_header` is on, and always ends the marker run under `prefix_first_only`. */
  lemma StepOtherHunkLine(c: Ctx, line: string, last: string)
    requires StartsWith(line, "@@ ") && (ParseHunkHeader(line).None? || !c.flags.shortHunkHeader)
    ensures Step(c, line, last) ==
      if c.flags.dropHunkHeader then (None, "")
      else (Some(line), if c.flags.prefixFirstOnly then "" else last)
  {
    HunkLineShape(c, line);
  }

  /** A `@@ ` line is no dropped header, no `diff --git` line, no change line, and no
      table reference. */
  lemma HunkLineShape(c: Ctx, line: string)
    requires StartsWith(line, "@@ ")
    ensures !DroppedLine(c.flags, line) && !IsDiffHeader(line) && !IsContentLine(line)
    ensures TableRef(c, line) == line
  {
    CharsOfPrefix(line, "@@ ");
    if DroppedLine(c.flags, line) {
      DroppedLineShape(c.flags, line);
      assert false;
    }
    if IsDiffHeader(line) {
      CharsOfPrefix(line, "diff --git ");
      assert false;
    }
    if |line| >= 4 {
      assert line[..4][0] == line[0];
    }
  }

  /** With `short_diff_header` and `path_table`, a `diff --git` line whose path is in
      the table becomes `f <id>`. */
  lemma StepShortDiffHeader(c: Ctx, line: string, last: string)
    requires IsDiffHeader(line) && c.flags.shortDiffHeader && !c.flags.dropDiffHeader && c.flags.pathTable
    requires ExtractPath(line, c.flags) in c.ids
    ensures Step(c, line, last) == (Some("f " + NatToStr(c.ids[ExtractPath(line, c.flags)])), "")
  {
    CharsOfPrefix(line, "diff --git ");
    if DroppedLine(c.flags, line) {
      DroppedLineShape(c.flags, line);
    }
  }

  /** Every `diff --git` line that names a path is then shortened to `f <id>`, the id
      being the path's place in the table. */
  lemma StepShortDiffHeaderId(lines: seq<string>, f: Flags, i: nat, last: string)
    requires i < |lines| && IsDiffHeader(lines[i]) && ExtractPath(lines[i], f) != ""
    requires f.shortDiffHeader && !f.dropDiffHeader && f.pathTable
    ensures ExtractPath(lines[i], f) in Discovered(lines, f)
    ensures Step(CtxOf(lines, f), lines[i], last)
      == (Some("f " + NatToStr(IndexOf(Discovered(lines, f), ExtractPath(lines[i], f)) + 1)), "")
  {
    assert ExtractPath(lines[i], f) in Discovered(lines, f) by {
      DiscoveredComplete(lines, f);
    }
    CtxIdOf(lines, f, ExtractPath(lines[i], f));
    StepHeaderWithId(CtxOf(lines, f), lines[i], last, IndexOf(Discovered(lines, f), ExtractPath(lines[i], f)) + 1);
  }

  /** `StepShortDiffHeader` with the path's id given by name. */
  lemma StepHeaderWithId(c: Ctx, line: string, last: string, n: nat)
    requires IsDiffHeader(line) && c.flags.shortDiffHeader && !c.flags.dropDiffHeader && c.flags.pathTable
    requires ExtractPath(line, c.flags) in c.ids && c.ids[ExtractPath(line, c.flags)] == n
    ensures Step(c, line, last) == (Some("f " + NatToStr(n)), "")
  {
    StepShortDiffHeader(c, line, last);
  }

  /** A discovered path's id in the context is its place in the discovery order. */
  lemma CtxIdOf(lines: seq<string>, f: Flags, p: string)
    requires f.pathTable && p in Discovered(lines, f)
    ensures CtxOf(lines, f).flags == f && p in CtxOf(lines, f).ids
    ensures CtxOf(lines, f).ids[p] == IndexOf(Discovered(lines, f), p) + 1
  {
  }

  /** The table numbers the discovered paths 1, 2, ... in the order they were met. */
  lemma CtxIds(lines: seq<string>, f: Flags)
    requires f.pathTable && Discovered(lines, f) != []
    ensures var paths := Discovered(lines, f);
      var c := CtxOf(lines, f);
      (forall p :: p in c.ids <==> p in paths)
      && (forall i :: 0 <= i < |paths| ==> c.ids[paths[i]] == i + 1)
  {
    PathIdsNumbering(Discovered(lines, f));
  }

  /** The table opens with the number of paths, then lists each with its id and its
      displayed form. */
  lemma TableRowsUseIds(lines: seq<string>, f: Flags)
    requires f.pathTable && Discovered(lines, f) != []
    ensures var paths := Discovered(lines, f);
      var c := CtxOf(lines, f);
      var rows := TableHeader(c, paths);
      |rows| == |paths| + 1 && rows[0] == "files[" + NatToStr(|paths|) + "]{id,path}:"
      && (forall i :: 0 <= i < |paths| ==>
            rows[i + 1] == "  " + NatToStr(c.ids[paths[i]]) + "," + Display(c, paths[i]))
  {
    var paths := Discovered(lines, f);
    var c := CtxOf(lines, f);
    CtxIds(lines, f);
    var rows := TableHeader(c, paths);
    forall i | 0 <= i < |paths|
      ensures rows[i + 1] == "  " + NatToStr(c.ids[paths[i]]) + "," + Display(c, paths[i])
    {
      assert rows[i + 1] == TableRow(i + 1, Display(c, paths[i]));
    }
  }

  // ---------------------------------------------------------------------------
  // Lemmas: whole texts

  /** No option that changes lines is on. */
  predicate Quiet(f: Flags) {
    !f.dropHeaders && !f.dropDiffHeader && !f.dropHunkHeader && !f.shortDiffHeader
    && !f.shortHunkHeader && !f.dropFilemode && !f.dropRename && !f.dropSimilarity
    && !f.dropBinary && !f.pathTable && !f.prefixFirstOnly
  }

  lemma {:induction false} RunQuiet(c: Ctx, lines: seq<string>)
    requires Quiet(c.flags)
    ensures Run(c, lines).0 == lines
  {
    if lines != [] {
      RunQuiet(c, lines[..|lines| - 1]);
      assert lines == lines[..|lines| - 1] + [lines[|lines| - 1]];
    }
  }

  /** With every option off the rewrite gives its input back. */
  lemma RewriteQuiet(text: string, f: Flags)
    requires Quiet(f)
    ensures Rewrite(text, f) == text
  {
    if text != "" {
      var lines := SplitLines(text);
      RunQuiet(CtxOf(lines, f), lines);
      assert KeptLines(text, f) == lines;
      SplitLinesJoin(text);
      assert EndsWith(text, "\n") <==> text[|text| - 1] == '\n';
    }
  }

  predicate ContentLines(lines: seq<string>) {
    forall i :: 0 <= i < |lines| ==> IsContentLine(lines[i])
  }

  /** Reference definition of `prefix_first_only` on a run of change lines: a line
      whose marker repeats the one before loses it. */
  function MarkerDedup(lines: seq<string>): seq<string>
    requires ContentLines(lines)
  {
    seq(|lines|, i requires 0 <= i < |lines| =>
      if i > 0 && lines[i][0] == lines[i - 1][0] then lines[i][1..] else lines[i])
  }

  lemma StepContentLine(c: Ctx, line: string, last: string)
    requires c.flags.prefixFirstOnly && !c.flags.dropHeaders && IsContentLine(line)
    ensures Step(c, line, last) == (Some(if [line[0]] == last then line[1..] else line), [line[0]])
  {
    if DroppedLine(c.flags, line) {
      DroppedLineShape(c.flags, line);
    }
    if IsDiffHeader(line) {
      CharsOfPrefix(line, "diff --git ");
    }
    if StartsWith(line, "@@ ") {
      CharsOfPrefix(line, "@@ ");
    }
  }

  /** On change lines, `prefix_first_only` (without `drop_headers`, which would drop
      `---`/`+++` change lines) is `MarkerDedup`. */
  lemma {:induction false} RunContent(c: Ctx, lines: seq<string>)
    requires c.flags.prefixFirstOnly && !c.flags.dropHeaders && ContentLines(lines)
    ensures Run(c, lines).0 == MarkerDedup(lines)
    ensures Run(c, lines).1 == if lines == [] then "" else [lines[|lines| - 1][0]]
  {
    if lines != [] {
      var init := lines[..|lines| - 1];
      var line := lines[|lines| - 1];
      assert ContentLines(init) by {
        forall i | 0 <= i < |init| ensures IsContentLine(init[i]) {
          assert init[i] == lines[i];
        }
      }
      RunContent(c, init);
      StepContentLine(c, line, Run(c, init).1);
      var want := MarkerDedup(lines);
      var got := MarkerDedup(init) + [if init != [] && line[0] == init[|init| - 1][0] then line[1..] else line];
      assert |want| == |got|;
      forall i | 0 <= i < |lines| ensures want[i] == got[i] {
        if i < |init| {
          assert lines[i] == init[i];
          if i > 0 {
            assert lines[i - 1] == init[i - 1];
          }
        }
      }
    }
  }

  /** The trailing newline is restored when the input has one, but not only then:
      under `prefix_first_only`, a last line that repeats the marker before it and
      holds nothing else becomes empty, and the joined output then ends with the
      newline that separated it. */
  lemma TrailingNewlineNotOnlyFromInput(line: string, f: Flags)
    requires IsContentLine(line) && '\n' !in line
    requires f.prefixFirstOnly && !f.dropHeaders && !f.pathTable
    ensures var text := line + "\n" + [line[0]];
      !EndsWith(text, "\n") && Rewrite(text, f) == line + "\n"
  {
    var mark := [line[0]];
    var text := line + "\n" + mark;
    assert text == line + ['\n'] + mark;
    SplitConcat(line, mark, '\n');
    SplitWithoutSeparator(line, '\n');
    SplitWithoutSeparator(mark, '\n');
    var lines := SplitLines(text);
    assert text[|text| - 1] == line[0];
    assert lines == [line, mark];
    var c := CtxOf(lines, f);
    RunContent(c, lines);
    assert MarkerDedup(lines) == [line, ""];
    assert KeptLines(text, f) == [line, ""];
    assert !EndsWith(text, "\n");
    assert Join([line, ""], "\n") == line + "\n";
  }

  // ---------------------------------------------------------------------------
  // The loops of `_compact_output`

  /** The discovery loop: paths of `diff --git` lines, each once, in order. */
  method DiscoverPaths(lines: seq<string>, f: Flags) returns (paths: seq<string>)
    ensures paths == Discovered(lines, f)
  {
    paths := [];
    var i := 0;
    while i < |lines|
      invariant 0 <= i <= |lines|
      invariant paths == Discovered(lines[..i], f)
    {
      assert lines[..i + 1][..i] == lines[..i];
      var line := lines[i];
      if IsDiffHeader(line) {
        var path := ExtractPath(line, f);
        if path != "" && path !in paths {
          paths := paths + [path];
        }
      }
      i := i + 1;
    }
    assert lines[..i] == lines;
  }

  /** The `for item in items` loop of `_common_dir_prefix`: the directories of every
      path, or nothing as soon as a path holds no `/`. */
  method DirectoryLists(items: seq<string>) returns (dirs: Option<seq<seq<string>>>)
    ensures dirs.None? <==> exists i :: 0 <= i < |items| && '/' !in items[i]
    ensures dirs.Some? ==> dirs.value == seq(|items|, i requires 0 <= i < |items| => DirSegments(items[i]))
  {
    var found: seq<seq<string>> := [];
    var k := 0;
    while k < |items|
      invariant 0 <= k <= |items| && |found| == k
      invariant forall j :: 0 <= j < k ==> '/' in items[j] && found[j] == DirSegments(items[j])
    {
      if '/' !in items[k] {
        return None;
      }
      var parts := Split(items[k], '/');
      found := found + [parts[..|parts| - 1]];
      k := k + 1;
    }
    return Some(found);
  }

  /** `_common_dir_prefix` with its loops. The source's checks for an empty directory
      list and a zero minimum cannot fire once every path holds a `/`, and are left out. */
  method CommonDirPrefixOf(items: seq<string>) returns (r: string)
    ensures r == CommonDirPrefix(items)
  {
    if items == [] {
      return "";
    }
    var lists := DirectoryLists(items);
    if lists.None? {
      return "";
    }
    var dirs := lists.value;
    var minLen := MinLen(dirs);
    var idx := 0;
    while idx < minLen && AgreeAt(dirs, idx)
      invariant 0 <= idx <= minLen
      invariant CommonCount(dirs, idx) == CommonCount(dirs, 0)
      decreases minLen - idx
    {
      idx := idx + 1;
    }
    CommonDirPrefixAt(items, dirs);
    if idx == 0 {
      return "";
    }
    r := Join(dirs[0][..idx], "/") + "/";
  }

  /** The prefix of paths that all hold a `/`, read from their directory lists. */
  lemma CommonDirPrefixAt(items: seq<string>, dirs: seq<seq<string>>)
    requires items != [] && forall j :: 0 <= j < |items| ==> '/' in items[j]
    requires dirs == seq(|items|, i requires 0 <= i < |items| => DirSegments(items[i]))
    ensures var n := CommonCount(dirs, 0);
      CommonDirPrefix(items) == if n == 0 then "" else Join(dirs[0][..n], "/") + "/"
  {
    assert !exists i :: 0 <= i < |items| && '/' !in items[i];
  }

  /** Numbering one more path keeps the earlier numbers. */
  lemma PathIdsSnoc(paths: seq<string>, i: nat)
    requires Distinct(paths) && i < |paths|
    ensures PathIds(paths[..i + 1]) == PathIds(paths[..i])[paths[i] := i + 1]
  {
    var q := paths[..i + 1];
    var m := PathIds(paths[..i])[paths[i] := i + 1];
    forall p | p in q
      ensures p in m && PathIds(q)[p] == m[p]
    {
      var k := IndexOf(q, p);
      if k < i {
        assert paths[..i][k] == p;
        assert IndexOf(paths[..i], p) == k;
      }
    }
    assert forall p :: p in m ==> p in q;
  }

  /** One step of the numbering loop. */
  lemma NumberNext(paths: seq<string>, i: nat, ids: map<string, nat>)
    requires Distinct(paths) && i < |paths| && ids == PathIds(paths[..i]) && |ids| == i
    ensures ids[paths[i] := |ids| + 1] == PathIds(paths[..i + 1])
    ensures |ids[paths[i] := |ids| + 1]| == i + 1
  {
    PathIdsSnoc(paths, i);
    assert paths[i] !in paths[..i];
  }

  /** `path_display`: the displayed form of each path, entered path by path. */
  function DisplayMap(paths: seq<string>, prefix: string, token: string): map<string, string>
    decreases |paths|
  {
    if paths == [] then map[]
    else
      var last := paths[|paths| - 1];
      DisplayMap(paths[..|paths| - 1], prefix, token)[last := ApplyCommonPrefix(last, prefix, token)]
  }

  /** Every listed path has its displayed form in the map. */
  lemma {:induction false} DisplayMapAt(paths: seq<string>, prefix: string, token: string, j: nat)
    requires j < |paths|
    ensures paths[j] in DisplayMap(paths, prefix, token)
    ensures DisplayMap(paths, prefix, token)[paths[j]] == ApplyCommonPrefix(paths[j], prefix, token)
    decreases |paths|
  {
    if j < |paths| - 1 {
      var init := paths[..|paths| - 1];
      assert init[j] == paths[j];
      DisplayMapAt(init, prefix, token, j);
    }
  }

  lemma DisplayNext(paths: seq<string>, i: nat, prefix: string, token: string)
    requires i < |paths|
    ensures DisplayMap(paths[..i], prefix, token)[paths[i] := ApplyCommonPrefix(paths[i], prefix, token)]
      == DisplayMap(paths[..i + 1], prefix, token)
  {
    assert paths[..i + 1][..i] == paths[..i];
  }

  /** The numbering loop: `path_ids[path] = len(path_ids) + 1` and
      `path_display[path] = _apply_common_prefix(path)` for each path in turn. */
  method NumberPaths(paths: seq<string>, prefix: string, token: string)
    returns (ids: map<string, nat>, display: map<string, string>)
    requires Distinct(paths)
    ensures ids == PathIds(paths) && |ids| == |paths|
    ensures display == DisplayMap(paths, prefix, token)
  {
    ids, display := map[], map[];
    var i := 0;
    while i < |paths|
      invariant 0 <= i <= |paths| && |ids| == i
      invariant ids == PathIds(paths[..i])
      invariant display == DisplayMap(paths[..i], prefix, token)
    {
      var path := paths[i];
      NumberNext(paths, i, ids);
      DisplayNext(paths, i, prefix, token);
      ids := ids[path := |ids| + 1];
      display := display[path := ApplyCommonPrefix(path, prefix, token)];
      i := i + 1;
    }
    assert paths[..i] == paths;
  }

  lemma PathIdAt(paths: seq<string>, j: nat)
    requires Distinct(paths) && j < |paths|
    ensures paths[j] in PathIds(paths) && PathIds(paths)[paths[j]] == j + 1
  {
    assert IndexOf(paths, paths[j]) == j;
  }

  /** The row the table loop builds for the `j`-th path is its numbered row. */
  lemma RowAt(c: Ctx, paths: seq<string>, display: map<string, string>, j: nat)
    requires Numbered(c.ids, paths) && j < |paths|
    requires display == DisplayMap(paths, c.commonPrefix, c.flags.pathPrefixToken)
    ensures paths[j] in c.ids
    ensures TableRow(c.ids[paths[j]], if paths[j] in display then display[paths[j]] else paths[j])
      == TableRow(j + 1, Display(c, paths[j]))
  {
    DisplayMapAt(paths, c.commonPrefix, c.flags.pathPrefixToken, j);
  }

  /** Listing one more path adds its row at the end. */
  lemma TableRowsSnoc(c: Ctx, paths: seq<string>, j: nat)
    requires j < |paths|
    ensures TableRows(c, paths[..j + 1]) == TableRows(c, paths[..j]) + [TableRow(j + 1, Display(c, paths[j]))]
  {
  }

  /** The table loop: the `files[N]{id,path}:` line, then one row per path. */
  method TableLines(c: Ctx, paths: seq<string>, display: map<string, string>) returns (rows: seq<string>)
    requires paths != [] && Numbered(c.ids, paths) && |c.ids| == |paths|
    requires display == DisplayMap(paths, c.commonPrefix, c.flags.pathPrefixToken)
    ensures c.flags.pathTable ==> rows == TableHeader(c, paths)
  {
    rows := [TableTitle(|c.ids|)];
    var j := 0;
    while j < |paths|
      invariant 0 <= j <= |paths|
      invariant rows == [TableTitle(|paths|)] + TableRows(c, paths[..j])
    {
      var path := paths[j];
      RowAt(c, paths, display, j);
      TableRowsSnoc(c, paths, j);
      rows := rows + [TableRow(c.ids[path], if path in display then display[path] else path)];
      j := j + 1;
    }
    assert paths[..j] == paths;
  }

  /** The main loop: each line through `Step`, carrying `last_prefix`. */
  method RunLines(c: Ctx, lines: seq<string>) returns (kept: seq<string>, last: string)
    ensures kept == Run(c, lines).0 && last == Run(c, lines).1
  {
    kept, last := [], "";
    var i := 0;
    while i < |lines|
      invariant 0 <= i <= |lines|
      invariant kept == Run(c, lines[..i]).0 && last == Run(c, lines[..i]).1
    {
      assert lines[..i + 1][..i] == lines[..i];
      assert lines[..i + 1][i] == lines[i];
      var (line, next) := Step(c, lines[i], last);
      if line.Some? {
        kept := kept + [line.value];
      }
      last := next;
      i := i + 1;
    }
    assert lines[..i] == lines;
  }

  /** `_compact_output(text, options)`. */
  method CompactOutput(text: string, options: Entries) returns (out: string)
    ensures out == Compact(text, options)
  {
    if text == "" {
      return text;
    }
    var f := FlagsOf(options);
    var lines := SplitLines(text);
    var paths := DiscoverPaths(lines, f);
    var prefix := "";
    if f.pathCommonPrefix {
      prefix := CommonDirPrefixOf(paths);
    }
    var ids: map<string, nat> := map[];
    var kept: seq<string> := [];
    if f.pathTable && paths != [] {
      var display;
      ids, display := NumberPaths(paths, prefix, f.pathPrefixToken);
      PathIdsNumbering(paths);
      kept := TableLines(Ctx(f, ids, prefix), paths, display);
    }
    var c := Ctx(f, ids, prefix);
    assert c == CtxOf(lines, f);
    assert kept == TableHeader(c, paths);
    var body, last := RunLines(c, lines);
    kept := kept + body;
    assert kept == KeptLines(text, f);
    out := Join(kept, "\n") + (if EndsWith(text, "\n") then "\n" else "");
  }
}
