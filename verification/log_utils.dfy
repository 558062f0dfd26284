/** Logging helpers for router runs (`app/utils/log_utils.py`): the tee stream that
    forwards every write to the real stream while capturing a bounded prefix of it, and
    the plain-text rendering of one log entry. */
module LogUtils {
  import opened Wrappers
  import opened Text
  import opened Values

  // ---------------------------------------------------------------------------
  // TeeStream

  function Min(a: int, b: int): int {
    if a <= b then a else b
  }

  /** `data[:n]` for a non-negative `n`. */
  function Head(data: string, n: nat): (r: string)
    ensures r <= data && |r| == Min(n, |data|)
  {
    data[..Min(n, |data|)]
  }

  /** What a tee with the given limit holds after the text `all` has gone through it:
      nothing when the limit is not positive, otherwise the first `limit` characters. */
  function Captured(all: string, limit: int): (r: string)
    ensures r <= all
    ensures limit <= 0 ==> r == ""
    ensures limit > 0 ==> |r| == Min(limit, |all|)
  {
    if limit <= 0 then "" else Head(all, limit)
  }

  /** One more write: a tee under its limit keeps the head of the new data that still
      fits, and a full tee (or one with no positive limit) keeps what it had. */
  lemma CapturedAppend(all: string, data: string, limit: int)
    ensures var held := Captured(all, limit);
      Captured(all + data, limit) ==
        if limit > 0 && |held| < limit then held + Head(data, limit - |held|) else held
  {
    var held := Captured(all, limit);
    if limit > 0 {
      if |held| < limit {
        assert held == all;
        assert (all + data)[..Min(limit, |all + data|)] == all + data[..Min(limit - |all|, |data|)];
      } else {
        assert (all + data)[..limit] == all[..limit];
      }
    }
  }

  /** The capture only ever grows by appending: later contents extend earlier ones. */
  lemma CapturedGrows(all: string, data: string, limit: int)
    ensures Captured(all, limit) <= Captured(all + data, limit)
  {
    CapturedAppend(all, data, limit);
  }

  /** `TeeStream`: writes go whole to the wrapped stream (modelled by `forwarded`, the
      text it has received through this tee) and the first `limit` characters of them
      are kept in `buffer`. */
  class TeeStream {
    const limit: int
    var buffer: string
    var forwarded: string

    ghost predicate Valid()
      reads this
    {
      buffer == Captured(forwarded, limit)
    }

    constructor(limit: int)
      ensures this.limit == limit && buffer == "" && forwarded == ""
      ensures Valid()
    {
      this.limit := limit;
      buffer := "";
      forwarded := "";
    }

    /** `write(data)`: forwards `data`, tops the buffer up to the limit, returns `len(data)`. */
    method Write(data: string) returns (n: int)
      requires Valid()
      modifies this
      ensures forwarded == old(forwarded) + data
      ensures buffer == Captured(forwarded, limit)
      ensures old(buffer) <= buffer
      ensures limit > 0 ==> |buffer| <= limit
      ensures limit <= 0 ==> buffer == ""
      ensures n == |data|
      ensures Valid()
    {
      CapturedAppend(forwarded, data, limit);
      forwarded := forwarded + data;
      if limit > 0 && |buffer| < limit {
        var remaining := limit - |buffer|;
        buffer := buffer + Head(data, remaining);
      }
      n := |data|;
    }
  }

  // ---------------------------------------------------------------------------
  // _format_log_entry, plain-text branch

  /** The items of an iteration, each of which must be a string for `" ".join`. */
  function Texts(items: seq<Value>): (r: Result<seq<string>>)
    ensures r.Ok? <==> forall i :: 0 <= i < |items| ==> items[i].Str?
    ensures r.Ok? ==> |r.value| == |items| && forall i :: 0 <= i < |items| ==> r.value[i] == items[i].s
    decreases |items|
  {
    if items == [] then Ok([])
    else if !items[0].Str? then Err(TypeError)
    else
      var rest := Texts(items[1..]);
      assert forall i :: 1 <= i < |items| ==> items[1..][i - 1] == items[i];
      if rest.Err? then Err(rest.error) else Ok([items[0].s] + rest.value)
  }

  /** `" ".join(v or [])` */
  function JoinWords(v: Value): Result<string> {
    var items :- IterateOrEmpty(v);
    var words :- Texts(items);
    Ok(Join(words, " "))
  }

  /** `f"  - {tool_name} {tool_args}"` for one resolved command; an item that is not a
      dict has no `.get` and raises. */
  function ResolvedLine(item: Value): (r: Result<string>)
    ensures r.Ok? ==> StartsWith(r.value, "  - ")
    ensures !item.Dict? ==> r.Err?
  {
    if !item.Dict? then Err(TypeError)
    else
      var tool := ToStr(GetOr(item.entries, "tool", Str("")));
      var args :- JoinWords(GetOr(item.entries, "args", List([])));
      var line := "  - " + tool + " " + args;
      assert line[..4] == "  - ";
      Ok(line)
  }

  /** One line per resolved command, in order. */
  function ResolvedLines(items: seq<Value>): (r: Result<seq<string>>)
    ensures r.Ok? ==> |r.value| == |items|
    ensures r.Ok? ==> forall i :: 0 <= i < |r.value| ==> StartsWith(r.value[i], "  - ")
    ensures r.Ok? <==> forall i :: 0 <= i < |items| ==> ResolvedLine(items[i]).Ok?
    decreases |items|
  {
    if items == [] then Ok([])
    else
      assert forall i :: 1 <= i < |items| ==> items[1..][i - 1] == items[i];
      var line := ResolvedLine(items[0]);
      var rest := ResolvedLines(items[1..]);
      if line.Err? then Err(line.error)
      else if rest.Err? then Err(rest.error)
      else Ok([line.value] + rest.value)
  }

  /** The five lines every entry starts with. */
  function HeaderLines(entry: Entries): Result<seq<string>> {
    var args :- JoinWords(GetOr(entry, "args", List([])));
    Ok([
      "timestamp: " + ToStr(GetOr(entry, "timestamp", Str(""))),
      "command: " + ToStr(GetOr(entry, "command", Str(""))),
      "tool: " + ToStr(GetOr(entry, "tool", Str(""))),
      "exit_code: " + ToStr(GetOr(entry, "exit_code", Str(""))),
      "args: " + args
    ])
  }

  /** `entry.get("resolved", []) or []`, listed under a `resolved:` line when non-empty. */
  function ResolvedSection(entry: Entries): Result<seq<string>> {
    var resolved := GetOr(entry, "resolved", List([]));
    if !Truthy(resolved) then Ok([])
    else
      var items :- Iterate(resolved);
      var lines :- ResolvedLines(items);
      Ok(["resolved:"] + lines)
  }

  /** A `name: value` line when `entry.get(name)` is truthy, nothing otherwise. */
  function OptionalLine(entry: Entries, name: string): seq<string> {
    var v := GetOr(entry, name, Null);
    if Truthy(v) then [name + ": " + ToStr(v)] else []
  }

  /** The lines of a plain-text entry, before they are joined. */
  function PlainLines(entry: Entries): (r: Result<seq<string>>)
    ensures r.Ok? ==> |r.value| >= 6 && r.value[|r.value| - 1] == "---"
    ensures r.Ok? <==> HeaderLines(entry).Ok? && ResolvedSection(entry).Ok?
  {
    var header :- HeaderLines(entry);
    var resolved :- ResolvedSection(entry);
    Ok(header + resolved + OptionalLine(entry, "stdout") + OptionalLine(entry, "stderr") + ["---"])
  }

  /** `_format_log_entry(entry, fmt)` for a format other than `json` and `toon`. */
  function PlainEntry(entry: Entries): (r: Result<string>)
    ensures r.Ok? <==> PlainLines(entry).Ok?
    ensures r.Ok? ==> StartsWith(r.value, "timestamp: ")
    ensures r.Ok? ==> EndsWith(r.value, "---\n")
  {
    var lines :- PlainLines(entry);
    JoinFirst(lines, "\n");
    JoinLast(lines, "\n");
    var text := Join(lines, "\n") + "\n";
    assert text[..|lines[0]|] == lines[0];
    assert lines[0][..11] == "timestamp: ";
    Ok(text)
  }

  lemma {:induction false} JoinFirst(parts: seq<string>, sep: string)
    requires parts != []
    ensures StartsWith(Join(parts, sep), parts[0])
  {
    if |parts| > 1 {
      assert Join(parts, sep) == parts[0] + (sep + Join(parts[1..], sep));
    }
  }

  lemma {:induction false} JoinLast(parts: seq<string>, sep: string)
    requires parts != []
    ensures EndsWith(Join(parts, sep), parts[|parts| - 1])
    decreases |parts|
  {
    if |parts| > 1 {
      JoinLast(parts[1..], sep);
      var tail := Join(parts[1..], sep);
      assert Join(parts, sep) == (parts[0] + sep) + tail;
    }
  }

  // ---------------------------------------------------------------------------
  // Which optional lines an entry gets

  /** A line that names one of the tags this format uses. */
  predicate Tagged(line: string, tag: string) {
    StartsWith(line, tag + ": ")
  }

  /** The entry has a `stdout:` line exactly when its `stdout` is truthy, and likewise for
      `stderr`; it has a `resolved:` line exactly when its resolved list is non-empty. */
  lemma OptionalLinesIff(entry: Entries)
    requires PlainLines(entry).Ok?
    ensures var lines := PlainLines(entry).value;
      (exists i :: 0 <= i < |lines| && Tagged(lines[i], "stdout")) <==> Truthy(GetOr(entry, "stdout", Null))
    ensures var lines := PlainLines(entry).value;
      (exists i :: 0 <= i < |lines| && Tagged(lines[i], "stderr")) <==> Truthy(GetOr(entry, "stderr", Null))
    ensures var lines := PlainLines(entry).value;
      ("resolved:" in lines) <==> Truthy(GetOr(entry, "resolved", List([])))
  {
    var header := HeaderLines(entry).value;
    var resolved := ResolvedSection(entry).value;
    var out := OptionalLine(entry, "stdout");
    var err := OptionalLine(entry, "stderr");
    var lines := PlainLines(entry).value;
    assert lines == header + resolved + out + err + ["---"];
    HeaderShape(entry);
    ResolvedShape(entry);
    OptionalShape(entry, "stdout");
    OptionalShape(entry, "stderr");
    TagFacts(lines, header, resolved, out, err);
    if out != [] {
      assert Tagged(lines[|header| + |resolved|], "stdout");
    }
    if err != [] {
      assert Tagged(lines[|header| + |resolved| + |out|], "stderr");
    }
    if resolved != [] {
      assert lines[|header|] == "resolved:";
    }
  }

  /** Every header line begins with the first letter of its own tag. */
  lemma HeaderShape(entry: Entries)
    requires HeaderLines(entry).Ok?
    ensures var header := HeaderLines(entry).value;
      |header| == 5 && forall i :: 0 <= i < 5 ==> |header[i]| > 0 && header[i][0] in "tcea"
  {
  }

  /** The resolved block is empty, or a `resolved:` line followed by `  - ` lines, and it is
      non-empty exactly when the resolved list is truthy. */
  lemma ResolvedShape(entry: Entries)
    requires ResolvedSection(entry).Ok?
    ensures var block := ResolvedSection(entry).value;
      (block != [] <==> Truthy(GetOr(entry, "resolved", List([]))))
      && (block != [] ==> block[0] == "resolved:")
      && forall i :: 1 <= i < |block| ==> StartsWith(block[i], "  - ")
  {
  }

  /** An optional line is there exactly when its value is truthy, and carries its tag. */
  lemma OptionalShape(entry: Entries, name: string)
    ensures var opt := OptionalLine(entry, name);
      (opt != [] <==> Truthy(GetOr(entry, name, Null)))
      && |opt| <= 1 && (opt != [] ==> Tagged(opt[0], name))
  {
    var v := GetOr(entry, name, Null);
    if Truthy(v) {
      assert (name + ": " + ToStr(v))[..|name + ": "|] == name + ": ";
    }
  }

  /** Which lines carry which tag, from the shape of each block alone. */
  lemma TagFacts(lines: seq<string>, header: seq<string>, resolved: seq<string>,
                 out: seq<string>, err: seq<string>)
    requires forall i :: 0 <= i < |header| ==> |header[i]| > 0 && header[i][0] in "tcea"
    requires resolved != [] ==> resolved[0] == "resolved:"
    requires forall i :: 1 <= i < |resolved| ==> StartsWith(resolved[i], "  - ")
    requires |out| <= 1 && (out != [] ==> Tagged(out[0], "stdout"))
    requires |err| <= 1 && (err != [] ==> Tagged(err[0], "stderr"))
    requires lines == header + resolved + out + err + ["---"]
    ensures (exists i :: 0 <= i < |lines| && Tagged(lines[i], "stdout")) <==> out != []
    ensures (exists i :: 0 <= i < |lines| && Tagged(lines[i], "stderr")) <==> err != []
    ensures ("resolved:" in lines) <==> resolved != []
  {
    var a := |header| + |resolved|;
    var b := a + |out|;
    forall i | 0 <= i < |lines|
      ensures Tagged(lines[i], "stdout") ==> out != []
      ensures Tagged(lines[i], "stderr") ==> err != []
      ensures lines[i] == "resolved:" ==> resolved != []
    {
      var line := lines[i];
      if i < |header| {
        LeadingChar(line, header[i]);
      } else if i < a {
        if i > |header| {
          LeadingChar(line, resolved[i - |header|]);
        }
      } else if i < b {
        assert line == out[0];
        assert line[0] == 's' && line[3] == 'o';
      } else if i < b + |err| {
        assert line == err[0];
        assert line[0] == 's' && line[3] == 'e';
      } else {
        assert line == "---";
      }
    }
    if out != [] {
      assert Tagged(lines[a], "stdout");
    }
    if err != [] {
      assert Tagged(lines[b], "stderr");
    }
    if resolved != [] {
      assert lines[|header|] == "resolved:";
    }
  }

  /** A line that begins with neither `s` nor `r` carries no stdout, stderr or resolved tag. */
  lemma LeadingChar(line: string, same: string)
    requires line == same && |line| > 0 && line[0] !in "sr"
    ensures !Tagged(line, "stdout") && !Tagged(line, "stderr") && line != "resolved:"
  {
    if |line| >= 8 {
      assert line[..8][0] == line[0];
    }
  }
}
