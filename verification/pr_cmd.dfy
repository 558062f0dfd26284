/** The text helpers of the `pr` command (`app/commands/pr_cmd.py`): the notes-block
    markers, lifting the notes block out of a pull-request body, carrying it into a
    fresh template, and counting status checks by outcome. */
module PullRequest {
  import opened Wrappers
  import opened Text
  import opened Values

  // ---------------------------------------------------------------------------
  // _pr_notes_markers

  const DefaultStart := "<!-- NOTES START -->"
  const DefaultEnd := "<!-- NOTES END -->"

  /** `config.pr_helpers.notes_block`, `{}` when either level is missing or not a dict. */
  function NotesSection(config: Entries): Entries {
    DictOrEmpty(Get(Section(config, "pr_helpers"), "notes_block"))
  }

  /** `str(notes.get(key, dflt)).strip() or dflt` */
  function Marker(notes: Entries, key: string, dflt: string): (r: string)
    requires dflt != ""
    ensures r != ""
    ensures var v := Get(notes, key); v.Some? && Strip(ToStr(v.value)) != "" ==> r == Strip(ToStr(v.value))
    ensures var v := Get(notes, key); v.Some? && Strip(ToStr(v.value)) == "" ==> r == dflt
  {
    var m := Strip(ToStr(GetOr(notes, key, Str(dflt))));
    if m == "" then dflt else m
  }

  /** `_pr_notes_markers(config)`: the configured start and end markers, each falling
      back to its default when missing or blank. */
  function NotesMarkers(config: Entries): (r: (string, string))
    ensures r.0 != "" && r.1 != ""
    ensures Get(NotesSection(config), "start").None? ==> r.0 == DefaultStart
    ensures Get(NotesSection(config), "end").None? ==> r.1 == DefaultEnd
  {
    DefaultsStripped();
    (Marker(NotesSection(config), "start", DefaultStart), Marker(NotesSection(config), "end", DefaultEnd))
  }

  lemma DefaultsStripped()
    ensures Strip(DefaultStart) == DefaultStart && Strip(DefaultEnd) == DefaultEnd
  {
    StripNoSpace(DefaultStart);
    StripNoSpace(DefaultEnd);
  }

  // ---------------------------------------------------------------------------
  // _extract_block and _merge_notes

  /** Whether both markers occur in `s`, the first end no earlier than the first start. */
  predicate WellOrdered(s: string, start: string, end: string) {
    Find(s, start).Some? && Find(s, end).Some? && Find(s, start).value <= Find(s, end).value
  }

  /** `_extract_block(body, start, end)`: the text between the first start marker and the
      first end marker. When the first end marker begins inside the start marker, the
      slice is empty, as a Python slice with its bounds crossed is. */
  function ExtractBlock(body: string, start: string, end: string): (r: Option<string>)
    ensures r.Some? <==> WellOrdered(body, start, end)
    ensures r.Some? ==> var s := Find(body, start).value; var e := Find(body, end).value;
      (s + |start| <= e ==> body == body[..s] + start + r.value + body[e..])
      && (e < s + |start| ==> r.value == "")
  {
    match (Find(body, start), Find(body, end))
    case (Some(s), Some(e)) =>
      if e < s then None
      else
        var contentStart := s + |start|;
        if e < contentStart then Some("")
        else
          var block := body[contentStart..e];
          assert body == body[..s] + body[s..contentStart] + block + body[e..];
          Some(block)
    case _ => None
  }

  /** `_merge_notes(template, current, start, end)`: the template with the notes block of
      the current body between its own markers. */
  function MergeNotes(template: string, current: string, start: string, end: string): (r: string)
    ensures !WellOrdered(current, start, end) || !WellOrdered(template, start, end) ==> r == template
  {
    match ExtractBlock(current, start, end)
    case None => template
    case Some(notes) =>
      if !WellOrdered(template, start, end) then template
      else
        var ts := Find(template, start).value;
        var te := Find(template, end).value;
        Spliced(template, ts + |start|, notes, te)
  }

  /** `template[:cut] + notes + template[resume:]` */
  function Spliced(template: string, cut: nat, notes: string, resume: nat): string
    requires cut <= |template| && resume <= |template|
  {
    template[..cut] + notes + template[resume..]
  }

  /** After a merge, the template's start marker is where it was, followed by the old
      notes and then the template's end marker: the notes survive the new template. */
  lemma MergeKeepsNotes(template: string, current: string, start: string, end: string)
    requires WellOrdered(current, start, end) && WellOrdered(template, start, end)
    ensures var notes := ExtractBlock(current, start, end).value;
      var ts := Find(template, start).value;
      var te := Find(template, end).value;
      var r := MergeNotes(template, current, start, end);
      r == template[..ts] + start + notes + template[te..]
      && OccursAt(r, start, ts) && OccursAt(r, notes, ts + |start|) && OccursAt(r, end, ts + |start| + |notes|)
  {
    var notes := ExtractBlock(current, start, end).value;
    var ts := Find(template, start).value;
    var te := Find(template, end).value;
    var r := MergeNotes(template, current, start, end);
    assert template[..ts + |start|] == template[..ts] + start;
    assert r == template[..ts] + start + notes + template[te..];
    assert r[ts..ts + |start|] == start;
    assert r[ts + |start|..ts + |start| + |notes|] == notes;
    assert r[ts + |start| + |notes|..ts + |start| + |notes| + |end|] == template[te..te + |end|];
  }

  /** `s.find(sub)` is `i` when `sub` occurs at `i` and nowhere before. */
  lemma FindIs(s: string, sub: string, i: nat)
    requires OccursAt(s, sub, i) && forall j :: 0 <= j < i ==> !OccursAt(s, sub, j)
    ensures Find(s, sub) == Some(i)
  {
  }

  /** An occurrence inside a prefix is an occurrence in the whole, and the converse. */
  lemma OccursInPrefix(a: string, b: string, sub: string, j: nat)
    requires j + |sub| <= |a|
    ensures OccursAt(a + b, sub, j) <==> OccursAt(a, sub, j)
  {
    assert (a + b)[j..j + |sub|] == a[j..j + |sub|];
  }

  /** Reading the notes back out of the merged body gives the notes that went in, when
      the end marker does not contain the start marker and the current body's block does
      not overlap its start marker. */
  lemma MergeThenExtract(template: string, current: string, start: string, end: string)
    requires WellOrdered(current, start, end) && WellOrdered(template, start, end)
    requires Find(current, start).value + |start| <= Find(current, end).value
    requires forall k :: !OccursAt(end, start, k)
    ensures ExtractBlock(MergeNotes(template, current, start, end), start, end) == ExtractBlock(current, start, end)
  {
    var cs := Find(current, start).value;
    var ce := Find(current, end).value;
    var ts := Find(template, start).value;
    var te := Find(template, end).value;
    var notes := current[cs + |start|..ce];
    ExtractAt(current, start, end, cs, ce);
    var r := MergeNotes(template, current, start, end);
    MergeKeepsNotes(template, current, start, end);
    BlockWindow(current, start, end, cs, ce);
    FirstMarkers(r, template, current, start, end, notes, ts, te, cs, ce);
    ExtractFirst(r, start, end, ts, ts + |start| + |notes|);
  }

  /** The block of a body whose first markers are known by occurrence alone. */
  lemma ExtractFirst(body: string, start: string, end: string, s: nat, e: nat)
    requires OccursAt(body, start, s) && forall j :: 0 <= j < s ==> !OccursAt(body, start, j)
    requires OccursAt(body, end, e) && forall j :: 0 <= j < e ==> !OccursAt(body, end, j)
    requires s + |start| <= e
    ensures ExtractBlock(body, start, end) == Some(body[s + |start|..e])
  {
    FindIs(body, start, s);
    FindIs(body, end, e);
    ExtractAt(body, start, end, s, e);
  }

  /** The markers and the text between them, read as one window of the body. */
  lemma BlockWindow(body: string, start: string, end: string, s: nat, e: nat)
    requires OccursAt(body, start, s) && OccursAt(body, end, e) && s + |start| <= e
    ensures body[s..e + |end|] == start + body[s + |start|..e] + end
  {
    assert body[s..e + |end|] == body[s..s + |start|] + body[s + |start|..e] + body[e..e + |end|];
  }

  /** With both first positions known and apart, the block is the text between them. */
  lemma ExtractAt(body: string, start: string, end: string, s: nat, e: nat)
    requires Find(body, start) == Some(s) && Find(body, end) == Some(e) && s + |start| <= e
    ensures ExtractBlock(body, start, end) == Some(body[s + |start|..e])
  {
  }

  /** Where the first markers of a merged body `r` lie, from what is known of the template
      and the current body, with no searching involved. */
  lemma FirstMarkers(r: string, template: string, current: string, start: string, end: string,
                     notes: string, ts: nat, te: nat, cs: nat, ce: nat)
    requires ts <= te && te + |end| <= |template| && ts + |start| <= |template|
    requires r == template[..ts] + start + notes + template[te..]
    requires template[te..te + |end|] == end
    requires forall k :: 0 <= k < ts ==> !OccursAt(template, start, k)
    requires forall k :: 0 <= k < te ==> !OccursAt(template, end, k)
    requires template[ts..ts + |start|] == start
    requires ce == cs + |start| + |notes| && ce + |end| <= |current|
    requires current[cs..ce + |end|] == start + notes + end
    requires forall k :: 0 <= k < ce ==> !OccursAt(current, end, k)
    requires forall k :: !OccursAt(end, start, k)
    ensures OccursAt(r, start, ts) && forall j :: 0 <= j < ts ==> !OccursAt(r, start, j)
    ensures OccursAt(r, end, ts + |start| + |notes|)
    ensures forall j :: 0 <= j < ts + |start| + |notes| ==> !OccursAt(r, end, j)
  {
    var window := start + notes + end;
    var head := template[..ts + |start|];
    assert head == template[..ts] + start;
    assert r == head + notes + end + template[te + |end|..] by {
      assert template[te..] == end + template[te + |end|..];
    }
    assert r[..ts + |start|] == head;
    assert r[ts..ts + |window|] == window;
    SliceIn(r, ts, window, 0, |start|);
    SliceIn(r, ts, window, |start| + |notes|, |end|);
    forall j | 0 <= j < ts
      ensures !OccursAt(r, start, j)
    {
      SliceIn(r, 0, head, j, |start|);
      SliceIn(template, 0, head, j, |start|);
      assert r[j..j + |start|] == template[j..j + |start|];
      assert !OccursAt(template, start, j);
    }
    forall j | 0 <= j < ts + |start| + |notes|
      ensures !OccursAt(r, end, j)
    {
      EndNotAt(r, template, current, start, end, notes, ts, te, cs, ce, j);
    }
  }

  /** No end marker in the merged body begins before the one after the notes. */
  lemma EndNotAt(r: string, template: string, current: string, start: string, end: string,
                 notes: string, ts: nat, te: nat, cs: nat, ce: nat, j: nat)
    requires ts <= te && ts + |start| <= |template|
    requires ts + |start| + |notes| + |end| <= |r|
    requires r[..ts + |start|] == template[..ts + |start|]
    requires r[ts..ts + |start| + |notes| + |end|] == start + notes + end
    requires forall k :: 0 <= k < te ==> !OccursAt(template, end, k)
    requires ce == cs + |start| + |notes| && ce + |end| <= |current|
    requires current[cs..ce + |end|] == start + notes + end
    requires forall k :: 0 <= k < ce ==> !OccursAt(current, end, k)
    requires forall k :: !OccursAt(end, start, k)
    requires j < ts + |start| + |notes|
    ensures !OccursAt(r, end, j)
  {
    if j >= ts {
      // Inside `start + notes + end`, which the current body holds at `cs`.
      EndNotInWindow(r, current, start + notes + end, |end|, ts, cs, j - ts);
      assert !OccursAt(current, end, cs + (j - ts));
    } else if j + |end| <= ts + |start| {
      // Inside the template's own prefix, before its first end marker.
      var head := template[..ts + |start|];
      assert r[0..|head|] == head && template[0..|head|] == head;
      EndNotInWindow(r, template, head, |end|, 0, 0, j);
      assert !OccursAt(template, end, j);
    } else if j + |end| <= |r| {
      // The end marker would have to contain the whole start marker.
      var window := start + notes + end;
      SliceIn(r, ts, window, 0, |start|);
      assert window[0..|start|] == start;
      EndNotAcross(r, start, end, ts, j);
    }
  }

  /** Where `r` and `s` share the text `w` (at `a` and `b`), a match of a marker of length
      `n` at offset `i` of `r`'s copy is a match at offset `i` of `s`'s copy. */
  lemma EndNotInWindow(r: string, s: string, w: string, n: nat, a: nat, b: nat, i: nat)
    requires a + |w| <= |r| && r[a..a + |w|] == w
    requires b + |w| <= |s| && s[b..b + |w|] == w
    requires i + n <= |w|
    ensures r[a + i..a + i + n] == s[b + i..b + i + n]
  {
    SliceIn(r, a, w, i, n);
    SliceIn(s, b, w, i, n);
  }

  /** A marker that straddles the start marker held at `ts` would contain it. */
  lemma EndNotAcross(r: string, start: string, end: string, ts: nat, j: nat)
    requires ts + |start| <= |r| && r[ts..ts + |start|] == start
    requires j < ts && ts + |start| < j + |end| <= |r|
    requires forall k :: !OccursAt(end, start, k)
    ensures !OccursAt(r, end, j)
  {
    var here := r[j..j + |end|];
    SliceIn(r, j, here, ts - j, |start|);
    assert here[ts - j..ts - j + |start|] == start;
    assert !OccursAt(end, start, ts - j);
  }

  /** A piece of a slice is a slice of the whole. */
  lemma SliceIn(s: string, a: nat, w: string, i: nat, n: nat)
    requires a + |w| <= |s| && s[a..a + |w|] == w && i + n <= |w|
    ensures s[a + i..a + i + n] == w[i..i + n]
  {
    var piece, part := s[a + i..a + i + n], w[i..i + n];
    forall m | 0 <= m < n
      ensures piece[m] == part[m]
    {
      assert piece[m] == s[a..a + |w|][i + m];
    }
  }

  // ---------------------------------------------------------------------------
  // _summarize_checks

  /** How a check's state counts. */
  datatype Outcome = Succeeded | Failed | Pending

  /** The outcome of an upper-cased state. */
  function OutcomeOf(state: string): Outcome {
    if state in {"SUCCESS", "SKIPPED", "NEUTRAL"} then Succeeded
    else if state in {"FAILURE", "ERROR", "CANCELLED", "TIMED_OUT"} then Failed
    else Pending
  }

  /** The outcome of a check: its `state`, upper-cased. */
  function CheckOutcome(check: Entries): Outcome {
    OutcomeOf(Upper(ToStr(GetOr(check, "state", Str("")))))
  }

  /** The number of checks with a given outcome. */
  function CountOf(checks: seq<Entries>, o: Outcome): (n: nat)
    ensures n <= |checks|
    decreases |checks|
  {
    if checks == [] then 0
    else CountOf(checks[..|checks| - 1], o) + (if CheckOutcome(checks[|checks| - 1]) == o then 1 else 0)
  }

  /** The four counters `_summarize_checks` returns. */
  datatype Summary = Summary(total: nat, success: nat, failed: nat, pending: nat)

  /** What the counters hold after the checks `checks`. */
  function Summarized(checks: seq<Entries>): Summary {
    Summary(|checks|, CountOf(checks, Succeeded), CountOf(checks, Failed), CountOf(checks, Pending))
  }

  /** `_summarize_checks(checks)`: one pass, one counter bumped per check besides the
      total. */
  method SummarizeChecks(checks: seq<Entries>) returns (summary: Summary)
    ensures summary == Summarized(checks)
  {
    summary := Summary(0, 0, 0, 0);
    var i := 0;
    while i < |checks|
      invariant 0 <= i <= |checks|
      invariant summary == Summarized(checks[..i])
    {
      assert checks[..i + 1][..i] == checks[..i];
      var state := Upper(ToStr(GetOr(checks[i], "state", Str(""))));
      summary := summary.(total := summary.total + 1);
      if state in {"SUCCESS", "SKIPPED", "NEUTRAL"} {
        summary := summary.(success := summary.success + 1);
      } else if state in {"FAILURE", "ERROR", "CANCELLED", "TIMED_OUT"} {
        summary := summary.(failed := summary.failed + 1);
      } else {
        summary := summary.(pending := summary.pending + 1);
      }
      i := i + 1;
    }
    assert checks[..|checks|] == checks;
  }

  /** Every check is counted exactly once: the three counters add up to the total, which
      is the number of checks. */
  lemma {:induction false} CountsAddUp(checks: seq<Entries>)
    ensures var s := Summarized(checks);
      s.success + s.failed + s.pending == s.total == |checks|
    decreases |checks|
  {
    if checks != [] {
      CountsAddUp(checks[..|checks| - 1]);
    }
  }

  lemma UpperOfLower(s: string)
    ensures Upper(Lower(s)) == Upper(s)
  {
    assert forall i :: 0 <= i < |s| ==> UpperChar(LowerChar(s[i])) == UpperChar(s[i]);
  }

  /** States are read without regard to case: a state and its lower-cased form count
      the same. */
  lemma OutcomeIgnoresCase(check: Entries, state: string)
    requires Get(check, "state") == Some(Str(state))
    ensures CheckOutcome(check) == OutcomeOf(Upper(Lower(state)))
  {
    UpperOfLower(state);
  }
}
