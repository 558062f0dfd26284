/** The compact option spec: a comma-separated list of keywords, `key=value`
    settings and profile names, applied left to right over an option record
    (`_parse_compact_spec` and `_apply_compact_options` in `app/compact/compact.py`). */
module CompactSpec {
  import opened Wrappers
  import opened Text
  import opened Values
  import opened ConfigLoader

  /** `s.split(c, 1)[1]`: the text after the first `c`; empty when `s` has no `c`. */
  function AfterFirst(s: string, c: char): (r: string)
    ensures |r| <= |s| && r == s[|s| - |r|..]
    ensures Contains(s, c) ==> |r| < |s| && s[|s| - |r| - 1] == c
    ensures Contains(s, c) ==> forall i :: 0 <= i < |s| - |r| - 1 ==> s[i] != c
  {
    if s == [] then []
    else if s[0] == c then s[1..]
    else
      assert Contains(s, c) ==> Contains(s[1..], c) by {
        if Contains(s, c) {
          var i :| 0 <= i < |s| && s[i] == c;
          assert s[1..][i - 1] == c;
        }
      }
      AfterFirst(s[1..], c)
  }

  const ProfileNameRequired := "router diff: compact profile name is required"
  const ProfileNotDict := "router compact_profiles entries must be dicts"

  function UnknownProfile(name: string): string {
    "router diff: unknown compact profile '" + name + "'"
  }

  function UnknownOption(part: string): string {
    "router diff: unknown compact option '" + part + "'"
  }

  /** The flag keywords of the spec, in the source's order, and the option
      assignments each group of synonyms makes; `path-table` and its aliases set
      `short_diff_header` as well. No keyword contains `=` or has a digit as its
      second character, so a token of either shape is not compared with them: it
      is not a keyword, and it may be a `key=value` setting or a `uN` context. */
  function KeywordAssignments(lower: string): (r: Option<Entries>)
    ensures r.Some? ==> '=' !in lower && |lower| >= 2 && !IsDigit(lower[1])
    ensures r.Some? ==> DistinctKeys(r.value)
  {
    if '=' in lower || |lower| < 2 || IsDigit(lower[1]) then None
    else if lower in {"drop-headers", "no-headers"} then Some([("drop_headers", Bool(true))])
    else if lower in {"keep-headers", "headers"} then Some([("drop_headers", Bool(false))])
    else if lower in {"no-prefix", "drop-prefix"} then Some([("no_prefix", Bool(true))])
    else if lower in {"keep-prefix", "prefix"} then Some([("no_prefix", Bool(false))])
    else if lower in {"drop-diff-header", "no-diff-header"} then Some([("drop_diff_header", Bool(true))])
    else if lower in {"keep-diff-header", "diff-header"} then Some([("drop_diff_header", Bool(false))])
    else if lower in {"short-diff-header", "short-file-header"} then Some([("short_diff_header", Bool(true))])
    else if lower in {"drop-hunk-header", "no-hunk-header"} then Some([("drop_hunk_header", Bool(true))])
    else if lower in {"keep-hunk-header", "hunk-header"} then Some([("drop_hunk_header", Bool(false))])
    else if lower in {"short-hunk-header", "short-hunk"} then Some([("short_hunk_header", Bool(true))])
    else if lower in {"drop-filemode", "no-filemode"} then Some([("drop_filemode", Bool(true))])
    else if lower in {"drop-rename", "no-rename"} then Some([("drop_rename", Bool(true))])
    else if lower in {"drop-similarity", "no-similarity"} then Some([("drop_similarity", Bool(true))])
    else if lower in {"drop-binary", "no-binary"} then Some([("drop_binary", Bool(true))])
    else if lower in {"path-basename", "basename"} then Some([("path_basename", Bool(true))])
    else if lower in {"path-table", "path-id", "path-ids"} then Some([("path_table", Bool(true)), ("short_diff_header", Bool(true))])
    else if lower in {"hunk-new-only", "hunk-new"} then Some([("hunk_new_only", Bool(true))])
    else if lower in {"hunk-full", "hunk-both"} then Some([("hunk_new_only", Bool(false))])
    else if lower in {"path-common-prefix", "common-prefix"} then Some([("path_common_prefix", Bool(true))])
    else if lower in {"no-common-prefix", "no-path-common-prefix"} then Some([("path_common_prefix", Bool(false))])
    else if lower in {"prefix-first", "prefix-first-only", "run-prefix-first"} then Some([("prefix_first_only", Bool(true))])
    else if lower in {"prefix-full", "prefix-all", "prefix-every"} then Some([("prefix_first_only", Bool(false))])
    else None
  }

  /** One non-blank, stripped spec token applied to `options`. The forms are tested
      in the source's order: `profile=NAME`, a profile name, the flag keywords,
      then the `key=value` and `uN` settings (the source tests `path-strip=` among
      the keywords; by the contract of `KeywordAssignments` no keyword can match
      such a token, so the outcome is the same). */
  function ApplyToken(options: Entries, token: string, profiles: Entries): Result<Entries> {
    var lower := Lower(token);
    if StartsWith(lower, "profile=") then
      var name := Strip(AfterFirst(token, '='));
      if name == "" then Err(RuntimeError(ProfileNameRequired))
      else
        match Get(profiles, name)
        case None => Err(RuntimeError(UnknownProfile(name)))
        case Some(Null) => Err(RuntimeError(UnknownProfile(name)))
        case Some(Dict(e)) => Ok(Overlay(options, e))
        case Some(_) => Err(RuntimeError(ProfileNotDict))
    else if HasKey(profiles, token) then
      match Get(profiles, token)
      case Some(Dict(e)) => Ok(Overlay(options, e))
      case _ => Err(RuntimeError(ProfileNotDict))
    else
      match KeywordAssignments(lower)
      case Some(assignments) => Ok(Overlay(options, assignments))
      case None => ApplySetting(options, token, lower)
  }

  /** The `path-strip=`, `path-prefix-token=`, `context=N` and `uN` forms; anything
      else is an unknown option. */
  function ApplySetting(options: Entries, token: string, lower: string): Result<Entries> {
    if StartsWith(lower, "path-strip=") then Ok(Set(options, "path_strip", Str(AfterFirst(token, '='))))
    else if StartsWith(lower, "path-prefix-token=") then Ok(Set(options, "path_prefix_token", Str(AfterFirst(token, '='))))
    else if StartsWith(lower, "context=") then
      var literal := AfterFirst(lower, '=');
      match ParseInt(literal)
      case Some(n) => Ok(Set(options, "context", Int(n)))
      case None => Err(ValueError(literal))
    else if StartsWith(lower, "u") && AllDigits(lower[1..]) then Ok(Set(options, "context", Int(NumeralValue(lower[1..]))))
    else Err(RuntimeError(UnknownOption(token)))
  }

  /** The comma-separated pieces from the first on, applied left to right; blank
      pieces are skipped and the first failing token stops the parse. */
  function ApplyParts(options: Entries, parts: seq<string>, profiles: Entries): Result<Entries>
    decreases |parts|
  {
    if parts == [] then Ok(options)
    else
      var part := Strip(parts[0]);
      if part == "" then ApplyParts(options, parts[1..], profiles)
      else
        match ApplyToken(options, part, profiles)
        case Ok(next) => ApplyParts(next, parts[1..], profiles)
        case Err(e) => Err(e)
  }

  /** What `_parse_compact_spec(spec, defaults, profiles)` returns or raises. */
  function ParseSpec(spec: string, defaults: Entries, profiles: Entries): Result<Entries> {
    if spec == "" then Ok(defaults) else ApplyParts(defaults, Split(spec, ','), profiles)
  }

  /** `_parse_compact_spec`: copies the defaults and updates the copy token by token. */
  method ParseCompactSpec(spec: string, defaults: Entries, profiles: Entries) returns (r: Result<Entries>)
    ensures r == ParseSpec(spec, defaults, profiles)
  {
    var options := defaults;
    if spec == "" {
      return Ok(options);
    }
    var parts := Split(spec, ',');
    var i := 0;
    while i < |parts|
      invariant 0 <= i <= |parts|
      invariant ApplyParts(options, parts[i..], profiles) == ParseSpec(spec, defaults, profiles)
    {
      assert parts[i..][1..] == parts[i + 1..];
      var part := Strip(parts[i]);
      if part != "" {
        var step := ApplyToken(options, part, profiles);
        if step.Err? {
          return Err(step.error);
        }
        options := step.value;
      }
      i := i + 1;
    }
    return Ok(options);
  }

  // ---------------------------------------------------------------------------
  // _apply_compact_options

  /** `_apply_compact_options(...)`: the options, context and no-prefix flag a
      command continues with. */
  function ApplyCompactOptions(enabled: bool, spec: string, options: Entries, profiles: Entries,
                               context: Option<int>, contextSet: bool): (r: Result<(Entries, Option<int>, bool)>)
    ensures !enabled ==> r == Ok((options, context, false))
    ensures enabled && ParseSpec(spec, options, profiles).Err? ==> r.Err?
    ensures enabled && r.Ok? ==> ParseSpec(spec, options, profiles) == Ok(r.value.0)
    ensures enabled && contextSet && r.Ok? ==> r.value.1 == context
    ensures enabled && !contextSet && r.Ok? ==>
      r.value.1.Some? && HasKey(r.value.0, "context") && ToInt(Get(r.value.0, "context").value) == Ok(r.value.1.value)
    ensures enabled && r.Ok? ==> r.value.2 == Truthy(GetOr(r.value.0, "no_prefix", Null))
  {
    if !enabled then Ok((options, context, false))
    else
      var parsed :- ParseSpec(spec, options, profiles);
      if contextSet then Ok((parsed, context, Truthy(GetOr(parsed, "no_prefix", Null))))
      else
        match Get(parsed, "context")
        case None => Err(KeyError("context"))
        case Some(v) =>
          var n :- ToInt(v);
          Ok((parsed, Some(n), Truthy(GetOr(parsed, "no_prefix", Null))))
  }

  // ---------------------------------------------------------------------------
  // Lemmas

  /** A spec made only of blank pieces (`" , ,"`) leaves the defaults as they are. */
  lemma {:induction false} BlankPartsKeepOptions(options: Entries, parts: seq<string>, profiles: Entries)
    requires forall i :: 0 <= i < |parts| ==> Strip(parts[i]) == ""
    ensures ApplyParts(options, parts, profiles) == Ok(options)
    decreases |parts|
  {
    if parts != [] {
      BlankPartsKeepOptions(options, parts[1..], profiles);
    }
  }

  /** Applying two runs of pieces is applying the first run, then the second over its result. */
  lemma {:induction false} ApplyPartsConcat(options: Entries, a: seq<string>, b: seq<string>, profiles: Entries)
    ensures ApplyParts(options, a + b, profiles) ==
      match ApplyParts(options, a, profiles)
      case Ok(mid) => ApplyParts(mid, b, profiles)
      case Err(e) => Err(e)
    decreases |a|
  {
    if a != [] {
      assert (a + b)[1..] == a[1..] + b;
      var part := Strip(a[0]);
      if part == "" {
        ApplyPartsConcat(options, a[1..], b, profiles);
      } else if ApplyToken(options, part, profiles).Ok? {
        ApplyPartsConcat(ApplyToken(options, part, profiles).value, a[1..], b, profiles);
      }
    } else {
      assert a + b == b;
    }
  }

  /** Tokens apply left to right: parsing `a,b` is parsing `a` and then parsing `b`
      over its result, so a later token overrides an earlier one. */
  lemma ParseSpecConcat(a: string, b: string, defaults: Entries, profiles: Entries)
    ensures ParseSpec(a + "," + b, defaults, profiles) ==
      match ParseSpec(a, defaults, profiles)
      case Ok(mid) => ParseSpec(b, mid, profiles)
      case Err(e) => Err(e)
  {
    SplitConcat(a, b, ',');
    assert a + "," + b == a + [','] + b;
    ApplyPartsConcat(defaults, Split(a, ','), Split(b, ','), profiles);
    if a == "" {
      assert Split(a, ',') == [""];
    }
    if b == "" {
      assert Split(b, ',') == [""];
    }
  }

  /** `Lower` maps a string of characters that are not upper-case letters to itself. */
  lemma LowerOfLower(s: string)
    requires forall i :: 0 <= i < |s| ==> !('A' <= s[i] <= 'Z')
    ensures Lower(s) == s
  {
  }

  /** A string made of digits is not changed by lower-casing. */
  lemma LowerOfDigits(s: string)
    requires forall i :: 0 <= i < |s| ==> IsDigit(s[i])
    ensures Lower(s) == s
  {
  }

  /** The text after the first `c` of `p + [c] + rest`, when `p` holds no `c`, is `rest`. */
  lemma {:induction false} AfterFirstOf(p: string, c: char, rest: string)
    requires c !in p
    ensures AfterFirst(p + [c] + rest, c) == rest
  {
    if p != [] {
      assert (p + [c] + rest)[1..] == p[1..] + [c] + rest;
      AfterFirstOf(p[1..], c, rest);
    }
  }

  lemma NotStartsWith(s: string, p: string)
    requires |s| > 0 && |p| > 0 && s[0] != p[0]
    ensures !StartsWith(s, p)
  {
    assert |p| <= |s| ==> s[..|p|][0] == s[0];
  }

  /** A token that names no profile and no keyword falls through to the settings. */
  lemma ApplyTokenIsSetting(options: Entries, token: string, profiles: Entries)
    requires Lower(token) == token && !StartsWith(token, "profile=") && !HasKey(profiles, token)
    requires '=' in token
    ensures ApplyToken(options, token, profiles) == ApplySetting(options, token, token)
  {
    assert KeywordAssignments(token) == None;
  }

  /** `context=N` sets the context to `N`. */
  lemma ContextToken(options: Entries, n: nat, profiles: Entries)
    requires !HasKey(profiles, "context=" + NatToStr(n))
    ensures ApplyToken(options, "context=" + NatToStr(n), profiles) == Ok(Set(options, "context", Int(n)))
  {
    var digits := NatToStr(n);
    var token := "context=" + digits;
    LowerOfLower(token);
    assert token == "context" + ['='] + digits;
    assert token[7] == '=';
    assert token[..8] == "context=";
    NotStartsWith(token, "profile=");
    NotStartsWith(token, "path-strip=");
    NotStartsWith(token, "path-prefix-token=");
    assert '=' in token;
    AfterFirstOf("context", '=', digits);
    ParseIntOfNat(n);
    assert AfterFirst(token, '=') == digits;
    assert StartsWith(token, "context=");
    assert ApplySetting(options, token, token) == Ok(Set(options, "context", Int(n)));
    ApplyTokenIsSetting(options, token, profiles);
  }

  /** `uN` sets the context to `N`. */
  lemma UnifiedToken(options: Entries, n: nat, profiles: Entries)
    requires !HasKey(profiles, "u" + NatToStr(n))
    ensures ApplyToken(options, "u" + NatToStr(n), profiles) == Ok(Set(options, "context", Int(n)))
  {
    var digits := NatToStr(n);
    var token := "u" + digits;
    LowerOfLower(token);
    assert token[1..] == digits;
    NotStartsWith(token, "profile=");
    NotStartsWith(token, "path-strip=");
    NotStartsWith(token, "path-prefix-token=");
    NotStartsWith(token, "context=");
    assert token[..1] == "u";
    assert |token| >= 2 && IsDigit(token[1]);
    NumeralOfNatToStr(n);
  }

  const PathTableAssignments: Entries := [("path_table", Bool(true)), ("short_diff_header", Bool(true))]

  lemma PathTableKeyword(token: string)
    requires token == "path-table" || token == "path-id" || token == "path-ids"
    ensures Lower(token) == token && !StartsWith(token, "profile=")
    ensures KeywordAssignments(token) == Some(PathTableAssignments)
  {
    LowerOfLower(token);
    assert token[1] == 'a';
    assert !StartsWith(token, "profile=") by {
      assert |"profile="| <= |token| ==> token[..8][1] != "profile="[1];
    }
    assert '=' !in token;
  }

  /** `path-table`, `path-id` and `path-ids` set both `path_table` and `short_diff_header`. */
  lemma PathTableToken(options: Entries, token: string, profiles: Entries)
    requires token == "path-table" || token == "path-id" || token == "path-ids"
    requires !HasKey(profiles, token)
    ensures ApplyToken(options, token, profiles) ==
      Ok(Set(Set(options, "path_table", Bool(true)), "short_diff_header", Bool(true)))
  {
    PathTableKeyword(token);
    var a := PathTableAssignments;
    assert OverlayFrom(options, a, 0) == OverlayFrom(Set(options, "path_table", Bool(true)), a, 1);
  }

  /** A profile named directly or through `profile=NAME` overlays its entries. */
  lemma ProfileToken(options: Entries, name: string, profiles: Entries, e: Entries)
    requires Get(profiles, name) == Some(Dict(e))
    requires !StartsWith(Lower(name), "profile=")
    ensures ApplyToken(options, name, profiles) == Ok(Overlay(options, e))
  {
  }

  /** A profile that sets `path_table` leaves `short_diff_header` as it was: only
      the keyword tokens couple the two. */
  lemma ProfilePathTableNotCoupled(defaults: Entries)
    ensures ParseSpec("tbl", defaults, [("tbl", Dict([("path_table", Bool(true))]))]) ==
      Ok(Set(defaults, "path_table", Bool(true)))
    ensures Get(Set(defaults, "path_table", Bool(true)), "short_diff_header") == Get(defaults, "short_diff_header")
  {
    var profiles := [("tbl", Dict([("path_table", Bool(true))]))];
    var e := [("path_table", Bool(true))];
    SplitWithoutSeparator("tbl", ',');
    StripNoSpace("tbl");
    LowerOfLower("tbl");
    ProfileToken(defaults, "tbl", profiles, e);
    assert Overlay(defaults, e) == Set(defaults, "path_table", Bool(true));
    assert ApplyParts(defaults, ["tbl"], profiles) == ApplyParts(Set(defaults, "path_table", Bool(true)), [], profiles);
  }

  /** Every error the parser reports comes from one non-blank piece of the spec. */
  lemma {:induction false} ApplyPartsErrorFromPiece(options: Entries, parts: seq<string>, profiles: Entries)
    requires ApplyParts(options, parts, profiles).Err?
    ensures exists i, o :: (0 <= i < |parts| && Strip(parts[i]) != "" &&
      ApplyToken(o, Strip(parts[i]), profiles) == ApplyParts(options, parts, profiles))
    decreases |parts|
  {
    var part := Strip(parts[0]);
    if part == "" || ApplyToken(options, part, profiles).Ok? {
      var next := if part == "" then options else ApplyToken(options, part, profiles).value;
      assert ApplyParts(options, parts, profiles) == ApplyParts(next, parts[1..], profiles);
      ApplyPartsErrorFromPiece(next, parts[1..], profiles);
      var i, o :| 0 <= i < |parts[1..]| && Strip(parts[1..][i]) != "" &&
        ApplyToken(o, Strip(parts[1..][i]), profiles) == ApplyParts(next, parts[1..], profiles);
      assert parts[1..][i] == parts[i + 1];
    } else {
      assert ApplyToken(options, Strip(parts[0]), profiles) == ApplyParts(options, parts, profiles);
    }
  }

  lemma {:induction false} LowerConcat(a: string, b: string)
    ensures Lower(a + b) == Lower(a) + Lower(b)
  {
  }

  /** A spec of one non-blank piece applies that piece's token. */
  lemma SinglePiece(options: Entries, part: string, profiles: Entries)
    requires Strip(part) != ""
    ensures ApplyParts(options, [part], profiles) == ApplyToken(options, Strip(part), profiles)
  {
    assert [part][1..] == [];
  }

  /** The last token wins: a flag keyword at the end of a spec leaves each option
      it assigns with the keyword's value, whatever the tokens before it set. */
  lemma LastKeywordWins(a: string, token: string, defaults: Entries, profiles: Entries, assignments: Entries, k: string)
    requires ParseSpec(a, defaults, profiles).Ok?
    requires token != "" && ',' !in token && Strip(token) == token
    requires !StartsWith(Lower(token), "profile=") && !HasKey(profiles, token)
    requires KeywordAssignments(Lower(token)) == Some(assignments)
    requires HasKey(assignments, k)
    ensures ParseSpec(a + "," + token, defaults, profiles).Ok?
    ensures Get(ParseSpec(a + "," + token, defaults, profiles).value, k) == Get(assignments, k)
  {
    ParseSpecConcat(a, token, defaults, profiles);
    var mid := ParseSpec(a, defaults, profiles).value;
    KeywordSpec(mid, token, profiles, assignments);
    GetIn(assignments, k);
    OverlayFacts(mid, assignments, k);
  }

  /** A spec that is one stripped token applies that token. */
  lemma TokenSpec(options: Entries, token: string, profiles: Entries)
    requires token != "" && ',' !in token && Strip(token) == token
    ensures ParseSpec(token, options, profiles) == ApplyToken(options, token, profiles)
  {
    SplitWithoutSeparator(token, ',');
    SinglePiece(options, token, profiles);
  }

  /** A spec that is one flag keyword makes that keyword's assignments. */
  lemma KeywordSpec(options: Entries, token: string, profiles: Entries, assignments: Entries)
    requires token != "" && ',' !in token && Strip(token) == token
    requires !StartsWith(Lower(token), "profile=") && !HasKey(profiles, token)
    requires KeywordAssignments(Lower(token)) == Some(assignments)
    ensures ParseSpec(token, options, profiles) == Ok(Overlay(options, assignments))
  {
    TokenSpec(options, token, profiles);
  }

  /** A last token that fails makes the whole spec fail with its error. */
  lemma TrailingTokenError(a: string, token: string, defaults: Entries, profiles: Entries)
    requires ParseSpec(a, defaults, profiles).Ok?
    requires token != "" && ',' !in token && Strip(token) == token
    requires ApplyToken(ParseSpec(a, defaults, profiles).value, token, profiles).Err?
    ensures ParseSpec(a + "," + token, defaults, profiles) == ApplyToken(ParseSpec(a, defaults, profiles).value, token, profiles)
  {
    ParseSpecConcat(a, token, defaults, profiles);
    TokenSpec(ParseSpec(a, defaults, profiles).value, token, profiles);
  }

  /** A token that takes none of the forms the parser knows: not `profile=NAME`, not
      a profile name, no flag keyword, not `path-strip=`, `path-prefix-token=` or
      `context=`, and not `u` followed by digits. */
  predicate Unrecognised(token: string, profiles: Entries) {
    var lower := Lower(token);
    !StartsWith(lower, "profile=") && !HasKey(profiles, token) && KeywordAssignments(lower).None?
    && !StartsWith(lower, "path-strip=") && !StartsWith(lower, "path-prefix-token=")
    && !StartsWith(lower, "context=") && !(StartsWith(lower, "u") && AllDigits(lower[1..]))
  }

  /** A token is refused as an unknown option, named verbatim, exactly when it takes
      none of the known forms; every other error names a profile or a bad number. */
  lemma UnknownOptionIff(options: Entries, token: string, profiles: Entries)
    ensures ApplyToken(options, token, profiles) == Err(RuntimeError(UnknownOption(token)))
      <==> Unrecognised(token, profiles)
  {
    OptionMessageDistinct(token, Strip(AfterFirst(token, '=')));
  }

  /** The unknown-option message differs from each of the profile messages. */
  lemma OptionMessageDistinct(token: string, name: string)
    ensures UnknownOption(token) != ProfileNameRequired
    ensures UnknownOption(token) != UnknownProfile(name)
    ensures UnknownOption(token) != ProfileNotDict
  {
    var message := UnknownOption(token);
    assert message[13] == 'u' && ProfileNameRequired[13] == 'c';
    assert message[29] == 'o' && UnknownProfile(name)[29] == 'p';
    assert message[7] == 'd' && ProfileNotDict[7] == 'c';
  }

  /** A spec whose last piece is such a token fails with that token named, whatever
      the pieces before it set; so does a spec that is that token alone. */
  lemma UnknownOptionSpec(a: string, token: string, defaults: Entries, profiles: Entries)
    requires token != "" && ',' !in token && Strip(token) == token
    requires Unrecognised(token, profiles)
    ensures ParseSpec(token, defaults, profiles) == Err(RuntimeError(UnknownOption(token)))
    ensures ParseSpec(a, defaults, profiles).Ok? ==>
      ParseSpec(a + "," + token, defaults, profiles) == Err(RuntimeError(UnknownOption(token)))
  {
    UnknownOptionIff(defaults, token, profiles);
    TokenSpec(defaults, token, profiles);
    if ParseSpec(a, defaults, profiles).Ok? {
      UnknownOptionIff(ParseSpec(a, defaults, profiles).value, token, profiles);
      TrailingTokenError(a, token, defaults, profiles);
    }
  }

  /** `profile=` errors: an empty name, an unknown or `None` profile, and a non-dict profile. */
  lemma ProfileErrors(options: Entries, name: string, profiles: Entries)
    requires '=' !in name
    ensures Strip(name) == "" ==> ApplyToken(options, "profile=" + name, profiles) == Err(RuntimeError(ProfileNameRequired))
    ensures Strip(name) != "" && Get(profiles, Strip(name)) in {None, Some(Null)} ==>
      ApplyToken(options, "profile=" + name, profiles) == Err(RuntimeError(UnknownProfile(Strip(name))))
    ensures (Strip(name) != "" && Get(profiles, Strip(name)).Some? && !Get(profiles, Strip(name)).value.Dict?
      && Get(profiles, Strip(name)).value != Null) ==>
      ApplyToken(options, "profile=" + name, profiles) == Err(RuntimeError(ProfileNotDict))
  {
    var token := "profile=" + name;
    LowerConcat("profile=", name);
    LowerOfLower("profile=");
    assert Lower(token)[..8] == "profile=";
    assert token == "profile" + ['='] + name;
    AfterFirstOf("profile", '=', name);
  }
}
