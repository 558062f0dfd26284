/** Python string operations used by the router, on `string` (a sequence of Unicode
    scalar values). `lower()`/`upper()` are modelled for ASCII letters only;
    whitespace is Python's `str.isspace()` set. */
module Text {
  import opened Wrappers

  predicate StartsWith(s: string, p: string) {
    |p| <= |s| && s[..|p|] == p
  }

  predicate EndsWith(s: string, p: string) {
    |p| <= |s| && s[|s| - |p|..] == p
  }

  /** The characters for which Python's `str.isspace()` holds. */
  predicate IsSpace(c: char) {
    var n := c as int;
    (9 <= n <= 13) || (28 <= n <= 32) || n == 0x85 || n == 0xA0 || n == 0x1680
    || (0x2000 <= n <= 0x200A) || n == 0x2028 || n == 0x2029 || n == 0x202F
    || n == 0x205F || n == 0x3000
  }

  predicate IsDigit(c: char) {
    '0' <= c <= '9'
  }

  /** `str.lstrip()` */
  function StripLeft(s: string): (r: string)
    ensures |r| <= |s|
    ensures r == "" || !IsSpace(r[0])
  {
    if s != [] && IsSpace(s[0]) then StripLeft(s[1..]) else s
  }

  /** `str.rstrip()` */
  function StripRight(s: string): (r: string)
    ensures |r| <= |s|
    ensures r == "" || !IsSpace(r[|r| - 1])
  {
    if s != [] && IsSpace(s[|s| - 1]) then StripRight(s[..|s| - 1]) else s
  }

  /** What `lstrip()` keeps is a suffix of the text. */
  lemma {:induction false} StripLeftIsSuffix(s: string)
    ensures StripLeft(s) == s[|s| - |StripLeft(s)|..]
    decreases |s|
  {
    if s != [] && IsSpace(s[0]) {
      StripLeftIsSuffix(s[1..]);
    }
  }

  /** What `rstrip()` keeps is a prefix of the text. */
  lemma {:induction false} StripRightIsPrefix(s: string)
    ensures StripRight(s) == s[..|StripRight(s)|]
    decreases |s|
  {
    if s != [] && IsSpace(s[|s| - 1]) {
      StripRightIsPrefix(s[..|s| - 1]);
    }
  }

  /** `str.strip()` */
  function Strip(s: string): string {
    StripRight(StripLeft(s))
  }

  /** `str.lstrip(c)` for a single character `c`. */
  function StripLeftChar(s: string, c: char): (r: string)
    ensures |r| <= |s| && r == s[|s| - |r|..]
    ensures r == "" || r[0] != c
  {
    if s != [] && s[0] == c then StripLeftChar(s[1..], c) else s
  }

  function LowerChar(c: char): char {
    if 'A' <= c <= 'Z' then (c as int + 32) as char else c
  }

  function UpperChar(c: char): char {
    if 'a' <= c <= 'z' then (c as int - 32) as char else c
  }

  /** `str.lower()` on ASCII letters. */
  function Lower(s: string): (r: string)
    ensures |r| == |s|
  {
    seq(|s|, i requires 0 <= i < |s| => LowerChar(s[i]))
  }

  /** `str.upper()` on ASCII letters. */
  function Upper(s: string): (r: string)
    ensures |r| == |s|
  {
    seq(|s|, i requires 0 <= i < |s| => UpperChar(s[i]))
  }

  /** `sep.join(parts)` */
  function Join(parts: seq<string>, sep: string): string {
    if |parts| == 0 then ""
    else if |parts| == 1 then parts[0]
    else parts[0] + sep + Join(parts[1..], sep)
  }

  /** `s.split(c)` for a one-character separator: never empty, and the pieces
      contain no `c`. */
  function Split(s: string, c: char): (r: seq<string>)
    ensures |r| >= 1
  {
    if s == [] then [""]
    else
      var rest := Split(s[1..], c);
      if s[0] == c then [""] + rest else [[s[0]] + rest[0]] + rest[1..]
  }

  /** The longest prefix of `s` without whitespace. */
  function TakeWord(s: string): (r: string)
    ensures |r| <= |s| && r == s[..|r|]
    ensures s != [] && !IsSpace(s[0]) ==> |r| >= 1
    ensures forall i :: 0 <= i < |r| ==> !IsSpace(r[i])
    ensures |r| < |s| ==> IsSpace(s[|r|])
  {
    if s == [] || IsSpace(s[0]) then [] else [s[0]] + TakeWord(s[1..])
  }

  /** `s.split()`: the maximal whitespace-free runs of `s`, in order. */
  function SplitWs(s: string): seq<string>
    decreases |s|
  {
    var t := StripLeft(s);
    if t == "" then []
    else
      var w := TakeWord(t);
      [w] + SplitWs(t[|w|..])
  }

  /** `c in s` */
  predicate Contains(s: string, c: char) {
    exists i :: 0 <= i < |s| && s[i] == c
  }

  /** `s.rsplit("/", 1)[-1]`: what follows the last `/`, or all of `s`. */
  function LastSegment(s: string): (r: string)
    ensures |r| <= |s| && r == s[|s| - |r|..]
    ensures forall i :: 0 <= i < |r| ==> r[i] != '/'
    ensures |r| < |s| ==> s[|s| - |r| - 1] == '/'
  {
    if s == [] || s[|s| - 1] == '/' then [] else LastSegment(s[..|s| - 1]) + [s[|s| - 1]]
  }

  /** `sub` occurs in `s` at index `j`. */
  predicate OccursAt(s: string, sub: string, j: int) {
    0 <= j && j + |sub| <= |s| && s[j..j + |sub|] == sub
  }

  /** The first index at or after `i` at which `sub` occurs in `s`. */
  function FindFrom(s: string, sub: string, i: nat): (r: Option<nat>)
    ensures r.Some? ==> i <= r.value && OccursAt(s, sub, r.value)
    ensures r.Some? ==> forall j :: i <= j < r.value ==> !OccursAt(s, sub, j)
    ensures r.None? ==> forall j :: i <= j ==> !OccursAt(s, sub, j)
    decreases |s| - i
  {
    if i + |sub| > |s| then None
    else if OccursAt(s, sub, i) then Some(i)
    else FindFrom(s, sub, i + 1)
  }

  /** `s.find(sub)`, with `None` for Python's -1: the first index at which `sub` occurs. */
  function Find(s: string, sub: string): (r: Option<nat>)
    ensures r.Some? ==> OccursAt(s, sub, r.value)
    ensures r.Some? ==> forall j :: 0 <= j < r.value ==> !OccursAt(s, sub, j)
    ensures r.None? ==> forall j :: !OccursAt(s, sub, j)
  {
    FindFrom(s, sub, 0)
  }

  function DigitChar(d: nat): char
    requires d < 10
  {
    ('0' as int + d) as char
  }

  /** `str(n)` for a natural number. */
  function NatToStr(n: nat): (r: string)
    ensures |r| >= 1
    ensures forall i :: 0 <= i < |r| ==> IsDigit(r[i])
    decreases n
  {
    if n < 10 then [DigitChar(n)] else NatToStr(n / 10) + [DigitChar(n % 10)]
  }

  /** `str(i)` for an integer. */
  function IntToStr(i: int): string {
    if i < 0 then "-" + NatToStr(-i) else NatToStr(i)
  }

  /** A Python integer literal body: ASCII digits with single underscores between them. */
  predicate ValidNumeral(s: string) {
    && |s| >= 1
    && IsDigit(s[0])
    && forall i :: 0 <= i < |s| ==> NumeralCharAt(s, i)
  }

  /** Position `i` of a numeral holds a digit, or an underscore between two digits. */
  predicate NumeralCharAt(s: string, i: int)
    requires 0 <= i < |s|
  {
    IsDigit(s[i]) || (s[i] == '_' && 0 < i < |s| - 1 && IsDigit(s[i + 1]))
  }

  /** The value of a numeral, underscores ignored. */
  function NumeralValue(s: string): nat {
    if s == [] then 0
    else if s[|s| - 1] == '_' then NumeralValue(s[..|s| - 1])
    else if IsDigit(s[|s| - 1]) then 10 * NumeralValue(s[..|s| - 1]) + (s[|s| - 1] as int - '0' as int)
    else 10 * NumeralValue(s[..|s| - 1])
  }

  /** `int(s)` for a string: `None` where Python raises `ValueError`. */
  function ParseInt(s: string): Option<int> {
    ParseNumber(Strip(s))
  }

  /** `int(t)` for text already stripped: an optional sign, then a numeral. */
  function ParseNumber(t: string): Option<int> {
    if t != "" && (t[0] == '-' || t[0] == '+') then
      if ValidNumeral(t[1..]) then
        var m: int := NumeralValue(t[1..]);
        var v: int := if t[0] == '-' then 0 - m else m;
        Some(v)
      else None
    else if ValidNumeral(t) then Some(NumeralValue(t))
    else None
  }

  /** `s.isdigit()` on ASCII digits. */
  predicate AllDigits(s: string) {
    |s| >= 1 && forall i :: 0 <= i < |s| ==> IsDigit(s[i])
  }

  /** `text.splitlines()`, for text whose only line boundary is `\n`. */
  function SplitLines(text: string): seq<string> {
    if text == "" then []
    else
      var pieces := Split(text, '\n');
      if text[|text| - 1] == '\n' then pieces[..|pieces| - 1] else pieces
  }

  /** The characters other than `\n` at which Python's `splitlines()` also breaks. */
  predicate OnlyNewlineBreaks(text: string) {
    forall i :: 0 <= i < |text| ==>
      text[i] !in {'\r', '\U{000B}', '\U{000C}', '\U{001C}', '\U{001D}', '\U{001E}', '\U{0085}', '\U{2028}', '\U{2029}'}
  }

  // ---------------------------------------------------------------------------
  // Lemmas

  lemma {:induction false} JoinSplit(s: string, c: char)
    ensures Join(Split(s, c), [c]) == s
  {
    if s != [] {
      var rest := Split(s[1..], c);
      JoinSplit(s[1..], c);
      if s[0] != c {
        if |rest| == 1 {
        } else {
          assert Join(rest, [c]) == rest[0] + [c] + Join(rest[1..], [c]);
          assert ([[s[0]] + rest[0]] + rest[1..])[1..] == rest[1..];
        }
      }
    }
  }

  /** A string without the separator splits into itself alone. */
  lemma {:induction false} SplitWithoutSeparator(s: string, c: char)
    requires c !in s
    ensures Split(s, c) == [s]
  {
    if s != [] {
      SplitWithoutSeparator(s[1..], c);
      assert [s[0]] + s[1..] == s;
    }
  }

  lemma {:induction false} SplitConcat(a: string, b: string, c: char)
    ensures Split(a + [c] + b, c) == Split(a, c) + Split(b, c)
  {
    if a == [] {
      assert (a + [c] + b)[1..] == b;
    } else {
      assert (a + [c] + b)[1..] == a[1..] + [c] + b;
      SplitConcat(a[1..], b, c);
    }
  }

  lemma {:induction false} JoinSnoc(ps: seq<string>, x: string, sep: string)
    requires ps != []
    ensures Join(ps + [x], sep) == Join(ps, sep) + sep + x
  {
    if |ps| == 1 {
    } else {
      assert (ps + [x])[1..] == ps[1..] + [x];
      JoinSnoc(ps[1..], x, sep);
    }
  }

  lemma {:induction false} JoinConcat(ps: seq<string>, qs: seq<string>, sep: string)
    requires ps != [] && qs != []
    ensures Join(ps + qs, sep) == Join(ps, sep) + sep + Join(qs, sep)
  {
    if |ps| == 1 {
      assert (ps + qs)[1..] == qs;
    } else {
      assert (ps + qs)[1..] == ps[1..] + qs;
      JoinConcat(ps[1..], qs, sep);
    }
  }

  /** Joining the lines of `text` with `\n` and restoring a final `\n` gives back `text`. */
  lemma SplitLinesJoin(text: string)
    requires text != ""
    ensures Join(SplitLines(text), "\n") + (if text[|text| - 1] == '\n' then "\n" else "") == text
  {
    var pieces := Split(text, '\n');
    JoinSplit(text, '\n');
    if text[|text| - 1] == '\n' {
      var a := text[..|text| - 1];
      assert text == a + ['\n'] + "";
      SplitConcat(a, "", '\n');
      assert pieces == Split(a, '\n') + [""];
      assert pieces[..|pieces| - 1] == Split(a, '\n');
      JoinSnoc(Split(a, '\n'), "", "\n");
    }
  }

  lemma {:induction false} NumeralOfNatToStr(n: nat)
    ensures ValidNumeral(NatToStr(n)) && NumeralValue(NatToStr(n)) == n
    decreases n
  {
    var r := NatToStr(n);
    if n >= 10 {
      NumeralOfNatToStr(n / 10);
      assert r[..|r| - 1] == NatToStr(n / 10);
    }
  }

  lemma StripNoSpace(s: string)
    requires s == "" || (!IsSpace(s[0]) && !IsSpace(s[|s| - 1]))
    ensures Strip(s) == s
  {
    assert StripLeft(s) == s;
  }

  lemma DigitsNotSpace(s: string)
    requires forall i :: 0 <= i < |s| ==> IsDigit(s[i])
    ensures forall i :: 0 <= i < |s| ==> !IsSpace(s[i])
  {
  }

  /** `int(str(i)) == i`: the decimal rendering round-trips through the parser. */
  lemma {:induction false} ParseIntOfIntToStr(i: int)
    ensures ParseInt(IntToStr(i)) == Some(i)
  {
    var s := IntToStr(i);
    if i < 0 {
      var d := -i;
      assert s == "-" + NatToStr(d);
      ParseIntOfNegative(d);
      assert ParseInt("-" + NatToStr(d)) == Some(-d);
    } else {
      assert s == NatToStr(i);
      ParseIntOfNat(i);
    }
  }

  lemma {:induction false} ParseIntOfNat(d: nat)
    ensures ParseInt(NatToStr(d)) == Some(d)
  {
    var n := NatToStr(d);
    NumeralOfNatToStr(d);
    DigitsNotSpace(n);
    StripNoSpace(n);
    assert ParseNumber(n) == Some(d) by {
      assert IsDigit(n[0]);
    }
  }

  lemma {:induction false} ParseIntOfNegative(d: int)
    requires d > 0
    ensures ParseInt("-" + NatToStr(d)) == Some(-d)
  {
    var n := NatToStr(d);
    var r := "-" + n;
    NumeralOfNatToStr(d);
    assert IsDigit(n[|n| - 1]);
    assert r[1..] == n && r[|r| - 1] == n[|n| - 1];
    ParseIntNoSpace(r);
    assert ParseNumber(r) == Some(-d);
  }

  /** Text with no space at either end is parsed as it stands. */
  lemma ParseIntNoSpace(t: string)
    requires t == "" || (!IsSpace(t[0]) && !IsSpace(t[|t| - 1]))
    ensures ParseInt(t) == ParseNumber(t)
  {
    StripNoSpace(t);
  }
}
