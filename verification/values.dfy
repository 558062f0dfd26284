/** Configuration values as the router reads them from its YAML/JSON documents, and
    the Python coercions (`bool()`, `str()`, `int()`, iteration) the router applies
    to them. A Python dict is an insertion-ordered association list. */
module Values {
  import opened Wrappers
  import opened Text

  datatype Value =
    | Null
    | Bool(b: bool)
    | Int(i: int)
    | Str(s: string)
    | List(items: seq<Value>)
    | Dict(entries: seq<(string, Value)>)

  /** The entries of a dict, in insertion order. */
  type Entries = seq<(string, Value)>

  /** `d.get(k)`, with `None` when the key is absent. */
  function Get(d: Entries, k: string): Option<Value> {
    if d == [] then None
    else if d[0].0 == k then Some(d[0].1)
    else Get(d[1..], k)
  }

  /** `d.get(k, default)` */
  function GetOr(d: Entries, k: string, default: Value): Value {
    match Get(d, k)
    case Some(v) => v
    case None => default
  }

  predicate HasKey(d: Entries, k: string) {
    Get(d, k).Some?
  }

  function Keys(d: Entries): set<string> {
    set i | 0 <= i < |d| :: d[i].0
  }

  /** A Python dict never holds one key twice. */
  predicate DistinctKeys(d: Entries) {
    forall i, j :: 0 <= i < j < |d| ==> d[i].0 != d[j].0
  }

  /** `d[k] = v`: an existing key keeps its position, a new key goes last. */
  function Set(d: Entries, k: string, v: Value): (r: Entries)
    ensures Get(r, k) == Some(v)
    ensures forall k' :: k' != k ==> Get(r, k') == Get(d, k')
  {
    if d == [] then [(k, v)]
    else if d[0].0 == k then [(k, v)] + d[1..]
    else [d[0]] + Set(d[1..], k, v)
  }

  /** `v if isinstance(v, dict) else {}` */
  function DictOrEmpty(v: Option<Value>): Entries {
    match v
    case Some(Dict(e)) => e
    case _ => []
  }

  /** `config.get(key, {}) if isinstance(config.get(key), dict) else {}` */
  function Section(config: Entries, key: string): Entries {
    DictOrEmpty(Get(config, key))
  }

  /** `bool(v)` */
  predicate Truthy(v: Value) {
    match v
    case Null => false
    case Bool(b) => b
    case Int(i) => i != 0
    case Str(s) => s != ""
    case List(items) => items != []
    case Dict(e) => e != []
  }

  /** `str(v)`. The repr of a list or dict is not modelled: it stands as `[...]` or `{...}`. */
  function ToStr(v: Value): string {
    match v
    case Null => "None"
    case Bool(b) => if b then "True" else "False"
    case Int(i) => IntToStr(i)
    case Str(s) => s
    case List(_) => "[...]"
    case Dict(_) => "{...}"
  }

  /** `int(v)` */
  function ToInt(v: Value): Result<int> {
    match v
    case Int(i) => Ok(i)
    case Bool(b) => Ok(if b then 1 else 0)
    case Str(s) =>
      (match ParseInt(s)
       case Some(n) => Ok(n)
       case None => Err(ValueError(s)))
    case _ => Err(TypeError)
  }

  /** `for x in v`: a list yields its items, a string its characters, a dict its keys. */
  function Iterate(v: Value): Result<seq<Value>> {
    match v
    case List(items) => Ok(items)
    case Str(s) => Ok(seq(|s|, i requires 0 <= i < |s| => Str([s[i]])))
    case Dict(e) => Ok(seq(|e|, i requires 0 <= i < |e| => Str(e[i].0)))
    case _ => Err(TypeError)
  }

  /** `v or []` iterated. */
  function IterateOrEmpty(v: Value): Result<seq<Value>> {
    if Truthy(v) then Iterate(v) else Ok([])
  }

  /** `[str(x).strip() for x in items if str(x).strip()]` */
  function StrippedNonBlank(items: seq<Value>): (r: seq<string>)
    ensures |r| <= |items|
    ensures forall i :: 0 <= i < |r| ==> r[i] != ""
  {
    if items == [] then [] else Kept(items[0]) + StrippedNonBlank(items[1..])
  }

  /** What one item contributes: its strip, unless that is blank. */
  function Kept(x: Value): (r: seq<string>)
    ensures |r| <= 1
    ensures forall i :: 0 <= i < |r| ==> r[i] != ""
  {
    var s := Strip(ToStr(x));
    if s != "" then [s] else []
  }

  /** `[str(x).strip() for x in v if str(x).strip()]` over the value found under a key. */
  function StrippedListOf(v: Value): Result<seq<string>> {
    var items :- Iterate(v);
    Ok(StrippedNonBlank(items))
  }

  // ---------------------------------------------------------------------------
  // Lemmas

  lemma StripIdempotent(s: string)
    ensures Strip(Strip(s)) == Strip(s)
  {
    var t := Strip(s);
    if t != "" {
      StripRightIsPrefix(StripLeft(s));
      assert t[0] == StripLeft(s)[0];
      StripNoSpace(t);
    }
  }

  /** The comprehension filters the items one by one, in order: the kept entries of
      `a + b` are those of `a` followed by those of `b`. */
  lemma {:induction false} StrippedNonBlankConcat(a: seq<Value>, b: seq<Value>)
    ensures StrippedNonBlank(a + b) == StrippedNonBlank(a) + StrippedNonBlank(b)
    decreases |a|
  {
    if a == [] {
      assert a + b == b;
    } else {
      assert (a + b)[0] == a[0] && (a + b)[1..] == a[1..] + b;
      StrippedNonBlankConcat(a[1..], b);
      assert Kept(a[0]) + (StrippedNonBlank(a[1..]) + StrippedNonBlank(b))
        == Kept(a[0]) + StrippedNonBlank(a[1..]) + StrippedNonBlank(b);
    }
  }

  /** Every kept entry is already stripped, and the entries are exactly the non-blank
      strips of the items. */
  lemma StrippedNonBlankMembers(items: seq<Value>)
    ensures forall k :: 0 <= k < |StrippedNonBlank(items)| ==>
      Strip(StrippedNonBlank(items)[k]) == StrippedNonBlank(items)[k]
    ensures forall x :: x in StrippedNonBlank(items) <==>
      x != "" && exists i :: 0 <= i < |items| && Strip(ToStr(items[i])) == x
  {
    StrippedNonBlankStripped(items);
    StrippedNonBlankIn(items);
  }

  lemma {:induction false} StrippedNonBlankStripped(items: seq<Value>)
    ensures forall k :: 0 <= k < |StrippedNonBlank(items)| ==>
      Strip(StrippedNonBlank(items)[k]) == StrippedNonBlank(items)[k]
    decreases |items|
  {
    if items != [] {
      StrippedNonBlankStripped(items[1..]);
      StripIdempotent(ToStr(items[0]));
    }
  }

  lemma {:induction false} StrippedNonBlankIn(items: seq<Value>)
    ensures forall x :: x in StrippedNonBlank(items) <==>
      x != "" && exists i :: 0 <= i < |items| && Strip(ToStr(items[i])) == x
    decreases |items|
  {
    if items != [] {
      var head := Strip(ToStr(items[0]));
      var tail := items[1..];
      StrippedNonBlankIn(tail);
      var r := StrippedNonBlank(items);
      assert r == Kept(items[0]) + StrippedNonBlank(tail);
      forall x
        ensures x in r <==> x != "" && exists i :: 0 <= i < |items| && Strip(ToStr(items[i])) == x
      {
        if x in StrippedNonBlank(tail) {
          var j :| 0 <= j < |tail| && Strip(ToStr(tail[j])) == x;
          assert items[j + 1] == tail[j];
        }
        if x != "" && exists i :: 0 <= i < |items| && Strip(ToStr(items[i])) == x {
          var i :| 0 <= i < |items| && Strip(ToStr(items[i])) == x;
          if i > 0 {
            assert tail[i - 1] == items[i];
          }
        }
      }
    }
  }

  /** The text of a truthy value is never empty. */
  lemma TruthyText(v: Value)
    requires Truthy(v)
    ensures ToStr(v) != ""
  {
    if v.Int? {
      assert |NatToStr(if v.i < 0 then -v.i else v.i)| >= 1;
    }
  }

  lemma KeysCons(e: (string, Value), rest: Entries)
    ensures Keys([e] + rest) == {e.0} + Keys(rest)
  {
    var d := [e] + rest;
    forall x | x in Keys(d) ensures x in {e.0} + Keys(rest) {
      var i :| 0 <= i < |d| && d[i].0 == x;
      if i > 0 { assert rest[i - 1].0 == x; }
    }
    forall x | x in Keys(rest) ensures x in Keys(d) {
      var i :| 0 <= i < |rest| && rest[i].0 == x;
      assert d[i + 1].0 == x;
    }
    assert d[0].0 == e.0;
  }

  lemma {:induction false} GetIn(d: Entries, k: string)
    ensures HasKey(d, k) <==> k in Keys(d)
    ensures HasKey(d, k) ==> (k, Get(d, k).value) in d
  {
    if d != [] {
      GetIn(d[1..], k);
      KeysCons(d[0], d[1..]);
      assert d == [d[0]] + d[1..];
    }
  }

  lemma {:induction false} KeysOfSet(d: Entries, k: string, v: Value)
    ensures Keys(Set(d, k, v)) == Keys(d) + {k}
  {
    if d != [] {
      KeysCons(d[0], d[1..]);
      assert d == [d[0]] + d[1..];
      if d[0].0 == k {
        KeysCons((k, v), d[1..]);
      } else {
        KeysOfSet(d[1..], k, v);
        KeysCons(d[0], Set(d[1..], k, v));
      }
    }
  }

  lemma {:induction false} DistinctKeysOfSet(d: Entries, k: string, v: Value)
    requires DistinctKeys(d)
    ensures DistinctKeys(Set(d, k, v))
  {
    if d != [] {
      if d[0].0 != k {
        DistinctKeysOfSet(d[1..], k, v);
        KeysOfSet(d[1..], k, v);
        var r := Set(d[1..], k, v);
        forall j | 0 <= j < |d[1..]| ensures d[1..][j].0 != d[0].0 {
          assert d[1..][j] == d[j + 1];
        }
        assert d[0].0 !in Keys(d[1..]);
        forall j | 0 <= j < |r| ensures r[j].0 != d[0].0 {
          assert r[j].0 in Keys(r);
        }
      }
    }
  }

  /** With distinct keys, the value `Get` finds is the one stored at the key's position. */
  lemma {:induction false} GetAt(d: Entries, i: int)
    requires DistinctKeys(d) && 0 <= i < |d|
    ensures Get(d, d[i].0) == Some(d[i].1)
  {
    if i > 0 {
      GetAt(d[1..], i - 1);
    }
  }
}
