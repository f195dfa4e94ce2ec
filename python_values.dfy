/** The Python values the three services pass around: what `json.loads`
    produces, plus the few built-in operations the services apply to them
    (`bool()`, `str()`, `repr()`, `x[i]`, iteration, `len`, `dict.get`,
    `==` against an integer, and `d[k] = v`). Exceptions are modelled by
    their class only; the text `str(e)` carries is not part of the model. */
module PyValues {
  import opened Wrappers
  import opened Text

  /** The exception classes the modelled code can raise. `RequestError`
      stands for whatever `requests.get` raises on a network failure. */
  datatype Exc = TypeError | IndexError | KeyError | AttributeError | ValueError | RequestError

  /** The outcome of a Python expression: a value, or a raised exception. */
  datatype Py<+T> = Ok(value: T) | Raise(exc: Exc) {
    predicate IsFailure() { Raise? }
    function PropagateFailure<U>(): Py<U> requires Raise? { Raise(exc) }
    function Extract(): T requires Ok? { value }
  }

  /** The text `repr(x)` of a float; never empty and never starting with whitespace. */
  type FloatText = s: string | |s| > 0 && !IsSpace(s[0]) witness "0.0"

  /** A JSON-shaped Python value. A float carries its value and its printed
      form. A dict is its list of items in insertion order; the dicts Python
      builds have distinct keys, and lookups take the first matching item. */
  datatype Value =
    | PyNone
    | PyBool(b: bool)
    | PyInt(i: int)
    | PyFloat(x: real, text: FloatText)
    | PyStr(s: string)
    | PyList(items: seq<Value>)
    | PyDict(entries: seq<(string, Value)>)

  type Dict = seq<(string, Value)>

  // ---------------------------------------------------------------------
  // Dictionaries

  function Keys(d: Dict): (r: seq<string>)
    ensures |r| == |d| && forall k :: 0 <= k < |d| ==> r[k] == d[k].0
  {
    seq(|d|, k requires 0 <= k < |d| => d[k].0)
  }

  predicate HasKey(d: Dict, key: string) {
    exists k :: 0 <= k < |d| && d[k].0 == key
  }

  predicate DistinctKeys(d: Dict) {
    forall j, k :: 0 <= j < k < |d| ==> d[j].0 != d[k].0
  }

  /** `d.get(key)`: the value of the first item with that key. */
  function Lookup(d: Dict, key: string): (r: Option<Value>)
    ensures r.None? <==> !HasKey(d, key)
    ensures r.Some? ==> exists k :: 0 <= k < |d| && d[k] == (key, r.value)
  {
    if |d| == 0 then None
    else if d[0].0 == key then Some(d[0].1)
    else
      var r := Lookup(d[1..], key);
      assert r.Some? ==> exists k :: 0 <= k < |d[1..]| && d[1..][k] == (key, r.value);
      assert HasKey(d[1..], key) ==> HasKey(d, key);
      assert HasKey(d, key) && d[0].0 != key ==> HasKey(d[1..], key);
      r
  }

  /** `d.get(key, default)`. */
  function GetOr(d: Dict, key: string, default: Value): Value {
    match Lookup(d, key)
    case Some(v) => v
    case None => default
  }

  /** `d[key] = v`: replaces the value of an existing key in place, or
      appends a new item at the end. */
  function Put(d: Dict, key: string, v: Value): (r: Dict)
  {
    if |d| == 0 then [(key, v)]
    else if d[0].0 == key then [(key, v)] + d[1..]
    else [d[0]] + Put(d[1..], key, v)
  }

  /** After `d[key] = v`, `key` maps to `v` and every other key to what it did before. */
  lemma {:induction false} PutLookup(d: Dict, key: string, v: Value, other: string)
    ensures Lookup(Put(d, key, v), key) == Some(v)
    ensures other != key ==> Lookup(Put(d, key, v), other) == Lookup(d, other)
  {
    if |d| > 0 && d[0].0 != key {
      PutLookup(d[1..], key, v, other);
      assert Put(d, key, v)[1..] == Put(d[1..], key, v);
    } else if |d| > 0 {
      assert Put(d, key, v)[1..] == d[1..];
    }
  }

  /** `d[key] = v` keeps the existing keys in their order and appends a new key at the end. */
  lemma PutKeys(d: Dict, key: string, v: Value)
    ensures Keys(Put(d, key, v)) == if HasKey(d, key) then Keys(d) else Keys(d) + [key]
  {
    PutFirsts(d, key, v);
    var a := Keys(Put(d, key, v));
    var b := if HasKey(d, key) then Keys(d) else Keys(d) + [key];
    assert |a| == |b|;
    forall k | 0 <= k < |a| ensures a[k] == b[k] {
      if k < |d| {
        assert b[k] == d[k].0;
      }
    }
  }

  /** `d[key] = v` keeps the length and every key in place when `key` is
      present, and appends it otherwise. */
  lemma {:induction false} PutFirsts(d: Dict, key: string, v: Value)
    ensures |Put(d, key, v)| == if HasKey(d, key) then |d| else |d| + 1
    ensures forall k :: 0 <= k < |d| ==> Put(d, key, v)[k].0 == d[k].0
    ensures !HasKey(d, key) ==> Put(d, key, v)[|d|].0 == key
  {
    if |d| > 0 && d[0].0 != key {
      var rest := Put(d[1..], key, v);
      PutFirsts(d[1..], key, v);
      assert HasKey(d[1..], key) <==> HasKey(d, key) by {
        if HasKey(d, key) {
          var k :| 0 <= k < |d| && d[k].0 == key;
          assert d[1..][k - 1].0 == key;
        }
      }
      assert Put(d, key, v) == [d[0]] + rest;
      forall k | 1 <= k < |d| ensures Put(d, key, v)[k].0 == d[k].0 {
        assert Put(d, key, v)[k] == rest[k - 1] && d[k] == d[1..][k - 1];
      }
    } else if |d| > 0 {
      assert HasKey(d, key) by { assert d[0].0 == key; }
    }
  }

  /** A dict built by assignments keeps its keys distinct. */
  lemma {:induction false} PutDistinct(d: Dict, key: string, v: Value)
    requires DistinctKeys(d)
    ensures DistinctKeys(Put(d, key, v))
  {
    PutKeys(d, key, v);
    var r := Put(d, key, v);
    assert Keys(d) == Keys(r)[..|d|];
    forall j, k | 0 <= j < k < |r| ensures r[j].0 != r[k].0 {
      if k < |d| {
        assert r[j].0 == Keys(r)[j] == Keys(d)[j] && r[k].0 == Keys(d)[k];
      } else {
        assert r[k].0 == key && r[j].0 == d[j].0;
      }
    }
  }

  /** Every item after `d[key] = v` is the new one or an item of `d`. */
  lemma {:induction false} PutValues(d: Dict, key: string, v: Value)
    ensures forall k :: 0 <= k < |Put(d, key, v)| ==> Put(d, key, v)[k] == (key, v) || Put(d, key, v)[k] in d
  {
    if |d| > 0 && d[0].0 != key {
      PutValues(d[1..], key, v);
      var r := Put(d, key, v);
      forall k | 0 <= k < |r| ensures r[k] == (key, v) || r[k] in d {
        if k > 0 {
          assert r[k] == Put(d[1..], key, v)[k - 1];
        }
      }
    } else if |d| > 0 {
      var r := Put(d, key, v);
      forall k | 0 <= k < |r| ensures r[k] == (key, v) || r[k] in d {
        if k > 0 {
          assert r[k] == d[k];
        }
      }
    }
  }

  // ---------------------------------------------------------------------
  // A loop that appends what each element yields and stops at the first exception

  /** `out = []; for x in xs: out += f(x)`, where the first `f(x)` that
      raises ends the loop with that exception. */
  function CollectAll<A, B>(xs: seq<A>, f: A -> Py<seq<B>>): Py<seq<B>>
    decreases |xs|
  {
    if xs == [] then Ok([])
    else
      var init :- CollectAll(xs[..|xs| - 1], f);
      var last :- f(xs[|xs| - 1]);
      Ok(init + last)
  }

  /** One more turn of the loop. */
  lemma CollectStep<A, B>(xs: seq<A>, f: A -> Py<seq<B>>, i: nat)
    requires i < |xs|
    ensures CollectAll(xs[..i + 1], f) ==
      match CollectAll(xs[..i], f)
      case Raise(e) => Raise(e)
      case Ok(init) =>
        match f(xs[i])
        case Raise(e) => Raise(e)
        case Ok(last) => Ok(init + last)
  {
    assert xs[..i + 1][..i] == xs[..i];
  }

  /** Once the loop has raised, the rest of the elements are never looked at. */
  lemma {:induction false} CollectRaised<A, B>(xs: seq<A>, f: A -> Py<seq<B>>, i: nat)
    requires i <= |xs| && CollectAll(xs[..i], f).Raise?
    ensures CollectAll(xs, f) == CollectAll(xs[..i], f)
    decreases |xs| - i
  {
    if i < |xs| {
      CollectStep(xs, f, i);
      CollectRaised(xs, f, i + 1);
    } else {
      assert xs[..i] == xs;
    }
  }

  /** Every element of a completed loop's output comes from one element's yield. */
  lemma {:induction false} CollectFrom<A, B>(xs: seq<A>, f: A -> Py<seq<B>>, k: nat)
    requires CollectAll(xs, f).Ok? && k < |CollectAll(xs, f).value|
    ensures exists i, j ::
      (0 <= i < |xs| && f(xs[i]).Ok? && 0 <= j < |f(xs[i]).value|
       && f(xs[i]).value[j] == CollectAll(xs, f).value[k])
    decreases |xs|
  {
    var init := CollectAll(xs[..|xs| - 1], f).value;
    if k < |init| {
      CollectFrom(xs[..|xs| - 1], f, k);
      var i, j :| 0 <= i < |xs| - 1 && f(xs[..|xs| - 1][i]).Ok? && 0 <= j < |f(xs[..|xs| - 1][i]).value|
        && f(xs[..|xs| - 1][i]).value[j] == init[k];
      assert xs[..|xs| - 1][i] == xs[i];
    } else {
      var i := |xs| - 1;
      assert f(xs[i]).value[k - |init|] == CollectAll(xs, f).value[k];
    }
  }

  /** A loop completes exactly when no turn raises. */
  lemma {:induction false} CollectOk<A, B>(xs: seq<A>, f: A -> Py<seq<B>>)
    ensures CollectAll(xs, f).Ok? <==> forall i :: 0 <= i < |xs| ==> f(xs[i]).Ok?
    decreases |xs|
  {
    if xs != [] {
      var n := |xs| - 1;
      CollectOk(xs[..n], f);
      assert forall i :: 0 <= i < n ==> xs[..n][i] == xs[i];
    }
  }

  /** The concatenation of a sequence of sequences, left to right. */
  function Concat<B>(yss: seq<seq<B>>): (r: seq<B>)
    decreases |yss|
  {
    if yss == [] then [] else Concat(yss[..|yss| - 1]) + yss[|yss| - 1]
  }

  /** A loop whose every turn yields `yss[i]` yields their concatenation. */
  lemma {:induction false} CollectConcat<A, B>(xs: seq<A>, f: A -> Py<seq<B>>, yss: seq<seq<B>>)
    requires |yss| == |xs| && forall i :: 0 <= i < |xs| ==> f(xs[i]) == Ok(yss[i])
    ensures CollectAll(xs, f) == Ok(Concat(yss))
    decreases |xs|
  {
    if xs != [] {
      var n := |xs| - 1;
      assert forall i :: 0 <= i < n ==> xs[..n][i] == xs[i];
      CollectConcat(xs[..n], f, yss[..n]);
    }
  }

  /** A loop whose every turn yields the one element `ys[i]` yields `ys`. */
  lemma {:induction false} CollectMap<A, B>(xs: seq<A>, f: A -> Py<seq<B>>, ys: seq<B>)
    requires |ys| == |xs| && forall i :: 0 <= i < |xs| ==> f(xs[i]) == Ok([ys[i]])
    ensures CollectAll(xs, f) == Ok(ys)
    decreases |xs|
  {
    if xs != [] {
      var n := |xs| - 1;
      assert forall i :: 0 <= i < n ==> xs[..n][i] == xs[i];
      CollectMap(xs[..n], f, ys[..n]);
      assert ys[..n] + [ys[n]] == ys;
    }
  }

  /** When every turn that succeeds yields exactly one element, a completed
      loop yields one element per input, in order. */
  lemma {:induction false} CollectSingles<A, B>(xs: seq<A>, f: A -> Py<seq<B>>)
    requires CollectAll(xs, f).Ok?
    requires forall x :: f(x).Ok? ==> |f(x).value| == 1
    ensures |CollectAll(xs, f).value| == |xs|
    ensures forall j :: 0 <= j < |xs| ==>
      f(xs[j]).Ok? && CollectAll(xs, f).value[j] == f(xs[j]).value[0]
    decreases |xs|
  {
    if xs != [] {
      var n := |xs| - 1;
      CollectSingles(xs[..n], f);
      assert forall i :: 0 <= i < n ==> xs[..n][i] == xs[i];
    }
  }

  // ---------------------------------------------------------------------
  // Truth value and text

  /** `bool(v)`. */
  predicate Truthy(v: Value) {
    match v
    case PyNone => false
    case PyBool(b) => b
    case PyInt(i) => i != 0
    case PyFloat(x, _) => x != 0.0
    case PyStr(s) => s != ""
    case PyList(items) => items != []
    case PyDict(entries) => entries != []
  }

  /** The escaped form of one character inside a quoted `repr`, for quote `q`. */
  function EscapeChar(c: char, q: char): string {
    if c == '\\' then "\\\\"
    else if c == q then ['\\', q]
    else if c == '\n' then "\\n"
    else if c == '\r' then "\\r"
    else if c == '\t' then "\\t"
    else if (c as int) < 32 || c as int == 127 then
      ['\\', 'x', "0123456789abcdef"[(c as int) / 16], "0123456789abcdef"[(c as int) % 16]]
    else [c]
  }

  function EscapeAll(s: string, q: char): string {
    if s == [] then "" else EscapeChar(s[0], q) + EscapeAll(s[1..], q)
  }

  /** `repr(s)` of a string: single quotes unless the text has a single
      quote and no double quote. */
  function QuoteStr(s: string): (r: string)
    ensures |r| >= 2 && (r[0] == '\'' || r[0] == '"')
  {
    var q := if '\'' in s && '"' !in s then '"' else '\'';
    [q] + EscapeAll(s, q) + [q]
  }

  /** `repr(v)`. */
  function Repr(v: Value): (r: string)
    ensures |r| > 0 && !IsSpace(r[0])
    decreases v, 1
  {
    match v
    case PyStr(s) => QuoteStr(s)
    case _ => Str(v)
  }

  /** `str(v)`: a string is itself; containers show the `repr` of their parts. */
  function Str(v: Value): (r: string)
    ensures v.PyStr? ==> r == v.s
    ensures !v.PyStr? ==> |r| > 0 && !IsSpace(r[0])
    decreases v, 0
  {
    match v
    case PyNone => "None"
    case PyBool(b) => if b then "True" else "False"
    case PyInt(i) => IntToStr(i)
    case PyFloat(_, t) => t
    case PyStr(s) => s
    case PyList(items) =>
      "[" + Join(", ", seq(|items|, k requires 0 <= k < |items| => Repr(items[k]))) + "]"
    case PyDict(entries) =>
      "{" + Join(", ", seq(|entries|, k requires 0 <= k < |entries| =>
        QuoteStr(entries[k].0) + ": " + Repr(entries[k].1))) + "}"
  }

  /** `str(v).strip()` is non-empty: the test `v and str(v).strip()` passes
      for every truthy value except a string made only of whitespace. */
  predicate NonBlank(v: Value) {
    Strip(Str(v), None) != ""
  }

  lemma StripKeeps(s: string, j: nat)
    requires j < |s| && !IsSpace(s[j])
    ensures Strip(s, None) != ""
  {
    StripSlice(s, None);
  }

  /** Every value other than a string has a non-blank `str()`; a string
      does exactly when it has a non-whitespace character. */
  lemma NonBlankIff(v: Value)
    ensures NonBlank(v) <==> !v.PyStr? || exists j :: 0 <= j < |v.s| && !IsSpace(v.s[j])
  {
    var s := Str(v);
    if !v.PyStr? {
      StripKeeps(s, 0);
    } else if j :| 0 <= j < |v.s| && !IsSpace(v.s[j]) {
      StripKeeps(s, j);
    } else {
      StripSlice(s, None);
    }
  }

  // ---------------------------------------------------------------------
  // Subscripts, iteration, len, attribute calls

  /** `v[i]` for a non-negative integer literal `i`. Strings index to
      one-character strings; a dict (string keys only) raises KeyError;
      scalars are not subscriptable. */
  function Index(v: Value, i: nat): (r: Py<Value>)
    ensures r.Ok? <==> (v.PyList? && i < |v.items|) || (v.PyStr? && i < |v.s|)
    ensures r.Raise? ==> r.exc == (if v.PyList? || v.PyStr? then IndexError
                                   else if v.PyDict? then KeyError else TypeError)
  {
    match v
    case PyList(items) => if i < |items| then Ok(items[i]) else Raise(IndexError)
    case PyStr(s) => if i < |s| then Ok(PyStr([s[i]])) else Raise(IndexError)
    case PyDict(_) => Raise(KeyError)
    case _ => Raise(TypeError)
  }

  /** What `for x in v` visits: items of a list, one-character strings of a
      string, keys of a dict; anything else raises TypeError. */
  function Iterate(v: Value): (r: Py<seq<Value>>)
    ensures r.Raise? <==> !(v.PyList? || v.PyStr? || v.PyDict?)
    ensures r.Raise? ==> r.exc == TypeError
    ensures v.PyList? ==> r == Ok(v.items)
    ensures v.PyDict? ==>
      (r.Ok? && |r.value| == |v.entries|
       && forall k :: 0 <= k < |v.entries| ==> r.value[k] == PyStr(v.entries[k].0))
    ensures v.PyStr? ==>
      (r.Ok? && |r.value| == |v.s|
       && forall k :: 0 <= k < |v.s| ==> r.value[k] == PyStr([v.s[k]]))
  {
    match v
    case PyList(items) => Ok(items)
    case PyStr(s) => Ok(seq(|s|, k requires 0 <= k < |s| => PyStr([s[k]])))
    case PyDict(entries) => Ok(seq(|entries|, k requires 0 <= k < |entries| => PyStr(entries[k].0)))
    case _ => Raise(TypeError)
  }

  /** `len(v)`. */
  function Len(v: Value): (r: Py<nat>)
    ensures r.Raise? <==> !(v.PyList? || v.PyStr? || v.PyDict?)
    ensures r.Ok? ==> Iterate(v).Ok? && r.value == |Iterate(v).value|
  {
    match v
    case PyList(items) => Ok(|items|)
    case PyStr(s) => Ok(|s|)
    case PyDict(entries) => Ok(|entries|)
    case _ => Raise(TypeError)
  }

  /** `v.get(key, default)`: only a dict has the method. */
  function ValueGet(v: Value, key: string, default: Value): (r: Py<Value>)
    ensures r.Raise? <==> !v.PyDict?
    ensures r.Raise? ==> r.exc == AttributeError
    ensures v.PyDict? && !HasKey(v.entries, key) ==> r == Ok(default)
  {
    if v.PyDict? then Ok(GetOr(v.entries, key, default)) else Raise(AttributeError)
  }

  /** `v.lower()`: only a string has the method. */
  function ValueLower(v: Value): (r: Py<string>)
    ensures r.Raise? <==> !v.PyStr?
    ensures r.Raise? ==> r.exc == AttributeError
    ensures r.Ok? ==> |r.value| == |v.s|
  {
    if v.PyStr? then Ok(Lower(v.s)) else Raise(AttributeError)
  }

  /** The number a bool, int or float compares as. */
  function AsNumber(v: Value): (r: Option<real>)
    ensures r.Some? <==> v.PyBool? || v.PyInt? || v.PyFloat?
  {
    match v
    case PyBool(b) => Some(if b then 1.0 else 0.0)
    case PyInt(i) => Some(i as real)
    case PyFloat(x, _) => Some(x)
    case _ => None
  }

  /** `v == n` for an integer `n`: numbers compare by value (`True == 1`,
      `8.0 == 8`); every other value is unequal, without raising. */
  predicate EqInt(v: Value, n: int) {
    AsNumber(v) == Some(n as real)
  }
}
