/** The few Python string operations the three services rely on, over
    `string` (a sequence of Unicode scalar values): `in` / `find`,
    `split(sep)`, `sep.join`, `replace`, `strip`, `lower`, `split()` with
    whitespace runs, `endswith`, slicing and `str` of an integer. */
module Wrappers {
  datatype Option<+T> = None | Some(value: T)
}

module Text {
  import opened Wrappers

  // ---------------------------------------------------------------------
  // Characters

  /** Python's `str.isspace` for one character (also what `\s` matches). */
  predicate IsSpace(c: char) {
    var n := c as int;
    n == 32 || 9 <= n <= 13 || 28 <= n <= 31 || n == 0x85 || n == 0xA0 || n == 0x1680
    || 0x2000 <= n <= 0x200A || n == 0x2028 || n == 0x2029 || n == 0x202F || n == 0x205F
    || n == 0x3000
  }

  /** `str.lower` restricted to ASCII letters. */
  function LowerChar(c: char): char {
    if 'A' <= c <= 'Z' then (c as int + 32) as char else c
  }

  function Lower(s: string): (r: string)
    ensures |r| == |s| && forall i :: 0 <= i < |s| ==> r[i] == LowerChar(s[i])
  {
    seq(|s|, i requires 0 <= i < |s| => LowerChar(s[i]))
  }

  // ---------------------------------------------------------------------
  // Occurrences of a substring

  /** `sub` occurs in `s` starting at index `i`. */
  predicate OccursAt(s: string, sub: string, i: int) {
    0 <= i && i + |sub| <= |s| && s[i..i + |sub|] == sub
  }

  /** `s.find(sub, start)`: the first index at or after `start` where `sub` occurs, or -1. */
  function FindFrom(s: string, sub: string, start: nat): (r: int)
    requires start <= |s|
    ensures r == -1 || (start <= r && OccursAt(s, sub, r))
    ensures forall j :: start <= j && (r == -1 || j < r) ==> !OccursAt(s, sub, j)
    decreases |s| - start
  {
    if start + |sub| > |s| then -1
    else if s[start..start + |sub|] == sub then start
    else FindFrom(s, sub, start + 1)
  }

  /** `s.find(sub)`. */
  function Find(s: string, sub: string): (r: int)
    ensures r == -1 || OccursAt(s, sub, r)
    ensures forall j :: 0 <= j && (r == -1 || j < r) ==> !OccursAt(s, sub, j)
  {
    FindFrom(s, sub, 0)
  }

  /** Python's `sub in s`. */
  predicate Contains(s: string, sub: string) {
    Find(s, sub) >= 0
  }

  lemma OccursThenContains(s: string, sub: string, i: int)
    requires OccursAt(s, sub, i)
    ensures Contains(s, sub) && Find(s, sub) <= i
  {
  }

  /** `sub` does not occur in `s` when one of its characters does not. */
  lemma MissingChar(s: string, sub: string, m: nat)
    requires m < |sub| && sub[m] !in s
    ensures !Contains(s, sub)
  {
    forall i | 0 <= i && i + |sub| <= |s| ensures !OccursAt(s, sub, i) {
    }
  }

  /** Nor when it is longer than `s`. */
  lemma TooLong(s: string, sub: string)
    requires |sub| > |s|
    ensures !Contains(s, sub)
  {
  }

  /** An occurrence inside a slice is an occurrence in the whole string. */
  lemma OccursInSlice(s: string, sub: string, a: int, b: int, i: int)
    requires 0 <= a <= b <= |s| && OccursAt(s[a..b], sub, i)
    ensures OccursAt(s, sub, a + i)
  {
    var t := s[a..b];
    var u, v := t[i..i + |sub|], s[a + i..a + i + |sub|];
    forall k | 0 <= k < |sub| ensures u[k] == v[k] {
      assert u[k] == t[i + k];
    }
    assert u == v;
  }

  /** A slice of a string that does not contain `sub` does not contain it either. */
  lemma SliceFree(s: string, sub: string, a: int, b: int)
    requires 0 <= a <= b <= |s| && !Contains(s, sub)
    ensures !Contains(s[a..b], sub)
  {
    if Contains(s[a..b], sub) {
      OccursInSlice(s, sub, a, b, Find(s[a..b], sub));
    }
  }

  /** Where a text occurs, every prefix of it occurs too, no later. */
  lemma ContainsPrefix(t: string, long: string, short: string)
    requires Contains(t, long) && |short| <= |long| && long[..|short|] == short
    ensures Contains(t, short) && Find(t, short) <= Find(t, long)
  {
    var i := Find(t, long);
    assert t[i..i + |short|] == t[i..i + |long|][..|short|];
    OccursThenContains(t, short, i);
  }

  /** `s.startswith(p)` and `s.endswith(p)`. */
  predicate StartsWith(s: string, p: string) {
    |p| <= |s| && s[..|p|] == p
  }

  predicate EndsWith(s: string, p: string) {
    |p| <= |s| && s[|s| - |p|..] == p
  }

  // ---------------------------------------------------------------------
  // split(sep), join, replace

  /** `s.split(sep)[0]`: the text before the first `sep`, or all of `s`. */
  function Before(s: string, sep: string): (r: string)
    ensures StartsWith(s, r)
  {
    var i := Find(s, sep);
    if i < 0 then s else s[..i]
  }

  /** The text after the first occurrence of `sep`. */
  function After(s: string, sep: string): string
    requires Contains(s, sep)
  {
    s[Find(s, sep) + |sep|..]
  }

  lemma BeforeFree(s: string, sep: string)
    requires sep != ""
    ensures !Contains(Before(s, sep), sep)
  {
    var i := Find(s, sep);
    if i >= 0 && Contains(s[..i], sep) {
      OccursInSlice(s, sep, 0, i, Find(s[..i], sep));
    }
  }

  /** `s.split(sep)` for a non-empty separator (Python raises ValueError on an empty one). */
  function Split(s: string, sep: string): (r: seq<string>)
    requires sep != ""
    ensures |r| >= 1
    decreases |s|
  {
    var i := Find(s, sep);
    if i < 0 then [s] else [s[..i]] + Split(s[i + |sep|..], sep)
  }

  /** `sep.join(parts)`. */
  function Join(sep: string, parts: seq<string>): string {
    if |parts| == 0 then ""
    else if |parts| == 1 then parts[0]
    else parts[0] + sep + Join(sep, parts[1..])
  }

  /** What `split(sep)[0]` and `split(sep)[1]` denote, and when `[1]` exists. */
  lemma SplitPieces(s: string, sep: string)
    requires sep != ""
    ensures Split(s, sep)[0] == Before(s, sep)
    ensures |Split(s, sep)| > 1 <==> Contains(s, sep)
    ensures Contains(s, sep) ==> Split(s, sep)[1] == Before(After(s, sep), sep)
  {
    if Contains(s, sep) {
      var rest := s[Find(s, sep) + |sep|..];
      assert Split(s, sep) == [s[..Find(s, sep)]] + Split(rest, sep);
      assert Split(rest, sep)[0] == Before(rest, sep);
    }
  }

  /** Joining the pieces of a split with the same separator gives back the text. */
  lemma {:induction false} SplitJoin(s: string, sep: string)
    requires sep != ""
    ensures Join(sep, Split(s, sep)) == s
    decreases |s|
  {
    var i := Find(s, sep);
    if i >= 0 {
      var rest := s[i + |sep|..];
      var p := Split(rest, sep);
      SplitJoin(rest, sep);
      assert Split(s, sep) == [s[..i]] + p;
      assert ([s[..i]] + p)[1..] == p;
      assert Join(sep, [s[..i]] + p) == s[..i] + sep + Join(sep, p);
      assert s == s[..i] + sep + rest;
    }
  }

  /** The first separator after a part without the separator's first
      character is the one right after it. */
  lemma FirstSepAfter(p: string, sep: string, rest: string)
    requires sep != "" && sep[0] !in p
    ensures Find(p + sep + rest, sep) == |p|
  {
    var s := p + sep + rest;
    assert OccursAt(s, sep, |p|) by { assert s[|p|..|p| + |sep|] == sep; }
    forall j | 0 <= j < |p| ensures !OccursAt(s, sep, j) {
      assert s[j] == p[j] && p[j] in p;
    }
  }

  /** Splitting a join gives the parts back when no part holds the
      separator's first character. */
  lemma {:induction false} JoinSplit(sep: string, parts: seq<string>)
    requires sep != "" && |parts| > 0
    requires forall k :: 0 <= k < |parts| ==> sep[0] !in parts[k]
    ensures Split(Join(sep, parts), sep) == parts
    decreases |parts|
  {
    if |parts| > 1 {
      var p, tail := parts[0], parts[1..];
      var rest := Join(sep, tail);
      var s := p + sep + rest;
      assert Join(sep, parts) == s;
      FirstSepAfter(p, sep, rest);
      assert s[..|p|] == p && s[|p| + |sep|..] == rest;
      assert forall k :: 0 <= k < |tail| ==> tail[k] == parts[k + 1];
      JoinSplit(sep, tail);
      assert Split(s, sep) == [p] + Split(rest, sep);
      assert [p] + tail == parts;
    } else {
      MissingChar(parts[0], sep, 0);
    }
  }

  /** Cutting at `sep1` and then at `sep2`, where `sep1` begins with `sep2`,
      is cutting at `sep2` alone, unless the first `sep2` straddles the first `sep1`. */
  lemma BeforeBefore(t: string, sep1: string, sep2: string)
    requires sep2 != "" && StartsWith(sep1, sep2)
    requires Contains(t, sep1) ==>
      Find(t, sep2) + |sep2| <= Find(t, sep1) || Find(t, sep2) == Find(t, sep1)
    ensures Before(Before(t, sep1), sep2) == Before(t, sep2)
  {
    var i1 := Find(t, sep1);
    if i1 >= 0 {
      assert t[i1..i1 + |sep2|] == t[i1..i1 + |sep1|][..|sep2|];
      OccursThenContains(t, sep2, i1);
      var i2 := Find(t, sep2);
      var u := t[..i1];
      assert Before(t, sep1) == u;
      assert Before(t, sep2) == t[..i2];
      if i2 == i1 {
        if Contains(u, sep2) {
          OccursInSlice(t, sep2, 0, i1, Find(u, sep2));
        }
        assert Before(u, sep2) == u;
      } else {
        assert u[i2..i2 + |sep2|] == t[i2..i2 + |sep2|];
        OccursThenContains(u, sep2, i2);
        var j := Find(u, sep2);
        OccursInSlice(t, sep2, 0, i1, j);
        assert j == i2;
        assert Before(u, sep2) == u[..i2] == t[..i2];
      }
    }
  }

  /** A separator of one character never straddles, so cutting twice is cutting once. */
  lemma BeforeBeforeChar(t: string, sep1: string, c: char)
    requires StartsWith(sep1, [c])
    ensures Before(Before(t, sep1), [c]) == Before(t, [c])
  {
    if Contains(t, sep1) {
      var i1 := Find(t, sep1);
      assert t[i1..i1 + 1] == t[i1..i1 + |sep1|][..1];
      OccursThenContains(t, [c], i1);
    }
    BeforeBefore(t, sep1, [c]);
  }

  /** `s.replace(pat, with)` for a non-empty `pat`: every non-overlapping
      occurrence, left to right. */
  function Replace(s: string, pat: string, with: string): string
    requires pat != ""
    decreases |s|
  {
    var i := Find(s, pat);
    if i < 0 then s else s[..i] + with + Replace(s[i + |pat|..], pat, with)
  }

  /** `s[:n]`. */
  function Take(s: string, n: nat): (r: string)
    ensures |r| <= n && StartsWith(s, r)
    ensures |s| <= n ==> r == s
  {
    if |s| <= n then s else s[..n]
  }

  /** `sub` occurs across the seam: a proper prefix of it ends `x` and the rest of it starts `y`. */
  predicate Straddles(x: string, y: string, sub: string) {
    exists k :: 0 < k < |sub| && EndsWith(x, sub[..k]) && StartsWith(y, sub[k..])
  }

  /** An occurrence in `x + y` lies in `x`, in `y`, or across the seam. */
  lemma OccursInConcat(x: string, y: string, sub: string, i: int)
    requires OccursAt(x + y, sub, i)
    ensures OccursAt(x, sub, i) || OccursAt(y, sub, i - |x|)
      || (0 < |x| - i < |sub| && EndsWith(x, sub[..|x| - i]) && StartsWith(y, sub[|x| - i..]))
  {
    var s := x + y;
    if i + |sub| <= |x| {
      assert s[i..i + |sub|] == x[i..i + |sub|];
    } else if i >= |x| {
      assert s[i..i + |sub|] == y[i - |x|..i - |x| + |sub|];
    } else {
      var k := |x| - i;
      forall j | 0 <= j < k ensures x[|x| - k..][j] == sub[..k][j] {
        assert x[|x| - k..][j] == s[i + j];
      }
      forall j | 0 <= j < |sub| - k ensures y[..|sub| - k][j] == sub[k..][j] {
        assert y[j] == s[|x| + j];
      }
    }
  }

  /** Concatenating two texts free of `sub` creates none unless it straddles the seam. */
  lemma ConcatFree(x: string, y: string, sub: string)
    requires !Contains(x, sub) && !Contains(y, sub) && !Straddles(x, y, sub)
    ensures !Contains(x + y, sub)
  {
    if Contains(x + y, sub) {
      OccursInConcat(x, y, sub, Find(x + y, sub));
    }
  }

  // ---------------------------------------------------------------------
  // Keyword ladders: `any(word in text for word in words)` tried row by row

  predicate AnyIn(text: string, words: seq<string>) {
    exists k :: 0 <= k < |words| && Contains(text, words[k])
  }

  /** The first row, from `from` on, one of whose words occurs in `text`. */
  function FirstHitFrom(text: string, rows: seq<seq<string>>, from: nat): (r: Option<nat>)
    requires from <= |rows|
    ensures r.None? ==> forall k :: from <= k < |rows| ==> !AnyIn(text, rows[k])
    ensures r.Some? ==>
      (from <= r.value < |rows| && AnyIn(text, rows[r.value])
       && forall k :: from <= k < r.value ==> !AnyIn(text, rows[k]))
    decreases |rows| - from
  {
    if from == |rows| then None
    else if AnyIn(text, rows[from]) then Some(from)
    else FirstHitFrom(text, rows, from + 1)
  }

  /** The index of the first row that matches, as an `if … elif …` chain tries them. */
  function FirstHit(text: string, rows: seq<seq<string>>): (r: Option<nat>)
    ensures r.None? <==> forall k :: 0 <= k < |rows| ==> !AnyIn(text, rows[k])
    ensures r.Some? ==>
      (r.value < |rows| && AnyIn(text, rows[r.value])
       && forall k :: 0 <= k < r.value ==> !AnyIn(text, rows[k]))
  {
    FirstHitFrom(text, rows, 0)
  }

  /** No word of `row` occurs in `s` when each word has a character, at
      position `ms[k]`, that `s` lacks. */
  lemma RowMissing(s: string, row: seq<string>, ms: seq<nat>)
    requires |ms| == |row|
    requires forall k :: 0 <= k < |row| ==> ms[k] < |row[k]| && row[k][ms[k]] !in s
    ensures !AnyIn(s, row)
  {
    forall k | 0 <= k < |row| ensures !Contains(s, row[k]) {
      MissingChar(s, row[k], ms[k]);
    }
  }

  /** The row that occurs with no earlier row occurring is the first hit. */
  lemma FirstHitIs(text: string, rows: seq<seq<string>>, k: nat)
    requires k < |rows| && AnyIn(text, rows[k])
    requires forall j :: 0 <= j < k ==> !AnyIn(text, rows[j])
    ensures FirstHit(text, rows) == Some(k)
  {
  }

  // ---------------------------------------------------------------------
  // strip

  /** What `strip(chars)` removes: whitespace when `chars` is None, else the
      characters of `chars`. */
  predicate Strippable(c: char, chars: Option<string>) {
    match chars
    case None => IsSpace(c)
    case Some(cs) => c in cs
  }

  function LeadCount(s: string, chars: Option<string>): (n: nat)
    ensures n <= |s|
    ensures forall i :: 0 <= i < n ==> Strippable(s[i], chars)
    ensures n < |s| ==> !Strippable(s[n], chars)
  {
    if |s| > 0 && Strippable(s[0], chars) then 1 + LeadCount(s[1..], chars) else 0
  }

  function TrailCount(s: string, chars: Option<string>): (n: nat)
    ensures n <= |s|
    ensures forall i :: |s| - n <= i < |s| ==> Strippable(s[i], chars)
    ensures n < |s| ==> !Strippable(s[|s| - n - 1], chars)
  {
    if |s| > 0 && Strippable(s[|s| - 1], chars) then 1 + TrailCount(s[..|s| - 1], chars) else 0
  }

  /** `s.strip()` (chars None) or `s.strip(chars)`. */
  function Strip(s: string, chars: Option<string>): (r: string)
    ensures |r| > 0 ==> !Strippable(r[0], chars) && !Strippable(r[|r| - 1], chars)
  {
    var t := s[LeadCount(s, chars)..];
    t[..|t| - TrailCount(t, chars)]
  }

  /** The stripped text is a slice of the original, with only strippable characters cut. */
  lemma StripSlice(s: string, chars: Option<string>)
    ensures exists a, b ::
      (0 <= a <= b <= |s| && Strip(s, chars) == s[a..b]
       && (forall i :: 0 <= i < a ==> Strippable(s[i], chars))
       && (forall i :: b <= i < |s| ==> Strippable(s[i], chars)))
  {
    var a := LeadCount(s, chars);
    var t := s[a..];
    var b := a + |t| - TrailCount(t, chars);
    assert Strip(s, chars) == s[a..b];
    forall i | b <= i < |s| ensures Strippable(s[i], chars) {
      assert s[i] == t[i - a];
    }
  }

  /** Stripping text that neither starts nor ends with a strippable character changes nothing. */
  lemma StripNoop(s: string, chars: Option<string>)
    requires |s| > 0 ==> !Strippable(s[0], chars) && !Strippable(s[|s| - 1], chars)
    ensures Strip(s, chars) == s
  {
  }

  /** Cutting pieces out of a text creates no new occurrence of anything. */
  lemma StripFree(s: string, chars: Option<string>, sub: string)
    requires !Contains(s, sub)
    ensures !Contains(Strip(s, chars), sub)
  {
    StripSlice(s, chars);
    var a, b :| 0 <= a <= b <= |s| && Strip(s, chars) == s[a..b];
    SliceFree(s, sub, a, b);
  }

  lemma AfterFree(s: string, sep: string, sub: string)
    requires Contains(s, sep) && !Contains(s, sub)
    ensures !Contains(After(s, sep), sub)
  {
    assert After(s, sep) == s[Find(s, sep) + |sep|..|s|];
    SliceFree(s, sub, Find(s, sep) + |sep|, |s|);
  }

  lemma BeforeFreeOf(s: string, sep: string, sub: string)
    requires !Contains(s, sub)
    ensures !Contains(Before(s, sep), sub)
  {
    assert Before(s, sep) == s[0..|Before(s, sep)|];
    SliceFree(s, sub, 0, |Before(s, sep)|);
  }

  /** A text free of a one-character text is free of that character. */
  lemma CharFree(s: string, c: char)
    requires !Contains(s, [c])
    ensures c !in s
  {
    if c in s {
      var j :| 0 <= j < |s| && s[j] == c;
      assert OccursAt(s, [c], j) by { assert s[j..j + 1] == [c]; }
    }
  }

  // ---------------------------------------------------------------------
  // split() on whitespace runs, and ' '.join of the pieces

  predicate SpaceFree(t: string) {
    forall i :: 0 <= i < |t| ==> !IsSpace(t[i])
  }

  /** The length of the leading run of non-whitespace characters. */
  function WordLen(s: string): (n: nat)
    ensures n <= |s| && SpaceFree(s[..n])
    ensures n < |s| ==> IsSpace(s[n])
  {
    if |s| > 0 && !IsSpace(s[0]) then
      var m := WordLen(s[1..]);
      assert s[..1 + m] == [s[0]] + s[1..][..m];
      1 + m
    else 0
  }

  /** `s.split()`: the maximal whitespace-free runs of `s`, in order. */
  function Words(s: string): (r: seq<string>)
    ensures forall k :: 0 <= k < |r| ==> r[k] != "" && SpaceFree(r[k])
    decreases |s|
  {
    if s == [] then []
    else if IsSpace(s[0]) then Words(s[1..])
    else var n := WordLen(s); [s[..n]] + Words(s[n..])
  }

  /** `' '.join(s.split())`. */
  function NormalizeSpaces(s: string): string {
    Join(" ", Words(s))
  }

  /** Text in which every whitespace character is a single ' ' between two
      non-whitespace characters: no leading or trailing whitespace, no newline
      or carriage return, no run of two whitespace characters. */
  predicate SpacesNormal(r: string) {
    forall i :: 0 <= i < |r| && IsSpace(r[i]) ==>
      r[i] == ' ' && 0 < i < |r| - 1 && !IsSpace(r[i - 1]) && !IsSpace(r[i + 1])
  }

  lemma {:induction false} JoinWordsNormal(ws: seq<string>)
    requires forall k :: 0 <= k < |ws| ==> ws[k] != "" && SpaceFree(ws[k])
    ensures SpacesNormal(Join(" ", ws))
    ensures |ws| > 0 ==> |Join(" ", ws)| > 0 && !IsSpace(Join(" ", ws)[0])
  {
    if |ws| > 1 {
      JoinWordsNormal(ws[1..]);
      var a, b := ws[0], Join(" ", ws[1..]);
      var r := a + " " + b;
      forall i | 0 <= i < |r| && IsSpace(r[i])
        ensures r[i] == ' ' && 0 < i < |r| - 1 && !IsSpace(r[i - 1]) && !IsSpace(r[i + 1])
      {
        if i > |a| {
          assert r[i] == b[i - |a| - 1];
          if i - |a| - 1 > 0 {
            assert r[i - 1] == b[i - |a| - 2];
          }
        }
      }
    }
  }

  lemma NormalizeSpacesNormal(s: string)
    ensures SpacesNormal(NormalizeSpaces(s))
  {
    JoinWordsNormal(Words(s));
  }

  /** The leading word of `w + rest` is `w` when `rest` is empty or starts with whitespace. */
  lemma {:induction false} WordLenOfWord(w: string, rest: string)
    requires SpaceFree(w) && (rest == "" || IsSpace(rest[0]))
    ensures WordLen(w + rest) == |w|
    decreases |w|
  {
    if w == "" {
      assert w + rest == rest;
    } else {
      assert (w + rest)[1..] == w[1..] + rest;
      assert (w + rest)[0] == w[0];
      WordLenOfWord(w[1..], rest);
    }
  }

  /** The leading word ends at or before any whitespace character. */
  lemma {:induction false} WordLenBound(s: string, j: nat)
    requires j < |s| && IsSpace(s[j])
    ensures WordLen(s) <= j
    decreases j
  {
    if j > 0 && !IsSpace(s[0]) {
      WordLenBound(s[1..], j - 1);
    }
  }

  /** `split()` of text that starts with a whitespace-free word followed by whitespace. */
  lemma WordsCons(w: string, rest: string)
    requires w != "" && SpaceFree(w) && (rest == "" || IsSpace(rest[0]))
    ensures Words(w + rest) == [w] + Words(rest)
  {
    var s := w + rest;
    WordLenOfWord(w, rest);
    assert s[..|w|] == w && s[|w|..] == rest;
  }

  /** Splitting words joined by single spaces gives the words back. */
  lemma {:induction false} WordsOfJoin(ws: seq<string>)
    requires forall k :: 0 <= k < |ws| ==> ws[k] != "" && SpaceFree(ws[k])
    ensures Words(Join(" ", ws)) == ws
  {
    if |ws| == 1 {
      WordsCons(ws[0], "");
      assert ws[0] + "" == ws[0];
    } else if |ws| > 1 {
      var b := Join(" ", ws[1..]);
      WordsOfJoin(ws[1..]);
      assert ws[0] + " " + b == ws[0] + (" " + b);
      WordsCons(ws[0], " " + b);
      assert (" " + b)[1..] == b;
    }
  }

  /** Normalizing twice is normalizing once. */
  lemma NormalizeSpacesIdempotent(s: string)
    ensures NormalizeSpaces(NormalizeSpaces(s)) == NormalizeSpaces(s)
  {
    WordsOfJoin(Words(s));
  }

  /** Every word of text free of `sub` is free of it. */
  lemma {:induction false} WordsFree(s: string, sub: string)
    requires !Contains(s, sub)
    ensures forall k :: 0 <= k < |Words(s)| ==> !Contains(Words(s)[k], sub)
    decreases |s|
  {
    if s != [] {
      if IsSpace(s[0]) {
        SliceFree(s, sub, 1, |s|);
        assert s[1..|s|] == s[1..];
        WordsFree(s[1..], sub);
      } else {
        var n := WordLen(s);
        SliceFree(s, sub, 0, n);
        SliceFree(s, sub, n, |s|);
        assert s[n..|s|] == s[n..];
        WordsFree(s[n..], sub);
      }
    }
  }

  /** A single space contains no text without spaces. */
  lemma SpaceFreeOf(sub: string)
    requires sub != "" && ' ' !in sub
    ensures !Contains(" ", sub)
  {
    assert sub[0] in sub;
    forall i | 0 <= i && i + |sub| <= 1 ensures !OccursAt(" ", sub, i) {
      assert " "[i..i + |sub|][0] == ' ';
    }
  }

  /** Joining with single spaces creates no occurrence of a text without spaces. */
  lemma {:induction false} JoinSpaceFree(ws: seq<string>, sub: string)
    requires sub != "" && ' ' !in sub
    requires forall k :: 0 <= k < |ws| ==> !Contains(ws[k], sub)
    ensures !Contains(Join(" ", ws), sub)
  {
    if |ws| == 0 {
      assert sub[..0] == "";
    } else if |ws| > 1 {
      JoinSpaceFree(ws[1..], sub);
      SpaceFreeOf(sub);
      forall k | 0 < k < |sub| ensures !StartsWith(" ", sub[k..]) {
        assert sub[k] in sub && sub[k..][0] == sub[k];
      }
      ConcatFree(ws[0], " ", sub);
      var x := ws[0] + " ";
      forall k | 0 < k < |sub| ensures !EndsWith(x, sub[..k]) {
        assert sub[k - 1] in sub && sub[..k][k - 1] == sub[k - 1];
        assert x[|x| - 1] == ' ';
      }
      ConcatFree(x, Join(" ", ws[1..]), sub);
    }
  }

  /** `' '.join(s.split())` creates no occurrence of a text without spaces. */
  lemma NormalizeSpacesFree(s: string, sub: string)
    requires sub != "" && ' ' !in sub && !Contains(s, sub)
    ensures !Contains(NormalizeSpaces(s), sub)
  {
    WordsFree(s, sub);
    JoinSpaceFree(Words(s), sub);
  }

  /** Two strings with whitespace at the same places and equal elsewhere. */
  predicate SameWords(s: string, t: string) {
    |s| == |t| && forall i :: 0 <= i < |s| ==>
      (IsSpace(s[i]) <==> IsSpace(t[i])) && (!IsSpace(s[i]) ==> s[i] == t[i])
  }

  lemma {:induction false} WordLenSame(s: string, t: string)
    requires SameWords(s, t)
    ensures WordLen(s) == WordLen(t)
    decreases |s|
  {
    if |s| > 0 && !IsSpace(s[0]) {
      WordLenSame(s[1..], t[1..]);
    }
  }

  /** `split()` only sees where the whitespace is, not which whitespace it is. */
  lemma {:induction false} WordsSame(s: string, t: string)
    requires SameWords(s, t)
    ensures Words(s) == Words(t)
    decreases |s|
  {
    if s != [] {
      if IsSpace(s[0]) {
        WordsSame(s[1..], t[1..]);
      } else {
        WordLenSame(s, t);
        var n := WordLen(s);
        assert s[..n] == t[..n];
        WordsSame(s[n..], t[n..]);
      }
    }
  }

  lemma SameWordsConcat(s1: string, t1: string, s2: string, t2: string)
    requires SameWords(s1, t1) && SameWords(s2, t2)
    ensures SameWords(s1 + s2, t1 + t2)
  {
    var s, t := s1 + s2, t1 + t2;
    forall i | 0 <= i < |s|
      ensures (IsSpace(s[i]) <==> IsSpace(t[i])) && (!IsSpace(s[i]) ==> s[i] == t[i])
    {
      if i < |s1| {
        assert s[i] == s1[i] && t[i] == t1[i];
      } else {
        assert s[i] == s2[i - |s1|] && t[i] == t2[i - |s1|];
      }
    }
  }

  /** Replacing one whitespace character by a space keeps the word structure. */
  lemma {:induction false} ReplaceSpaceSame(s: string, c: char)
    requires IsSpace(c)
    ensures SameWords(s, Replace(s, [c], " "))
    decreases |s|
  {
    var i := Find(s, [c]);
    if i >= 0 {
      var rest := s[i + 1..];
      ReplaceSpaceSame(rest, c);
      assert s[i..i + 1] == [c];
      assert SameWords([c], " ");
      SameWordsConcat(s[..i], s[..i], [c], " ");
      SameWordsConcat(s[..i] + [c], s[..i] + " ", rest, Replace(rest, [c], " "));
      assert s == s[..i] + [c] + rest;
    }
  }

  lemma {:induction false} WordsDropLeading(s: string, k: nat)
    requires k <= |s| && forall i :: 0 <= i < k ==> IsSpace(s[i])
    ensures Words(s[k..]) == Words(s)
  {
    if k > 0 {
      WordsDropLeading(s[1..], k - 1);
      assert s[1..][k - 1..] == s[k..];
    }
  }

  lemma {:induction false} WordLenDropTrailing(s: string, k: nat)
    requires k <= |s| && forall i :: |s| - k <= i < |s| ==> IsSpace(s[i])
    ensures WordLen(s[..|s| - k]) == WordLen(s) || WordLen(s) >= |s| - k
    ensures WordLen(s) <= |s| - k || k == 0
  {
    var n := WordLen(s);
    if k > 0 {
      WordLenBound(s, |s| - k);
    }
    if n < |s| - k {
      var t := s[..|s| - k];
      assert t[..n] == s[..n] && t[n] == s[n];
    }
  }

  /** Trailing whitespace does not change `split()`. */
  lemma {:induction false} WordsDropTrailing(s: string, k: nat)
    requires k <= |s| && forall i :: |s| - k <= i < |s| ==> IsSpace(s[i])
    ensures Words(s[..|s| - k]) == Words(s)
    decreases |s|
  {
    var t := s[..|s| - k];
    if t == [] {
      WordsDropLeading(s, |s|);
    } else if IsSpace(s[0]) {
      WordsDropTrailing(s[1..], k);
      assert s[1..][..|s| - 1 - k] == t[1..];
    } else {
      WordLenDropTrailing(s, k);
      var n := WordLen(s);
      assert t[0] == s[0];
      var m := WordLen(t);
      if n == |s| - k {
        assert t[..n] == s[..n];
        if m > n {
          assert false;
        }
        assert Words(t[n..]) == [];
      } else {
        assert m == n;
      }
      assert t[..n] == s[..n];
      WordsDropTrailing(s[n..], k);
      assert s[n..][..|s| - n - k] == t[n..];
    }
  }

  /** Stripping whitespace does not change `split()`. */
  lemma WordsOfStrip(s: string)
    ensures Words(Strip(s, None)) == Words(s)
  {
    var a := LeadCount(s, None);
    var t := s[a..];
    var k := TrailCount(t, None);
    assert Strip(s, None) == t[..|t| - k];
    assert forall i :: 0 <= i < a ==> IsSpace(s[i]);
    assert forall i :: |t| - k <= i < |t| ==> IsSpace(t[i]);
    WordsDropLeading(s, a);
    WordsDropTrailing(t, k);
  }

  // ---------------------------------------------------------------------
  // Integers as decimal text

  function Digit(d: nat): char
    requires d < 10
  {
    "0123456789"[d]
  }

  function NatToStr(n: nat): (r: string)
    ensures |r| > 0 && forall k :: 0 <= k < |r| ==> '0' <= r[k] <= '9'
  {
    if n < 10 then [Digit(n)] else NatToStr(n / 10) + [Digit(n % 10)]
  }

  /** `str(i)` for an int. */
  function IntToStr(i: int): (r: string)
    ensures |r| > 0 && '0' <= r[|r| - 1] <= '9'
    ensures r[0] == '-' <==> i < 0
  {
    if i < 0 then "-" + NatToStr(-i) else NatToStr(i)
  }
}
