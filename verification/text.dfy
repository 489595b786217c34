/**
 The handful of Python `str` operations the evaluation and dataset scripts rely on:
 `lower()`, `strip()`, `replace("\n", " ")`, the substring test `a in b`, and
 slicing `s[lo:hi]` with its clamping and negative-index rules.
 */
module Text {

  /** Python's `str.isspace()` for a single character: exactly the characters
      `strip()` with no argument removes. */
  predicate IsSpace(c: char) {
    || ('\t' <= c <= '\r')
    || ('\U{1C}' <= c <= '\U{1F}')
    || c == ' '
    || c == '\U{85}'
    || c == '\U{A0}'
    || c == '\U{1680}'
    || ('\U{2000}' <= c <= '\U{200A}')
    || c == '\U{2028}'
    || c == '\U{2029}'
    || c == '\U{202F}'
    || c == '\U{205F}'
    || c == '\U{3000}'
  }

  predicate AllSpace(s: string) {
    forall i :: 0 <= i < |s| ==> IsSpace(s[i])
  }

  /** No whitespace at either end: what `strip()` guarantees of its result. */
  predicate Trimmed(s: string) {
    |s| > 0 ==> !IsSpace(s[0]) && !IsSpace(s[|s| - 1])
  }

  // ---------------------------------------------------------------------------
  // lower()
  // ---------------------------------------------------------------------------

  predicate IsUpper(c: char) {
    'A' <= c <= 'Z'
  }

  function LowerChar(c: char): char {
    if IsUpper(c) then (c as int + 32) as char else c
  }

  /** `s.lower()`, restricted to the ASCII letters: no capital survives, each
      capital becomes its small letter, and every other character stays. */
  function Lower(s: string): (r: string)
    ensures |r| == |s|
    ensures forall i :: 0 <= i < |r| ==> !IsUpper(r[i])
    ensures forall i :: 0 <= i < |s| && IsUpper(s[i]) ==> r[i] as int == s[i] as int + 32
    ensures forall i :: 0 <= i < |s| && !IsUpper(s[i]) ==> r[i] == s[i]
  {
    seq(|s|, i requires 0 <= i < |s| => LowerChar(s[i]))
  }

  lemma LowerIdempotent(s: string)
    ensures Lower(Lower(s)) == Lower(s)
  {
  }

  lemma LowerAppend(a: string, b: string)
    ensures Lower(a + b) == Lower(a) + Lower(b)
  {
  }

  /** Lower-casing never touches whitespace. */
  lemma LowerKeepsSpaces(s: string)
    requires AllSpace(s)
    ensures Lower(s) == s
  {
  }

  // ---------------------------------------------------------------------------
  // strip()
  // ---------------------------------------------------------------------------

  /** `s.lstrip()`: `s` without its leading whitespace. `TrimStartSuffix`
      says what was dropped. */
  function TrimStart(s: string): (r: string)
    ensures |r| <= |s|
    ensures |r| > 0 ==> !IsSpace(r[0])
  {
    if |s| > 0 && IsSpace(s[0]) then TrimStart(s[1..]) else s
  }

  /** `lstrip()` keeps a suffix and drops whitespace only. */
  lemma {:induction false} TrimStartSuffix(s: string)
    ensures TrimStart(s) == s[|s| - |TrimStart(s)|..]
    ensures AllSpace(s[..|s| - |TrimStart(s)|])
    decreases |s|
  {
    if |s| > 0 && IsSpace(s[0]) {
      TrimStartSuffix(s[1..]);
      AllSpaceTail(s[..|s| - |TrimStart(s)|]);
      assert s[..|s| - |TrimStart(s)|][1..] == s[1..][..|s[1..]| - |TrimStart(s[1..])|];
    }
  }

  /** `s.rstrip()`: `s` without its trailing whitespace. `TrimEndPrefix` says
      what was dropped. */
  function TrimEnd(s: string): (r: string)
    ensures |r| <= |s|
    ensures |r| > 0 ==> !IsSpace(r[|r| - 1])
  {
    if |s| > 0 && IsSpace(s[|s| - 1]) then TrimEnd(s[..|s| - 1]) else s
  }

  /** `rstrip()` keeps a prefix and drops whitespace only. */
  lemma {:induction false} TrimEndPrefix(s: string)
    ensures TrimEnd(s) == s[..|TrimEnd(s)|]
    ensures AllSpace(s[|TrimEnd(s)|..])
    decreases |s|
  {
    if |s| > 0 && IsSpace(s[|s| - 1]) {
      var init := s[..|s| - 1];
      TrimEndPrefix(init);
      var k := |TrimEnd(s)|;
      assert s[k..] == init[k..] + [s[|s| - 1]];
      assert init[..k] == s[..k];
    }
  }

  /** `s.strip()`: `s` without its leading and trailing whitespace.
      `StripSlice` says where the result sits inside `s`. */
  function Strip(s: string): (r: string)
    ensures |r| <= |s|
    ensures Trimmed(r)
  {
    TrimEndPrefix(TrimStart(s));
    TrimEnd(TrimStart(s))
  }

  /** What `strip()` returns is the contiguous piece of `s` whose margins on
      both sides are whitespace only. */
  lemma StripSlice(s: string)
    ensures exists i, j :: Margins(s, i, j) && Strip(s) == s[i..j]
  {
    var t := TrimStart(s);
    var r := TrimEnd(t);
    TrimStartSuffix(s);
    TrimEndPrefix(t);
    SliceOfSuffix(s, t, r);
    assert Margins(s, |s| - |t|, |s| - |t| + |r|);
  }

  /** `s[..i]` and `s[j..]` are whitespace only: the margins `strip()` cuts. */
  predicate Margins(s: string, i: int, j: int) {
    0 <= i <= j <= |s| && AllSpace(s[..i]) && AllSpace(s[j..])
  }

  /** A prefix `r` of a suffix `t` of `s` is a slice of `s`, and what follows
      `r` in `t` is what follows it in `s`. */
  lemma SliceOfSuffix(s: string, t: string, r: string)
    requires |t| <= |s| && t == s[|s| - |t|..]
    requires |r| <= |t| && r == t[..|r|]
    ensures r == s[|s| - |t|..|s| - |t| + |r|]
    ensures s[|s| - |t| + |r|..] == t[|r|..]
  {
  }

  /** `strip()` only removes characters, it never introduces one. */
  lemma StripMembers(s: string)
    ensures forall c :: c in Strip(s) ==> c in s
  {
    StripSlice(s);
    var i, j :| Margins(s, i, j) && Strip(s) == s[i..j];
    SliceMembers(s, i, j);
  }

  /** Every character of a slice is a character of the whole. */
  lemma SliceMembers(s: string, i: nat, j: nat)
    requires i <= j <= |s|
    ensures forall c :: c in s[i..j] ==> c in s
  {
    forall c | c in s[i..j] ensures c in s {
      var k :| 0 <= k < j - i && s[i..j][k] == c;
      assert s[i + k] == c;
    }
  }

  /** A string that is already trimmed is left alone by `strip()`. */
  lemma StripTrimmed(s: string)
    requires Trimmed(s)
    ensures Strip(s) == s
  {
  }

  lemma StripIdempotent(s: string)
    ensures Strip(Strip(s)) == Strip(s)
  {
    StripTrimmed(Strip(s));
  }

  lemma AllSpaceTail(y: string)
    requires |y| > 0
    ensures AllSpace(y) <==> IsSpace(y[0]) && AllSpace(y[1..])
  {
    if IsSpace(y[0]) && AllSpace(y[1..]) {
      forall i | 0 < i < |y| ensures IsSpace(y[i]) {
        assert y[i] == y[1..][i - 1];
      }
    }
  }

  lemma {:induction false} TrimStartAppend(y: string, w: string)
    ensures TrimStart(y + w) == if AllSpace(y) then TrimStart(w) else TrimStart(y) + w
  {
    if |y| == 0 {
      assert y + w == w;
    } else {
      AllSpaceTail(y);
      assert (y + w)[0] == y[0];
      if IsSpace(y[0]) {
        assert (y + w)[1..] == y[1..] + w;
        TrimStartAppend(y[1..], w);
      }
    }
  }

  lemma {:induction false} TrimEndAppendSpaces(z: string, w: string)
    requires AllSpace(w)
    ensures TrimEnd(z + w) == TrimEnd(z)
  {
    if |w| == 0 {
      assert z + w == z;
    } else {
      assert (z + w)[..|z + w| - 1] == z + w[..|w| - 1];
      TrimEndAppendSpaces(z, w[..|w| - 1]);
    }
  }

  lemma TrimStartAllSpace(s: string)
    requires AllSpace(s)
    ensures TrimStart(s) == []
  {
  }

  /** Whitespace padding on either side never survives `strip()`. */
  lemma StripPadded(l: string, x: string, r: string)
    requires AllSpace(l) && AllSpace(r)
    ensures Strip(l + x + r) == Strip(x)
  {
    assert l + x + r == l + (x + r);
    TrimStartAppend(l, x + r);
    TrimStartAppend(x, r);
    if AllSpace(x) {
      TrimStartAllSpace(r);
      TrimStartAllSpace(x);
    } else {
      TrimEndAppendSpaces(TrimStart(x), r);
    }
  }

  // ---------------------------------------------------------------------------
  // replace("\n", " ")
  // ---------------------------------------------------------------------------

  /** `s.replace("\n", " ")`: every line feed becomes a space, nothing else moves. */
  function ReplaceNewlines(s: string): (r: string)
    ensures |r| == |s|
    ensures '\n' !in r
    ensures forall i :: 0 <= i < |s| && s[i] == '\n' ==> r[i] == ' '
    ensures forall i :: 0 <= i < |s| && s[i] != '\n' ==> r[i] == s[i]
  {
    seq(|s|, i requires 0 <= i < |s| => if s[i] == '\n' then ' ' else s[i])
  }

  // ---------------------------------------------------------------------------
  // needle in hay
  // ---------------------------------------------------------------------------

  /** `needle` occurs in `hay` at some position. */
  ghost predicate Occurs(needle: string, hay: string) {
    exists i :: OccursAt(needle, hay, i)
  }

  /** `needle` sits in `hay` starting at index `i`. */
  predicate OccursAt(needle: string, hay: string, i: int) {
    0 <= i && i + |needle| <= |hay| && hay[i..i + |needle|] == needle
  }

  /** Python's `needle in hay` for two strings, as a left-to-right scan. */
  function IsSubstring(needle: string, hay: string): (b: bool)
    ensures b <==> Occurs(needle, hay)
    decreases |hay|
  {
    if |needle| > |hay| then false
    else if hay[..|needle|] == needle then assert OccursAt(needle, hay, 0); true
    else
      OccursStep(needle, hay);
      IsSubstring(needle, hay[1..])
  }

  lemma OccursStep(needle: string, hay: string)
    requires |needle| <= |hay| && hay[..|needle|] != needle
    ensures Occurs(needle, hay) <==> Occurs(needle, hay[1..])
  {
    if Occurs(needle, hay) {
      var i :| OccursAt(needle, hay, i);
      assert i > 0;
      assert hay[1..][i - 1..i - 1 + |needle|] == needle;
      assert OccursAt(needle, hay[1..], i - 1);
    }
    if Occurs(needle, hay[1..]) {
      var j :| OccursAt(needle, hay[1..], j);
      assert hay[j + 1..j + 1 + |needle|] == needle;
      assert OccursAt(needle, hay, j + 1);
    }
  }

  /** The empty string is in every string. */
  lemma EmptyIsSubstring(hay: string)
    ensures IsSubstring([], hay)
  {
    assert OccursAt([], hay, 0);
  }

  // ---------------------------------------------------------------------------
  // s[lo:hi]
  // ---------------------------------------------------------------------------

  /** How Python adjusts one slice bound against a length `n`: a negative bound
      counts from the end, and the result is clamped into `0..n`. */
  function SliceBound(i: int, n: nat): (k: nat)
    ensures k <= n
    ensures 0 <= i <= n ==> k == i
    ensures i > n ==> k == n
    ensures i < 0 && n + i >= 0 ==> k == n + i
    ensures n + i < 0 ==> k == 0
  {
    if i < 0 then (if i + n < 0 then 0 else i + n)
    else if i > n then n
    else i
  }

  /** Python's `s[lo:hi]` (step 1). It never fails: out-of-range bounds are
      clamped and a reversed range is empty; `PySliceClamps` spells out the
      out-of-range cases. */
  function PySlice(s: string, lo: int, hi: int): (r: string)
    ensures |r| <= |s|
    ensures 0 <= lo <= hi <= |s| ==> r == s[lo..hi]
    ensures 0 <= hi <= lo ==> r == []
    ensures lo < 0 && |s| + lo >= 0 && hi >= |s| ==> r == s[|s| + lo..]
  {
    var a := SliceBound(lo, |s|);
    var b := SliceBound(hi, |s|);
    if a < b then s[a..b] else []
  }

  /** The slice between the adjusted bounds, and its out-of-range cases: an
      end beyond the string stops at its end, negative bounds count from the
      end, and an end at or before the start of the string gives "". */
  lemma PySliceClamps(s: string, lo: int, hi: int)
    ensures SliceBound(lo, |s|) < SliceBound(hi, |s|) ==>
              PySlice(s, lo, hi) == s[SliceBound(lo, |s|)..SliceBound(hi, |s|)]
    ensures SliceBound(hi, |s|) <= SliceBound(lo, |s|) ==> PySlice(s, lo, hi) == []
    ensures 0 <= lo <= |s| <= hi ==> PySlice(s, lo, hi) == s[lo..]
    ensures hi < 0 && 0 <= lo <= |s| + hi ==> PySlice(s, lo, hi) == s[lo..|s| + hi]
    ensures |s| + hi <= 0 ==> PySlice(s, lo, hi) == []
  {
  }
}
