/**
 * The two string operations the referee applies to a raw move before it
 * looks at it: lower-casing and stripping surrounding whitespace, in that
 * order (`move.lower().strip()`).
 */
module Text {

  /** The characters Python's `str.strip()` removes: those for which `str.isspace()` holds. */
  predicate IsSpace(c: char) {
    || ('\U{9}' <= c <= '\U{D}')
    || ('\U{1C}' <= c <= '\U{20}')
    || c == '\U{85}' || c == '\U{A0}' || c == '\U{1680}'
    || ('\U{2000}' <= c <= '\U{200A}')
    || c == '\U{2028}' || c == '\U{2029}' || c == '\U{202F}' || c == '\U{205F}' || c == '\U{3000}'
  }

  predicate AllSpace(s: string) {
    forall k :: 0 <= k < |s| ==> IsSpace(s[k])
  }

  /**
   * Lower-casing of one character: the ASCII capitals, and KELVIN SIGN, which
   * is the only other character whose lower-case form is plain ASCII. Every
   * other character is kept as it is.
   */
  function LowerChar(c: char): char {
    if 'A' <= c <= 'Z' then (c as int - 'A' as int + 'a' as int) as char
    else if c == '\U{212A}' then 'k'
    else c
  }

  /**
   * Lower-casing leaves whitespace alone, never makes whitespace, leaves no
   * capital behind, and does nothing the second time.
   */
  lemma LowerCharFacts(c: char)
    ensures IsSpace(LowerChar(c)) <==> IsSpace(c)
    ensures IsSpace(c) ==> LowerChar(c) == c
    ensures !('A' <= LowerChar(c) <= 'Z')
    ensures LowerChar(LowerChar(c)) == LowerChar(c)
  {
  }

  /** `str.lower()`, one character at a time. */
  function Lower(s: string): (r: string)
    ensures |r| == |s|
    ensures forall k :: 0 <= k < |s| ==> r[k] == LowerChar(s[k])
  {
    if s == [] then [] else [LowerChar(s[0])] + Lower(s[1..])
  }

  /** The number of whitespace characters `str.strip()` removes at the front. */
  function LeadingSpaces(s: string): (n: nat)
    ensures n <= |s|
    ensures forall k :: 0 <= k < n ==> IsSpace(s[k])
    ensures n < |s| ==> !IsSpace(s[n])
  {
    if s == [] || !IsSpace(s[0]) then 0 else 1 + LeadingSpaces(s[1..])
  }

  /** The number of whitespace characters `str.strip()` removes at the back. */
  function TrailingSpaces(s: string): (n: nat)
    ensures n <= |s|
    ensures forall k :: |s| - n <= k < |s| ==> IsSpace(s[k])
    ensures n < |s| ==> !IsSpace(s[|s| - 1 - n])
  {
    if s == [] || !IsSpace(s[|s| - 1]) then 0 else 1 + TrailingSpaces(s[..|s| - 1])
  }

  /** Every character of `s` at an index in `[lo, hi)` is whitespace. */
  predicate SpaceBetween(s: string, lo: int, hi: int)
    requires 0 <= lo <= hi <= |s|
  {
    forall k :: lo <= k < hi ==> IsSpace(s[k])
  }

  /**
   * Cutting `s` at `i` and `j` removes exactly its surrounding whitespace:
   * only whitespace lies outside `s[i..j]`, and none at either end of it.
   */
  predicate CutAt(s: string, i: int, j: int) {
    && 0 <= i <= j <= |s|
    && SpaceBetween(s, 0, i) && SpaceBetween(s, j, |s|)
    && (i < j ==> !IsSpace(s[i]) && !IsSpace(s[j - 1]))
  }

  /** `r` is what is left of `s` once whitespace is cut off both ends. */
  ghost predicate Trims(s: string, r: string) {
    exists i, j :: CutAt(s, i, j) && r == s[i..j]
  }

  /** Where `str.strip()` cuts `s`: after its leading and before its trailing whitespace. */
  function StripBounds(s: string): (b: (int, int))
    ensures CutAt(s, b.0, b.1)
  {
    var i := LeadingSpaces(s);
    var j := |s| - TrailingSpaces(s[i..]);
    assert forall k :: j <= k < |s| ==> s[k] == s[i..][k - i];
    (i, j)
  }

  /** `str.strip()` with no argument. */
  function Strip(s: string): string {
    var b := StripBounds(s);
    s[b.0..b.1]
  }

  /** The normal form of a raw move: `move.lower().strip()`. */
  function Normalise(s: string): string {
    Strip(Lower(s))
  }

  /** There is only one way to cut the whitespace off both ends: the one `Strip` takes. */
  lemma CutUnique(s: string, i: int, j: int)
    requires CutAt(s, i, j)
    ensures s[i..j] == Strip(s)
  {
    var b := StripBounds(s);
    if i == j {
      if b.0 < b.1 { assert false; }
    } else {
      assert b.0 == i;
    }
  }

  /** `Strip` cuts off exactly the surrounding whitespace... */
  lemma StripTrims(s: string)
    ensures Trims(s, Strip(s))
  {
    var bounds := StripBounds(s);
    assert CutAt(s, bounds.0, bounds.1) && Strip(s) == s[bounds.0..bounds.1];
  }

  /** ...and nothing else does: `Trims` determines its result. */
  lemma TrimsUnique(s: string, r: string)
    requires Trims(s, r)
    ensures r == Strip(s)
  {
    var i, j :| CutAt(s, i, j) && r == s[i..j];
    CutUnique(s, i, j);
  }

  /** A cut of `x` is, shifted, a cut of `x` padded with whitespace. */
  lemma PaddedCut(a: string, x: string, b: string, i: int, j: int)
    requires AllSpace(a) && AllSpace(b) && CutAt(x, i, j)
    ensures CutAt(a + x + b, |a| + i, |a| + j)
  {
    var s := a + x + b;
    var p := |a|;
    assert SpaceBetween(s, 0, p + i) by {
      forall k | 0 <= k < p + i ensures IsSpace(s[k]) {
        if k < p { assert s[k] == a[k]; } else { assert s[k] == x[k - p]; }
      }
    }
    assert SpaceBetween(s, p + j, |s|) by {
      forall k | p + j <= k < |s| ensures IsSpace(s[k]) {
        if k < p + |x| { assert s[k] == x[k - p]; } else { assert s[k] == b[k - p - |x|]; }
      }
    }
    assert i < j ==> s[p + i] == x[i] && s[p + j - 1] == x[j - 1];
  }

  lemma PaddedSlice(a: string, x: string, b: string, i: int, j: int)
    requires 0 <= i <= j <= |x|
    ensures (a + x + b)[|a| + i..|a| + j] == x[i..j]
  {
    var s := a + x + b;
    assert forall k :: |a| + i <= k < |a| + j ==> s[k] == x[k - |a|];
  }

  /** Whitespace added around a string does not change what `Strip` leaves. */
  lemma StripPadded(a: string, x: string, b: string)
    requires AllSpace(a) && AllSpace(b)
    ensures Strip(a + x + b) == Strip(x)
  {
    var bounds := StripBounds(x);
    PaddedCut(a, x, b, bounds.0, bounds.1);
    PaddedSlice(a, x, b, bounds.0, bounds.1);
    CutUnique(a + x + b, |a| + bounds.0, |a| + bounds.1);
  }

  /** Stripping twice is stripping once. */
  lemma StripIdempotent(s: string)
    ensures Strip(Strip(s)) == Strip(s)
  {
    var r := Strip(s);
    assert CutAt(r, 0, |r|);
    assert r[0..|r|] == r;
    CutUnique(r, 0, |r|);
  }

  /** Lower-casing works character by character, so it distributes over concatenation. */
  lemma LowerConcat(x: string, y: string)
    ensures Lower(x + y) == Lower(x) + Lower(y)
  {
    var l, r := Lower(x + y), Lower(x) + Lower(y);
    forall k | 0 <= k < |x + y| ensures l[k] == r[k] {
      if k < |x| { assert (x + y)[k] == x[k]; } else { assert (x + y)[k] == y[k - |x|]; }
    }
  }

  /** Lower-casing leaves whitespace alone. */
  lemma LowerSpaces(a: string)
    requires AllSpace(a)
    ensures Lower(a) == a
  {
    forall k | 0 <= k < |a| ensures Lower(a)[k] == a[k] {
      LowerCharFacts(a[k]);
    }
  }

  /** Lower-casing is idempotent. */
  lemma LowerIdempotent(s: string)
    ensures Lower(Lower(s)) == Lower(s)
  {
    forall k | 0 <= k < |s| ensures Lower(Lower(s))[k] == Lower(s)[k] {
      LowerCharFacts(s[k]);
    }
  }

  /** Lower-casing keeps every cut of the whitespace where it was. */
  lemma LowerCut(s: string, i: int, j: int)
    requires CutAt(s, i, j)
    ensures CutAt(Lower(s), i, j)
  {
    var l := Lower(s);
    forall k | 0 <= k < |s| ensures IsSpace(l[k]) <==> IsSpace(s[k]) {
      LowerCharFacts(s[k]);
    }
  }

  lemma LowerSlice(s: string, i: int, j: int)
    requires 0 <= i <= j <= |s|
    ensures Lower(s[i..j]) == Lower(s)[i..j]
  {
  }

  /** Lower-casing commutes with stripping. */
  lemma LowerStrip(s: string)
    ensures Lower(Strip(s)) == Strip(Lower(s))
  {
    var bounds := StripBounds(s);
    LowerCut(s, bounds.0, bounds.1);
    LowerSlice(s, bounds.0, bounds.1);
    CutUnique(Lower(s), bounds.0, bounds.1);
  }

  /** Normalising twice is normalising once. */
  lemma NormaliseIdempotent(s: string)
    ensures Normalise(Normalise(s)) == Normalise(s)
  {
    LowerStrip(Lower(s));
    LowerIdempotent(s);
    StripIdempotent(Lower(s));
  }

  /** Lower-casing a raw move before normalising it changes nothing. */
  lemma NormaliseIgnoresCase(s: string)
    ensures Normalise(Lower(s)) == Normalise(s)
  {
    LowerIdempotent(s);
  }

  /** Surrounding whitespace does not change the normal form. */
  lemma NormalisePadded(a: string, x: string, b: string)
    requires AllSpace(a) && AllSpace(b)
    ensures Normalise(a + x + b) == Normalise(x)
  {
    LowerConcat(a + x, b);
    LowerConcat(a, x);
    LowerSpaces(a);
    LowerSpaces(b);
    StripPadded(a, Lower(x), b);
  }

  /** A word with no capitals and no whitespace at either end is its own normal form. */
  lemma NormalFormFixed(w: string)
    requires forall k :: 0 <= k < |w| ==> LowerChar(w[k]) == w[k]
    requires w != [] ==> !IsSpace(w[0]) && !IsSpace(w[|w| - 1])
    ensures Normalise(w) == w
  {
    assert Lower(w) == w;
    assert CutAt(w, 0, |w|) && w[0..|w|] == w;
    CutUnique(w, 0, |w|);
  }
}
