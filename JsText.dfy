/**
 * The JavaScript string and value semantics the pages rely on: `String.prototype.trim`,
 * `String.prototype.replace` with a string pattern (first occurrence only),
 * `Number.prototype.toString` on non-negative integers and `padStart`, the truthiness
 * rules behind `||` fallbacks, `Math.round` on a quotient of integers, and decoded JSON values.
 */
module Js {
  import opened Wrappers

  // ---------------------------------------------------------------------------
  // Whitespace and trim
  // ---------------------------------------------------------------------------

  /** ECMAScript WhiteSpace and LineTerminator code points: what `trim` removes. */
  predicate IsWhitespace(c: char) {
    c == '\U{0009}' || c == '\U{000B}' || c == '\U{000C}' || c == ' ' || c == '\U{00A0}'
    || c == '\U{FEFF}' || c == '\U{1680}' || ('\U{2000}' <= c <= '\U{200A}') || c == '\U{202F}'
    || c == '\U{205F}' || c == '\U{3000}'
    || c == '\U{000A}' || c == '\U{000D}' || c == '\U{2028}' || c == '\U{2029}'
  }

  predicate AllWhitespace(s: string) {
    forall i :: 0 <= i < |s| ==> IsWhitespace(s[i])
  }

  /** A string with no whitespace at either end. */
  predicate IsTrimmed(s: string) {
    s == [] || (!IsWhitespace(s[0]) && !IsWhitespace(s[|s| - 1]))
  }

  /** Number of whitespace characters at the start of `s`. */
  function LeadingWhitespace(s: string): (n: nat)
    ensures n <= |s|
    ensures AllWhitespace(s[..n])
    ensures n < |s| ==> !IsWhitespace(s[n])
  {
    if s == [] || !IsWhitespace(s[0]) then 0
    else
      var k := LeadingWhitespace(s[1..]);
      assert s[1..][..k] == s[1..k + 1];
      1 + k
  }

  /** Length of `s` once its trailing whitespace is dropped. */
  function TrailingCut(s: string): (n: nat)
    ensures n <= |s|
    ensures AllWhitespace(s[n..])
    ensures n > 0 ==> !IsWhitespace(s[n - 1])
  {
    if s == [] || !IsWhitespace(s[|s| - 1]) then |s|
    else
      var k := TrailingCut(s[..|s| - 1]);
      assert s[k..] == s[..|s| - 1][k..] + [s[|s| - 1]];
      k
  }

  /** `s.trim()`: the slice of `s` between its leading and its trailing whitespace. */
  function Trim(s: string): (r: string)
    ensures IsTrimmed(r)
    ensures |r| <= |s|
    ensures r == [] <==> AllWhitespace(s)
  {
    var lo := LeadingWhitespace(s);
    var t := s[lo..];
    var hi := TrailingCut(t);
    var res := t[..hi];
    assert res == [] <==> AllWhitespace(s) by {
      if lo == |s| {
        assert s[..lo] == s;
      } else {
        assert t[0] == s[lo];
        assert hi > 0;
      }
    }
    res
  }

  /** Trim keeps the middle of its input: `s` is whitespace, then `Trim(s)`, then whitespace. */
  lemma TrimDecomposes(s: string)
    ensures exists lo, hi :: 0 <= lo <= hi <= |s| && Trim(s) == s[lo..hi]
                          && AllWhitespace(s[..lo]) && AllWhitespace(s[hi..])
  {
    var lo := LeadingWhitespace(s);
    var t := s[lo..];
    var hi := TrailingCut(t);
    assert Trim(s) == s[lo..lo + hi];
    assert s[lo + hi..] == t[hi..];
  }

  /** A string without whitespace at its ends is its own trim. */
  lemma TrimOfTrimmed(s: string)
    requires IsTrimmed(s)
    ensures Trim(s) == s
  {
    if s != [] {
      assert LeadingWhitespace(s) == 0;
      assert s[0..] == s;
      assert TrailingCut(s) == |s|;
    }
  }

  /** Trimming twice is trimming once. */
  lemma TrimIdempotent(s: string)
    ensures Trim(Trim(s)) == Trim(s)
  {
    TrimOfTrimmed(Trim(s));
  }

  /** Whitespace in front of `s` adds exactly its length to the leading whitespace. */
  lemma {:induction false} LeadingPast(pre: string, s: string)
    requires AllWhitespace(pre)
    ensures LeadingWhitespace(pre + s) == |pre| + LeadingWhitespace(s)
  {
    if pre != [] {
      assert (pre + s)[0] == pre[0];
      assert (pre + s)[1..] == pre[1..] + s;
      LeadingPast(pre[1..], s);
    } else {
      assert pre + s == s;
    }
  }

  /** Whitespace after `s` does not move the end of its non-whitespace part. */
  lemma {:induction false} TrailingPast(s: string, post: string)
    requires AllWhitespace(post)
    ensures TrailingCut(s + post) == TrailingCut(s)
  {
    if post != [] {
      var init := post[..|post| - 1];
      assert (s + post)[|s + post| - 1] == post[|post| - 1];
      assert (s + post)[..|s + post| - 1] == s + init;
      TrailingPast(s, init);
    } else {
      assert s + post == s;
    }
  }

  /** Text after a string that is not all whitespace does not change its leading whitespace. */
  lemma {:induction false} LeadingBefore(s: string, post: string)
    requires !AllWhitespace(s)
    ensures LeadingWhitespace(s + post) == LeadingWhitespace(s)
  {
    assert (s + post)[0] == s[0];
    if IsWhitespace(s[0]) {
      assert !AllWhitespace(s[1..]) by {
        var i :| 0 <= i < |s| && !IsWhitespace(s[i]);
        assert s[1..][i - 1] == s[i];
      }
      assert (s + post)[1..] == s[1..] + post;
      LeadingBefore(s[1..], post);
    }
  }

  /** Two runs of whitespace make one. */
  lemma WhitespaceConcat(a: string, b: string)
    requires AllWhitespace(a) && AllWhitespace(b)
    ensures AllWhitespace(a + b)
  {
    forall i | 0 <= i < |a + b| ensures IsWhitespace((a + b)[i]) {
      if i < |a| { assert (a + b)[i] == a[i]; } else { assert (a + b)[i] == b[i - |a|]; }
    }
  }

  /** Trim unfolded: the slice after the leading whitespace, cut before the trailing whitespace. */
  lemma TrimUnfold(s: string)
    ensures var lo := LeadingWhitespace(s); Trim(s) == s[lo..][..TrailingCut(s[lo..])]
  {
  }

  /** Slicing a padded string past its prefix and a leading part of `s`. */
  lemma PaddedSlice(pre: string, s: string, post: string, lo: nat, hi: nat)
    requires lo <= |s| && hi <= |s| - lo
    ensures (pre + (s + post))[|pre| + lo..] == s[lo..] + post
    ensures (s[lo..] + post)[..hi] == s[lo..][..hi]
  {
    assert (pre + (s + post))[|pre| + lo..] == (s + post)[lo..];
  }

  /** When the padded string's cuts are the cuts of `s` shifted past `pre`, the trims agree. */
  lemma TrimFromCuts(pre: string, s: string, post: string)
    requires LeadingWhitespace(pre + (s + post)) == |pre| + LeadingWhitespace(s)
    requires TrailingCut(s[LeadingWhitespace(s)..] + post) == TrailingCut(s[LeadingWhitespace(s)..])
    ensures Trim(pre + (s + post)) == Trim(s)
  {
    var whole := pre + (s + post);
    var lo := LeadingWhitespace(s);
    var t := s[lo..];
    var hi := TrailingCut(t);
    assert Trim(whole) == (t + post)[..hi] by {
      TrimUnfold(whole);
      PaddedSlice(pre, s, post, lo, hi);
    }
    assert (t + post)[..hi] == Trim(s) by {
      PaddedSlice(pre, s, post, lo, hi);
      TrimUnfold(s);
    }
  }

  /** Padding a string that has some non-whitespace: the padded trim starts after `pre` and the
      leading whitespace of `s`, and ends where the trim of `s` ends. */
  lemma TrimPaddedVisible(pre: string, s: string, post: string)
    requires AllWhitespace(pre) && AllWhitespace(post) && !AllWhitespace(s)
    ensures Trim(pre + (s + post)) == Trim(s)
  {
    LeadingPast(pre, s + post);
    LeadingBefore(s, post);
    TrailingPast(s[LeadingWhitespace(s)..], post);
    TrimFromCuts(pre, s, post);
  }

  lemma ConcatAssoc(a: string, b: string, c: string)
    ensures a + b + c == a + (b + c)
  {
  }

  /** Whitespace around a string does not change its trim. */
  lemma TrimPadded(pre: string, s: string, post: string)
    requires AllWhitespace(pre) && AllWhitespace(post)
    ensures Trim(pre + s + post) == Trim(s)
  {
    if AllWhitespace(s) {
      WhitespaceConcat(pre, s);
      WhitespaceConcat(pre + s, post);
    } else {
      TrimPaddedVisible(pre, s, post);
      ConcatAssoc(pre, s, post);
    }
  }

  // ---------------------------------------------------------------------------
  // String.prototype.replace(pattern, '') with a string pattern
  // ---------------------------------------------------------------------------

  predicate OccursAt(s: string, pat: string, i: nat) {
    i + |pat| <= |s| && s[i..i + |pat|] == pat
  }

  /** First index at or after `from` where `pat` occurs in `s`. */
  function FindFrom(s: string, pat: string, from: nat): (r: Option<nat>)
    requires from <= |s|
    ensures r.Some? ==> from <= r.value && OccursAt(s, pat, r.value)
    ensures forall j :: from <= j && (r.None? || j < r.value) ==> !OccursAt(s, pat, j)
    decreases |s| - from
  {
    if OccursAt(s, pat, from) then Some(from)
    else if from + |pat| >= |s| then
      assert forall j :: from <= j ==> !OccursAt(s, pat, j) by {
        forall j | from < j ensures !OccursAt(s, pat, j) { }
      }
      None
    else FindFrom(s, pat, from + 1)
  }

  /** Index of the first occurrence of `pat` in `s`, as `indexOf` finds it. */
  function IndexOf(s: string, pat: string): Option<nat> {
    FindFrom(s, pat, 0)
  }

  /** `s.replace(pat, '')`: drop the first occurrence of `pat`, if any. */
  function RemoveFirst(s: string, pat: string): (r: string)
    ensures IndexOf(s, pat).None? ==> r == s
    ensures IndexOf(s, pat).Some? ==> |r| == |s| - |pat|
  {
    match IndexOf(s, pat)
    case None => s
    case Some(i) => s[..i] + s[i + |pat|..]
  }

  /** Putting the removed pattern back at the place it was found restores the input. */
  lemma RemoveFirstInverse(s: string, pat: string)
    requires IndexOf(s, pat).Some?
    ensures var i := IndexOf(s, pat).value;
            i <= |RemoveFirst(s, pat)| &&
            RemoveFirst(s, pat)[..i] + pat + RemoveFirst(s, pat)[i..] == s
  {
    var i := IndexOf(s, pat).value;
    var r := RemoveFirst(s, pat);
    assert r[..i] == s[..i];
    assert r[i..] == s[i + |pat|..];
    assert s == s[..i] + s[i..i + |pat|] + s[i + |pat|..];
  }

  /** When the only occurrence of `pat` is a suffix, removing it cuts that suffix. */
  lemma RemoveFirstSuffix(base: string, pat: string)
    requires |pat| > 0
    requires forall j :: 0 <= j < |base| ==> !OccursAt(base + pat, pat, j)
    ensures RemoveFirst(base + pat, pat) == base
  {
    var s := base + pat;
    assert OccursAt(s, pat, |base|) by { assert s[|base|..|base| + |pat|] == pat; }
    var r := IndexOf(s, pat);
    assert r == Some(|base|);
    assert s[..|base|] == base;
  }

  // ---------------------------------------------------------------------------
  // Decimal text of a non-negative integer, and padStart(2, '0')
  // ---------------------------------------------------------------------------

  function DigitChar(d: nat): char
    requires d < 10
  {
    ['0', '1', '2', '3', '4', '5', '6', '7', '8', '9'][d]
  }

  predicate IsDigit(c: char) { '0' <= c <= '9' }

  function DigitValue(c: char): nat
    requires IsDigit(c)
  {
    (c as int - '0' as int) as nat
  }

  predicate AllDigits(s: string) {
    forall i :: 0 <= i < |s| ==> IsDigit(s[i])
  }

  /** The value of a string of decimal digits, read left to right. */
  function DigitsValue(s: string): nat
    requires AllDigits(s)
  {
    if s == [] then 0 else 10 * DigitsValue(s[..|s| - 1]) + DigitValue(s[|s| - 1])
  }

  /** `n.toString()` for a non-negative integer below 10^21 (JavaScript switches to exponent notation above). */
  function NatToString(n: nat): (r: string)
    ensures |r| >= 1 && AllDigits(r)
    ensures |r| > 1 ==> r[0] != '0'
  {
    if n < 10 then [DigitChar(n)] else NatToString(n / 10) + [DigitChar(n % 10)]
  }

  /** Reading back the decimal text of `n` gives `n`. */
  lemma {:induction false} NatToStringRoundTrip(n: nat)
    ensures DigitsValue(NatToString(n)) == n
  {
    var s := NatToString(n);
    if n >= 10 {
      NatToStringRoundTrip(n / 10);
      assert s[..|s| - 1] == NatToString(n / 10);
    }
  }

  /** `s.padStart(2, '0')`. */
  function PadStart2(s: string): (r: string)
    ensures |r| == if |s| >= 2 then |s| else 2
    ensures r[|r| - |s|..] == s
    ensures forall i :: 0 <= i < |r| - |s| ==> r[i] == '0'
  {
    if |s| >= 2 then s else seq(2 - |s|, _ => '0') + s
  }

  /** A leading zero does not change the value of a digit string. */
  lemma {:induction false} LeadingZeroValue(s: string)
    requires AllDigits(s)
    ensures AllDigits(['0'] + s) && DigitsValue(['0'] + s) == DigitsValue(s)
  {
    if s != [] {
      LeadingZeroValue(s[..|s| - 1]);
      assert (['0'] + s)[..|s|] == ['0'] + s[..|s| - 1];
    }
  }

  /** Zero padding keeps the number a decimal string denotes. */
  lemma PadStart2Value(s: string)
    requires AllDigits(s)
    ensures AllDigits(PadStart2(s)) && DigitsValue(PadStart2(s)) == DigitsValue(s)
  {
    if |s| == 1 {
      assert PadStart2(s) == ['0'] + s;
      LeadingZeroValue(s);
    } else if |s| == 0 {
      assert PadStart2(s) == ['0'] + ['0'];
      LeadingZeroValue(['0']);
      LeadingZeroValue([]);
    }
  }

  // ---------------------------------------------------------------------------
  // Truthiness, `||` fallbacks and Math.round
  // ---------------------------------------------------------------------------

  /** A number that may be absent (undefined); it is truthy when present and non-zero. */
  predicate TruthyNumber(x: Option<int>) { x.Some? && x.value != 0 }

  /** A string that may be absent; it is truthy when present and non-empty. */
  predicate TruthyString(x: Option<string>) { x.Some? && x.value != "" }

  /** `x || fallback` on a number. */
  function NumberOr(x: Option<int>, fallback: int): (r: int)
    ensures TruthyNumber(x) ==> r == x.value
    ensures !TruthyNumber(x) ==> r == fallback
  {
    if TruthyNumber(x) then x.value else fallback
  }

  /** `x || fallback` on a string. */
  function StringOr(x: Option<string>, fallback: string): (r: string)
    ensures TruthyString(x) ==> r == x.value
    ensures !TruthyString(x) ==> r == fallback
  {
    if TruthyString(x) then x.value else fallback
  }

  /** `Math.round(p / q)` for integers with q > 0: the nearest integer, halves rounded up. */
  function RoundDiv(p: int, q: int): (r: int)
    requires q > 0
    ensures 2 * p - q < 2 * q * r <= 2 * p + q
  {
    (2 * p + q) / (2 * q)
  }

  /** The rounded quotient is the only integer within half a unit of it (rounding halves up). */
  lemma RoundDivUnique(p: int, q: int, r: int)
    requires q > 0
    requires 2 * p - q < 2 * q * r <= 2 * p + q
    ensures r == RoundDiv(p, q)
  {
    var r0 := RoundDiv(p, q);
    assert q * r < q * (r0 + 1);
    assert q * r0 < q * (r + 1);
    ProductOrder(q, r, r0 + 1);
    ProductOrder(q, r0, r + 1);
  }

  /** Dividing both sides of a strict inequality by a positive factor. */
  lemma ProductOrder(q: int, a: int, b: int)
    requires q > 0 && q * a < q * b
    ensures a < b
  {
    assert q * (b - a) > 0;
  }

  // ---------------------------------------------------------------------------
  // Decoded JSON values
  // ---------------------------------------------------------------------------

  /** A value as `JSON.parse` or `response.json()` returns it; `JUndefined` is JavaScript's
      `undefined`, which a property lookup yields for a missing key. */
  datatype Json =
    | JNull
    | JBool(b: bool)
    | JNumber(n: int)
    | JString(s: string)
    | JArray(items: seq<Json>)
    | JObject(fields: map<string, Json>)
    | JUndefined

  /** `value.key` on a decoded value, for a key that numbers, strings, booleans and arrays do not
      define (such as "questions"): `None` when the lookup throws a TypeError (null or undefined). */
  function Property(value: Json, key: string): (r: Option<Json>)
    ensures r.None? <==> value.JNull? || value.JUndefined?
    ensures value.JObject? && key in value.fields ==> r == Some(value.fields[key])
    ensures r.Some? && !(value.JObject? && key in value.fields) ==> r == Some(JUndefined)
  {
    match value
    case JNull => None
    case JUndefined => None
    case JObject(fields) => Some(if key in fields then fields[key] else JUndefined)
    case _ => Some(JUndefined)
  }
}
