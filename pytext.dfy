/**
 * The few operations on Python `str` values that the ingestion code relies on:
 * whitespace (`str.isspace`, `str.strip`, the regex class `\s`), lower-casing,
 * the substring test `k in s`, slicing with clamped indices, and the decimal
 * rendering of an integer that f-strings produce.
 */
module PyText {

  /** The characters for which Python's `str.isspace()` is true; the regex class `\s` on `str` patterns is the same set. */
  predicate IsSpace(c: char) {
    var n := c as int;
    (9 <= n <= 13) || (28 <= n <= 32) || n == 0x85 || n == 0xA0 || n == 0x1680 ||
    (0x2000 <= n <= 0x200A) || n == 0x2028 || n == 0x2029 || n == 0x202F || n == 0x205F || n == 0x3000
  }

  /** The regex class `\d`, restricted to ASCII digits. */
  predicate IsDigit(c: char) {
    '0' <= c <= '9'
  }

  function DigitValue(c: char): (d: nat)
    requires IsDigit(c)
    ensures d < 10
  {
    (c as int) - ('0' as int)
  }

  /** The first index in `[lo, hi)` that is not whitespace, or `hi` if there is none. */
  function FirstNonSpace(s: string, lo: nat, hi: nat): (f: nat)
    requires lo <= hi <= |s|
    ensures lo <= f <= hi
    decreases hi - lo
  {
    if lo < hi && IsSpace(s[lo]) then FirstNonSpace(s, lo + 1, hi) else lo
  }

  /** One past the last index in `[lo, hi)` that is not whitespace, or `lo` if there is none. */
  function EndNonSpace(s: string, lo: nat, hi: nat): (e: nat)
    requires lo <= hi <= |s|
    ensures lo <= e <= hi
    decreases hi - lo
  {
    if lo < hi && IsSpace(s[hi - 1]) then EndNonSpace(s, lo, hi - 1) else hi
  }

  /** `s.strip()`: drop the whitespace at both ends. */
  function Strip(s: string): (r: string)
  {
    var f := FirstNonSpace(s, 0, |s|);
    s[f..EndNonSpace(s, f, |s|)]
  }

  /** `len(s[lo:hi].strip())`, computed on indices of `s`. */
  function StrippedLength(s: string, lo: nat, hi: nat): nat
    requires lo <= hi <= |s|
  {
    var f := FirstNonSpace(s, lo, hi);
    EndNonSpace(s, f, hi) - f
  }

  /** `FirstNonSpace` skips only whitespace and stops at a non-whitespace character. */
  lemma {:induction false} FirstNonSpaceSkips(s: string, lo: nat, hi: nat)
    requires lo <= hi <= |s|
    ensures var f := FirstNonSpace(s, lo, hi);
      (forall i :: lo <= i < f ==> IsSpace(s[i])) && (f < hi ==> !IsSpace(s[f]))
    decreases hi - lo
  {
    if lo < hi && IsSpace(s[lo]) {
      FirstNonSpaceSkips(s, lo + 1, hi);
    }
  }

  /** `EndNonSpace` drops only whitespace and stops after a non-whitespace character. */
  lemma {:induction false} EndNonSpaceSkips(s: string, lo: nat, hi: nat)
    requires lo <= hi <= |s|
    ensures var e := EndNonSpace(s, lo, hi);
      (forall i :: e <= i < hi ==> IsSpace(s[i])) && (lo < e ==> !IsSpace(s[e - 1]))
    decreases hi - lo
  {
    if lo < hi && IsSpace(s[hi - 1]) {
      EndNonSpaceSkips(s, lo, hi - 1);
    }
  }

  /** What `Strip` removes is whitespace, and what it keeps starts and ends with a non-whitespace character. */
  lemma StripTrims(s: string)
    ensures var f := FirstNonSpace(s, 0, |s|);
      var e := EndNonSpace(s, f, |s|);
      && Strip(s) == s[f..e]
      && (forall i :: 0 <= i < f || e <= i < |s| ==> IsSpace(s[i]))
      && (Strip(s) != [] ==> !IsSpace(Strip(s)[0]) && !IsSpace(Strip(s)[|Strip(s)| - 1]))
  {
    FirstNonSpaceSkips(s, 0, |s|);
    EndNonSpaceSkips(s, FirstNonSpace(s, 0, |s|), |s|);
  }

  lemma {:induction false} FirstNonSpaceShift(s: string, lo: nat, hi: nat, i: nat)
    requires lo <= hi <= |s| && i <= hi - lo
    ensures FirstNonSpace(s[lo..hi], i, hi - lo) == FirstNonSpace(s, lo + i, hi) - lo
    decreases hi - lo - i
  {
    if i < hi - lo {
      FirstNonSpaceShift(s, lo, hi, i + 1);
    }
  }

  lemma {:induction false} EndNonSpaceShift(s: string, lo: nat, hi: nat, f: nat, j: nat)
    requires lo <= hi <= |s| && f <= j <= hi - lo
    ensures EndNonSpace(s[lo..hi], f, j) == EndNonSpace(s, lo + f, lo + j) - lo
    decreases j - f
  {
    if f < j {
      EndNonSpaceShift(s, lo, hi, f, j - 1);
    }
  }

  /** The index computation agrees with `str.strip()` on the infix `s[lo:hi]`. */
  lemma StrippedLengthIsStrip(s: string, lo: nat, hi: nat)
    requires lo <= hi <= |s|
    ensures StrippedLength(s, lo, hi) == |Strip(s[lo..hi])|
  {
    var t := s[lo..hi];
    FirstNonSpaceShift(s, lo, hi, 0);
    var f := FirstNonSpace(t, 0, |t|);
    EndNonSpaceShift(s, lo, hi, f, |t|);
  }

  /** Lower-casing of one character, restricted to ASCII letters. */
  function LowerChar(c: char): (r: char)
    ensures 'A' <= c <= 'Z' ==> r as int == c as int + 32
    ensures !('A' <= c <= 'Z') ==> r == c
  {
    if 'A' <= c <= 'Z' then (c as int + 32) as char else c
  }

  /** `s.lower()` (ASCII letters only): same length, pointwise `LowerChar`. */
  function Lower(s: string): (r: string)
    ensures |r| == |s|
    ensures forall i :: 0 <= i < |s| ==> r[i] == LowerChar(s[i])
  {
    seq(|s|, i requires 0 <= i < |s| => LowerChar(s[i]))
  }

  /** Lower-casing twice is lower-casing once. */
  lemma LowerIdempotent(s: string)
    ensures Lower(Lower(s)) == Lower(s)
  {
    forall i | 0 <= i < |s|
      ensures Lower(Lower(s))[i] == Lower(s)[i]
    {
      assert Lower(Lower(s))[i] == LowerChar(LowerChar(s[i]));
    }
  }

  /** The lower-cased text holds no ASCII capital, and letters and non-letters stay what they were otherwise. */
  lemma LowerNoCapitals(s: string)
    ensures forall i :: 0 <= i < |s| ==> !('A' <= Lower(s)[i] <= 'Z')
    ensures forall i :: 0 <= i < |s| && !('A' <= s[i] <= 'Z') ==> Lower(s)[i] == s[i]
  {
  }

  /** `k` occurs in `s` at position `i`. */
  predicate OccursAt(k: string, s: string, i: int) {
    0 <= i <= |s| - |k| && s[i..i + |k|] == k
  }

  /** Python's `k in s` for two strings: `k` occurs in `s` at `i` or further right. */
  function ContainsFrom(s: string, k: string, i: nat): bool
    decreases |s| - i
  {
    i + |k| <= |s| && (s[i..i + |k|] == k || ContainsFrom(s, k, i + 1))
  }

  function Contains(s: string, k: string): bool {
    ContainsFrom(s, k, 0)
  }

  lemma {:induction false} ContainsFromIff(s: string, k: string, i: nat)
    ensures ContainsFrom(s, k, i) <==> exists j :: i <= j && OccursAt(k, s, j)
    decreases |s| - i
  {
    if i + |k| <= |s| {
      ContainsFromIff(s, k, i + 1);
      if s[i..i + |k|] == k {
        assert OccursAt(k, s, i);
      } else {
        forall j | i <= j && OccursAt(k, s, j) ensures i + 1 <= j {
        }
      }
    }
  }

  /** The substring test is exactly "occurs at some position". */
  lemma ContainsIff(s: string, k: string)
    ensures Contains(s, k) <==> exists i :: OccursAt(k, s, i)
  {
    ContainsFromIff(s, k, 0);
  }

  /** Concatenation is associative (stated once so that proofs need not rediscover it). */
  lemma ConcatAssoc<T>(a: seq<T>, b: seq<T>, c: seq<T>)
    ensures (a + b) + c == a + (b + c)
  {
  }

  /** The empty sequence is a unit of concatenation on both sides. */
  lemma ConcatEmpty<T>(a: seq<T>)
    ensures a + [] == a && [] + a == a
  {
  }

  /** Python's clamping of one slice bound against a sequence of length `n`. */
  function SliceBound(b: int, n: nat): (r: nat)
    ensures r <= n
    ensures 0 <= b <= n ==> r == b
  {
    if b < 0 then (if b + n < 0 then 0 else b + n)
    else if b > n then n
    else b
  }

  /** Python's `s[lo:hi]` with step 1: negative bounds count from the end, bounds are clamped. */
  function PySlice<T>(s: seq<T>, lo: int, hi: int): (r: seq<T>)
    ensures 0 <= lo <= hi <= |s| ==> r == s[lo..hi]
    ensures 0 <= lo <= |s| <= hi ==> r == s[lo..]
  {
    var a := SliceBound(lo, |s|);
    var b := SliceBound(hi, |s|);
    s[a..if a < b then b else a]
  }

  function DigitChar(d: nat): (c: char)
    requires d < 10
    ensures IsDigit(c) && DigitValue(c) == d
  {
    ('0' as int + d) as char
  }

  /** The decimal digits of `n`, most significant first, as `str(n)` writes them. */
  function NatToString(n: nat): (r: string)
    ensures |r| > 0
    ensures forall i :: 0 <= i < |r| ==> IsDigit(r[i])
    ensures n > 0 ==> r[0] != '0'
    decreases n
  {
    if n < 10 then [DigitChar(n)] else NatToString(n / 10) + [DigitChar(n % 10)]
  }

  /** `str(i)` for any Python int: a minus sign before the digits of a negative number. */
  function IntToString(i: int): (r: string)
    ensures |r| > 0
    ensures i >= 0 <==> r[0] != '-'
  {
    if i >= 0 then NatToString(i) else "-" + NatToString(-i)
  }

  /** The value of a non-empty run of decimal digits, as `int(s)` reads it. */
  function ParseNat(s: string): (n: nat)
    requires forall i :: 0 <= i < |s| ==> IsDigit(s[i])
    decreases |s|
  {
    if |s| == 0 then 0 else 10 * ParseNat(s[..|s| - 1]) + DigitValue(s[|s| - 1])
  }

  /** `int(str(n)) == n`: the decimal rendering can be read back. */
  lemma {:induction false} ParseNatToString(n: nat)
    ensures ParseNat(NatToString(n)) == n
    decreases n
  {
    if n >= 10 {
      var r := NatToString(n);
      assert r[..|r| - 1] == NatToString(n / 10);
      ParseNatToString(n / 10);
    }
  }

  /** Distinct numbers render as distinct strings. */
  lemma NatToStringInjective(m: nat, n: nat)
    requires NatToString(m) == NatToString(n)
    ensures m == n
  {
    ParseNatToString(m);
    ParseNatToString(n);
  }
}
