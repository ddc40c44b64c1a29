/**
 * The fixed regular expressions of enhanced_metadata.py, each written as a
 * scanner: a literal matched case-insensitively, then `\s+`, then one of three
 * number shapes. `FindAll` is `re.findall` for one pattern: it tries every
 * position from left to right and resumes after each match, so matches never
 * overlap.
 */
module Patterns {
  import opened Wrappers
  import opened PyText

  /** What a pattern captures after its `\s+`. */
  datatype Capture =
    | Decimal  // (\d+\.?\d*)
    | Whole    // (\d+)
    | Span     // (\d+)-(\d+)

  /** A pattern `<literal>\s+<capture>`; the literal is its text with backslashes removed. */
  datatype Pattern = Pattern(literal: string, capture: Capture)

  /** One match: where it starts and ends in the text, and its groups. */
  datatype Match = Match(start: nat, end: nat, groups: seq<string>)

  predicate IsAsciiLetter(c: char) {
    'A' <= c <= 'Z' || 'a' <= c <= 'z'
  }

  /**
   * The literals in use start with a letter and hold no whitespace. Such a
   * literal cannot begin inside a match of its own pattern.
   */
  predicate Plain(lit: string) {
    |lit| > 0 && IsAsciiLetter(lit[0]) && forall k :: 0 <= k < |lit| ==> !IsSpace(lit[k])
  }

  /** `lit` occurs at `i`, ignoring the case of ASCII letters (`re.IGNORECASE`). */
  predicate LiteralAt(text: string, i: nat, lit: string) {
    i + |lit| <= |text| && forall k :: 0 <= k < |lit| ==> LowerChar(text[i + k]) == LowerChar(lit[k])
  }

  /** The end of the run of whitespace that starts at `i` (greedy `\s*`). */
  function SpaceEnd(text: string, i: nat): (j: nat)
    requires i <= |text|
    ensures i <= j <= |text|
    ensures j < |text| ==> !IsSpace(text[j])
    decreases |text| - i
  {
    if i < |text| && IsSpace(text[i]) then SpaceEnd(text, i + 1) else i
  }

  /** The end of the run of digits that starts at `i` (greedy `\d*`). */
  function DigitEnd(text: string, i: nat): (j: nat)
    requires i <= |text|
    ensures i <= j <= |text|
    ensures j < |text| ==> !IsDigit(text[j])
    decreases |text| - i
  {
    if i < |text| && IsDigit(text[i]) then DigitEnd(text, i + 1) else i
  }

  lemma {:induction false} SpaceEndSkips(text: string, i: nat)
    requires i <= |text|
    ensures forall k :: i <= k < SpaceEnd(text, i) ==> IsSpace(text[k])
    decreases |text| - i
  {
    if i < |text| && IsSpace(text[i]) {
      SpaceEndSkips(text, i + 1);
    }
  }

  lemma {:induction false} DigitEndSkips(text: string, i: nat)
    requires i <= |text|
    ensures forall k :: i <= k < DigitEnd(text, i) ==> IsDigit(text[k])
    decreases |text| - i
  {
    if i < |text| && IsDigit(text[i]) {
      DigitEndSkips(text, i + 1);
    }
  }

  /**
   * The match of `pat` at position `i`, if any. Backtracking cannot help any of
   * these patterns (a digit is never whitespace, and `-` is never a digit), so
   * the greedy reading is the match Python's engine finds.
   */
  function MatchAt(text: string, pat: Pattern, i: nat): (r: Option<Match>)
    ensures r.Some? ==> r.value.start == i && i + |pat.literal| < r.value.end <= |text|
    ensures r.Some? ==> |r.value.groups| == if pat.capture.Span? then 2 else 1
  {
    if !LiteralAt(text, i, pat.literal) then None
    else
      var s := i + |pat.literal|;
      var a := SpaceEnd(text, s);
      var d := DigitEnd(text, a);
      if a == s || d == a then None
      else match pat.capture
        case Decimal =>
          var e := if d < |text| && text[d] == '.' then DigitEnd(text, d + 1) else d;
          Some(Match(i, e, [text[a..e]]))
        case Whole =>
          Some(Match(i, d, [text[a..d]]))
        case Span =>
          if d + 1 < |text| && text[d] == '-' && IsDigit(text[d + 1]) then
            var e := DigitEnd(text, d + 1);
            Some(Match(i, e, [text[a..d], text[d + 1..e]]))
          else None
  }

  /** A non-empty run of decimal digits. */
  predicate Digits(s: string) {
    |s| > 0 && forall k :: 0 <= k < |s| ==> IsDigit(s[k])
  }

  /** `\d+\.?\d*`: digits, then optionally a dot and more digits. */
  predicate DecimalText(s: string) {
    exists n :: 0 < n <= |s| && Digits(s[..n]) && (n == |s| || (s[n] == '.' && forall k :: n < k < |s| ==> IsDigit(s[k])))
  }

  /**
   * The groups of a match have the shape of their capture: one decimal, one
   * run of digits, or two runs of digits.
   */
  lemma MatchGroups(text: string, pat: Pattern, i: nat)
    requires MatchAt(text, pat, i).Some?
    ensures var g := MatchAt(text, pat, i).value.groups;
      match pat.capture
      case Decimal => |g| == 1 && DecimalText(g[0])
      case Whole => |g| == 1 && Digits(g[0])
      case Span => |g| == 2 && Digits(g[0]) && Digits(g[1])
  {
    var s := i + |pat.literal|;
    var a := SpaceEnd(text, s);
    var d := DigitEnd(text, a);
    DigitEndSkips(text, a);
    DigitsSlice(text, a, d);
    match pat.capture
    case Decimal =>
      var e := MatchAt(text, pat, i).value.end;
      if d < e {
        DigitEndSkips(text, d + 1);
      }
      DecimalSlice(text, a, d, e);
    case Whole =>
    case Span =>
      DigitEndSkips(text, d + 1);
      DigitsSlice(text, d + 1, MatchAt(text, pat, i).value.end);
  }

  lemma DigitsSlice(text: string, a: nat, d: nat)
    requires a < d <= |text| && forall k :: a <= k < d ==> IsDigit(text[k])
    ensures Digits(text[a..d])
  {
  }

  /** Digits from `a` to `d`, then either nothing or a dot and digits up to `e`, make a decimal. */
  lemma DecimalSlice(text: string, a: nat, d: nat, e: nat)
    requires a < d <= e <= |text| && forall k :: a <= k < d ==> IsDigit(text[k])
    requires d < e ==> text[d] == '.' && forall k :: d < k < e ==> IsDigit(text[k])
    ensures DecimalText(text[a..e])
  {
    var g := text[a..e];
    var n := d - a;
    assert g[..n] == text[a..d];
    DigitsSlice(text, a, d);
    if d < e {
      assert g[n] == text[d];
      forall k | n < k < |g|
        ensures IsDigit(g[k])
      {
        assert g[k] == text[a + k];
      }
    }
  }

  /**
   * The text of a match: the literal, at least one whitespace character right
   * after it, and then nothing but whitespace, digits, dots and dashes.
   */
  lemma MatchText(text: string, pat: Pattern, i: nat)
    requires MatchAt(text, pat, i).Some?
    ensures var m := MatchAt(text, pat, i).value;
      && LiteralAt(text, i, pat.literal)
      && IsSpace(text[i + |pat.literal|])
      && forall k :: i + |pat.literal| <= k < m.end ==>
           IsSpace(text[k]) || IsDigit(text[k]) || text[k] == '.' || text[k] == '-'
  {
    var s := i + |pat.literal|;
    var a := SpaceEnd(text, s);
    var d := DigitEnd(text, a);
    SpaceEndSkips(text, s);
    DigitEndSkips(text, a);
    if d + 1 <= |text| {
      DigitEndSkips(text, d + 1);
    }
  }

  /** After its literal a match has a run of whitespace and then a digit. */
  lemma MatchDigit(text: string, pat: Pattern, i: nat)
    requires MatchAt(text, pat, i).Some?
    ensures var s := i + |pat.literal|; var a := SpaceEnd(text, s);
      && s < a < |text| && IsDigit(text[a])
      && forall k :: s <= k < a ==> IsSpace(text[k])
  {
    SpaceEndSkips(text, i + |pat.literal|);
  }

  /** A character that lower-cases to the same character as a non-space character of a literal cannot be whitespace. */
  lemma LowerKeepsSpace(c: char, l: char)
    requires IsSpace(c) && !IsSpace(l)
    ensures LowerChar(c) != LowerChar(l)
  {
  }

  /**
   * A range pattern whose literal is one character longer than a single-number
   * pattern's also lets the shorter one match one position later, on the first
   * number of the range.
   */
  lemma SpanAlsoWhole(text: string, span: Pattern, whole: Pattern, i: nat)
    requires span.capture.Span? && whole.capture.Whole?
    requires |span.literal| > 0 && whole.literal == span.literal[1..]
    requires MatchAt(text, span, i).Some?
    ensures MatchAt(text, whole, i + 1).Some?
    ensures MatchAt(text, whole, i + 1).value.groups == [MatchAt(text, span, i).value.groups[0]]
  {
    var sl, wl := span.literal, whole.literal;
    assert LiteralAt(text, i, sl);
    forall k | 0 <= k < |wl|
      ensures LowerChar(text[i + 1 + k]) == LowerChar(wl[k])
    {
      assert wl[k] == sl[k + 1];
      assert text[i + 1 + k] == text[i + (k + 1)];
    }
    assert LiteralAt(text, i + 1, wl);
    assert i + |sl| == i + 1 + |wl|;
  }

  /** No match of a plain-literal pattern starts strictly inside another match of it. */
  lemma NoMatchInside(text: string, pat: Pattern, i: nat, j: nat)
    requires Plain(pat.literal)
    requires MatchAt(text, pat, i).Some? && i < j < MatchAt(text, pat, i).value.end
    ensures MatchAt(text, pat, j).None?
  {
    var lit := pat.literal;
    MatchText(text, pat, i);
    if j < i + |lit| {
      LowerKeepsSpace(text[i + |lit|], lit[i + |lit| - j]);
    }
  }

  /** `re.findall(pattern, text[pos:])` as match records: leftmost matches, resuming after each one. */
  function FindAll(text: string, pat: Pattern, pos: nat): seq<Match>
    decreases |text| - pos
  {
    if pos >= |text| then []
    else match MatchAt(text, pat, pos)
      case Some(m) => [m] + FindAll(text, pat, m.end)
      case None => FindAll(text, pat, pos + 1)
  }

  /** Every match found is a match of the pattern at its own start, at or after `pos`. */
  lemma {:induction false} FindAllSound(text: string, pat: Pattern, pos: nat)
    ensures forall m :: m in FindAll(text, pat, pos) ==> pos <= m.start && MatchAt(text, pat, m.start) == Some(m)
    decreases |text| - pos
  {
    if pos < |text| {
      match MatchAt(text, pat, pos)
      case Some(m) => FindAllSound(text, pat, m.end);
      case None => FindAllSound(text, pat, pos + 1);
    }
  }

  /** For a plain literal, every match that starts at or after `pos` is found. */
  lemma {:induction false} FindAllComplete(text: string, pat: Pattern, pos: nat, i: nat)
    requires Plain(pat.literal)
    requires pos <= i && MatchAt(text, pat, i).Some?
    ensures MatchAt(text, pat, i).value in FindAll(text, pat, pos)
    decreases |text| - pos
  {
    if pos < i {
      match MatchAt(text, pat, pos)
      case Some(m) =>
        if m.end <= i {
          FindAllComplete(text, pat, m.end, i);
        } else {
          NoMatchInside(text, pat, pos, i);
          assert false;
        }
      case None =>
        FindAllComplete(text, pat, pos + 1, i);
    }
  }

  /**
   * For a plain literal, `FindAll` from `pos` yields exactly the matches that
   * start at or after `pos`: skipping past a match loses nothing.
   */
  lemma FindAllExact(text: string, pat: Pattern, pos: nat)
    requires Plain(pat.literal)
    ensures forall m :: m in FindAll(text, pat, pos) <==> pos <= m.start && MatchAt(text, pat, m.start) == Some(m)
  {
    FindAllSound(text, pat, pos);
    forall m: Match | pos <= m.start && MatchAt(text, pat, m.start) == Some(m)
      ensures m in FindAll(text, pat, pos)
    {
      FindAllComplete(text, pat, pos, m.start);
    }
  }

  /** Matches that come out from left to right without overlapping. */
  predicate Ordered(ms: seq<Match>) {
    forall a, b :: 0 <= a < b < |ms| ==> ms[a].end <= ms[b].start
  }

  lemma OrderedCons(m: Match, rest: seq<Match>)
    requires Ordered(rest)
    requires forall x :: x in rest ==> m.end <= x.start
    ensures Ordered([m] + rest)
  {
    var ms := [m] + rest;
    forall a, b | 0 <= a < b < |ms| ensures ms[a].end <= ms[b].start {
      assert ms[b] == rest[b - 1];
      if a > 0 {
        assert ms[a] == rest[a - 1];
      }
    }
  }

  /** The matches come out from left to right and do not overlap. */
  lemma {:induction false} FindAllOrdered(text: string, pat: Pattern, pos: nat)
    ensures Ordered(FindAll(text, pat, pos))
    decreases |text| - pos
  {
    if pos < |text| {
      match MatchAt(text, pat, pos)
      case Some(m) =>
        FindAllOrdered(text, pat, m.end);
        FindAllSound(text, pat, m.end);
        OrderedCons(m, FindAll(text, pat, m.end));
      case None =>
        FindAllOrdered(text, pat, pos + 1);
    }
  }

  /** What the code makes of each match of `pat`, in the order of the matches. */
  function Emit<T>(pat: Pattern, ms: seq<Match>, f: (Pattern, Match) -> seq<T>): seq<T>
    decreases |ms|
  {
    if |ms| == 0 then [] else Emit(pat, ms[..|ms| - 1], f) + f(pat, ms[|ms| - 1])
  }

  /** Handling one more match appends what `f` makes of it. */
  lemma EmitStep<T>(pat: Pattern, ms: seq<Match>, j: nat, f: (Pattern, Match) -> seq<T>)
    requires j < |ms|
    ensures Emit(pat, ms[..j + 1], f) == Emit(pat, ms[..j], f) + f(pat, ms[j])
  {
    assert ms[..j + 1][..j] == ms[..j];
  }

  /** Appending what match `j` yields to the output so far extends it by that match. */
  lemma EmitAppend<T>(before: seq<T>, pat: Pattern, ms: seq<Match>, j: nat, f: (Pattern, Match) -> seq<T>, found: seq<T>)
    requires j < |ms| && found == f(pat, ms[j])
    ensures (before + Emit(pat, ms[..j], f)) + found == before + Emit(pat, ms[..j + 1], f)
  {
    EmitStep(pat, ms, j, f);
    assert (before + Emit(pat, ms[..j], f)) + found == before + (Emit(pat, ms[..j], f) + found);
  }

  /**
   * The loop `for pattern in pats[:n]: for match in re.findall(pattern, text): ...`
   * appending what `f` makes of each match.
   */
  function Collect<T>(text: string, pats: seq<Pattern>, n: nat, f: (Pattern, Match) -> seq<T>): seq<T>
    requires n <= |pats|
    decreases n
  {
    if n == 0 then []
    else Collect(text, pats, n - 1, f) + Emit(pats[n - 1], FindAll(text, pats[n - 1], 0), f)
  }

  /** Finishing pattern `k` extends the output of the first `k` patterns by what its matches yield. */
  lemma CollectStep<T>(text: string, pats: seq<Pattern>, k: nat, f: (Pattern, Match) -> seq<T>, before: seq<T>, matches: seq<Match>)
    requires k < |pats| && before == Collect(text, pats, k, f) && matches == FindAll(text, pats[k], 0)
    ensures before + Emit(pats[k], matches, f) == Collect(text, pats, k + 1, f)
  {
  }

  lemma {:induction false} EmitIff<T>(pat: Pattern, ms: seq<Match>, f: (Pattern, Match) -> seq<T>, x: T)
    ensures x in Emit(pat, ms, f) <==> exists m :: m in ms && x in f(pat, m)
    decreases |ms|
  {
    if |ms| > 0 {
      var front := ms[..|ms| - 1];
      EmitIff(pat, front, f, x);
      assert ms == front + [ms[|ms| - 1]];
      assert forall m :: m in ms <==> m in front || m == ms[|ms| - 1];
    }
  }

  /** Whatever is collected comes from a match of one of the first `n` patterns. */
  lemma {:induction false} CollectSound<T>(text: string, pats: seq<Pattern>, n: nat, f: (Pattern, Match) -> seq<T>, x: T)
    requires n <= |pats|
    requires x in Collect(text, pats, n, f)
    ensures exists q, i :: 0 <= q < n && MatchAt(text, pats[q], i).Some? && x in f(pats[q], MatchAt(text, pats[q], i).value)
    decreases n
  {
    var p := pats[n - 1];
    if x in Collect(text, pats, n - 1, f) {
      CollectSound(text, pats, n - 1, f, x);
    } else {
      EmitIff(p, FindAll(text, p, 0), f, x);
      FindAllSound(text, p, 0);
      var m :| m in FindAll(text, p, 0) && x in f(p, m);
      assert MatchAt(text, pats[n - 1], m.start).Some?;
    }
  }

  /** For plain literals, whatever a match of one of the first `n` patterns yields is collected. */
  lemma {:induction false} CollectComplete<T>(text: string, pats: seq<Pattern>, n: nat, f: (Pattern, Match) -> seq<T>, x: T, q: nat, i: nat)
    requires n <= |pats| && q < n && Plain(pats[q].literal)
    requires MatchAt(text, pats[q], i).Some? && x in f(pats[q], MatchAt(text, pats[q], i).value)
    ensures x in Collect(text, pats, n, f)
    decreases n
  {
    if q < n - 1 {
      CollectComplete(text, pats, n - 1, f, x, q, i);
    } else {
      var p := pats[q];
      FindAllComplete(text, p, 0, i);
      EmitIff(p, FindAll(text, p, 0), f, x);
    }
  }

  /**
   * An item is collected exactly when one of the patterns matches somewhere in
   * the text and the item comes from that match.
   */
  lemma CollectIff<T>(text: string, pats: seq<Pattern>, f: (Pattern, Match) -> seq<T>, x: T)
    requires forall q :: 0 <= q < |pats| ==> Plain(pats[q].literal)
    ensures x in Collect(text, pats, |pats|, f) <==>
      exists q, i :: 0 <= q < |pats| && MatchAt(text, pats[q], i).Some? && x in f(pats[q], MatchAt(text, pats[q], i).value)
  {
    if x in Collect(text, pats, |pats|, f) {
      CollectSound(text, pats, |pats|, f, x);
    }
    forall q, i | 0 <= q < |pats| && MatchAt(text, pats[q], i).Some? && x in f(pats[q], MatchAt(text, pats[q], i).value)
      ensures x in Collect(text, pats, |pats|, f)
    {
      CollectComplete(text, pats, |pats|, f, x, q, i);
    }
  }
}
