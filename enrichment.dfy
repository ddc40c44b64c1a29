/**
 * `EnhancedMetadataExtractor` of enhanced_metadata.py: figure and page
 * references found by fixed patterns, the visual-keyword flag, and the
 * metadata dictionary whose optional keys depend on them.
 */
module Enrichment {
  import opened Wrappers
  import opened PyText
  import opened PyPath
  import opened Json
  import opened Patterns

  /** `FIGURE_PATTERNS`, in order; each label is the pattern's first word without its backslash. */
  const FigurePatterns: seq<Pattern> := [
    Pattern("Figure", Decimal),
    Pattern("Fig.", Decimal),
    Pattern("Diagram", Decimal),
    Pattern("Table", Decimal),
    Pattern("Chart", Decimal),
    Pattern("Illustration", Decimal),
    Pattern("Exhibit", Decimal)]

  /** `PAGE_PATTERNS`, in order. */
  const PagePatterns: seq<Pattern> := [
    Pattern("page", Whole),
    Pattern("p.", Whole),
    Pattern("pp.", Span)]

  lemma PatternsArePlain()
    ensures forall q :: 0 <= q < |FigurePatterns| ==> Plain(FigurePatterns[q].literal)
    ensures forall q :: 0 <= q < |PagePatterns| ==> Plain(PagePatterns[q].literal)
  {
    forall q | 0 <= q < |FigurePatterns|
      ensures Plain(FigurePatterns[q].literal)
    {
      WordIsPlain(FigurePatterns[q].literal);
    }
    forall q | 0 <= q < |PagePatterns|
      ensures Plain(PagePatterns[q].literal)
    {
      WordIsPlain(PagePatterns[q].literal);
    }
  }

  /** A word of ASCII letters, possibly with dots after the first, is a plain literal. */
  lemma WordIsPlain(lit: string)
    requires |lit| > 0 && IsAsciiLetter(lit[0])
    requires forall k :: 0 <= k < |lit| ==> IsAsciiLetter(lit[k]) || lit[k] == '.'
    ensures Plain(lit)
  {
    forall k | 0 <= k < |lit|
      ensures !IsSpace(lit[k])
    {
      assert IsAsciiLetter(lit[k]) || lit[k] == '.';
    }
  }

  /** Group `k` of a match (every match of these patterns has the groups used). */
  function Group(m: Match, k: nat): string {
    if k < |m.groups| then m.groups[k] else ""
  }

  /** `int(s)` on a run of digits; matched groups are always such runs (`MatchGroups`). */
  function IntOf(s: string): nat {
    if forall k :: 0 <= k < |s| ==> IsDigit(s[k]) then ParseNat(s) else 0
  }

  /** `list(set(xs))`: each element once. The order of a Python set is not modelled; first occurrences are kept. */
  function Unique(xs: seq<string>): (r: seq<string>)
    ensures forall a, b :: 0 <= a < b < |r| ==> r[a] != r[b]
    ensures forall x :: x in r <==> x in xs
    decreases |xs|
  {
    if |xs| == 0 then []
    else
      var front := Unique(xs[..|xs| - 1]);
      var x := xs[|xs| - 1];
      assert forall y :: y in xs <==> y in xs[..|xs| - 1] || y == x;
      if x in front then front else front + [x]
  }

  // ---------------------------------------------------------------- figures

  /** `f"{ref_type} {match}"` for one match. */
  function FigureLabel(p: Pattern, m: Match): seq<string> {
    [p.literal + " " + Group(m, 0)]
  }

  /** The list `references` before de-duplication. */
  function FigureMentions(text: string): seq<string> {
    Collect(text, FigurePatterns, |FigurePatterns|, FigureLabel)
  }

  /** The result of `extract_figure_references`. */
  function FigureReferences(text: string): seq<string> {
    Unique(FigureMentions(text))
  }

  /** `extract_figure_references`: the two loops over patterns and matches, then `list(set(...))`. */
  method ExtractFigureReferences(text: string) returns (refs: seq<string>)
    ensures refs == FigureReferences(text)
  {
    var references: seq<string> := [];
    var k := 0;
    while k < |FigurePatterns|
      invariant 0 <= k <= |FigurePatterns|
      invariant references == Collect(text, FigurePatterns, k, FigureLabel)
    {
      var pattern := FigurePatterns[k];
      var matches := FindAll(text, pattern, 0);
      ghost var before := references;
      var j := 0;
      while j < |matches|
        invariant 0 <= j <= |matches|
        invariant references == before + Emit(pattern, matches[..j], FigureLabel)
      {
        var refType := pattern.literal;
        var found := [refType + " " + Group(matches[j], 0)];
        EmitAppend(before, pattern, matches, j, FigureLabel, found);
        references := references + found;
        j := j + 1;
      }
      assert matches[..j] == matches;
      CollectStep(text, FigurePatterns, k, FigureLabel, before, matches);
      k := k + 1;
    }
    refs := Unique(references);
  }

  /** Pattern `pat` matches at `i` and yields the reference `r`. */
  predicate FigureAt(text: string, pat: Pattern, i: nat, r: string) {
    MatchAt(text, pat, i).Some? && r == pat.literal + " " + Group(MatchAt(text, pat, i).value, 0)
  }

  /**
   * The figure references are free of duplicates, and a string is one of them
   * exactly when some figure pattern matches somewhere in the text and labels
   * its number that way.
   */
  lemma FigureReferencesIff(text: string, r: string)
    ensures var refs := FigureReferences(text);
      forall a, b :: 0 <= a < b < |refs| ==> refs[a] != refs[b]
    ensures r in FigureReferences(text) <==>
      exists q, i :: 0 <= q < |FigurePatterns| && FigureAt(text, FigurePatterns[q], i, r)
  {
    PatternsArePlain();
    FigureMentionsIff(text, FigurePatterns, r);
  }

  lemma FigureMentionsIff(text: string, pats: seq<Pattern>, r: string)
    requires forall q :: 0 <= q < |pats| ==> Plain(pats[q].literal)
    ensures r in Collect(text, pats, |pats|, FigureLabel) <==> exists q, i :: 0 <= q < |pats| && FigureAt(text, pats[q], i, r)
  {
    CollectIff(text, pats, FigureLabel, r);
    forall q, i | 0 <= q < |pats| && MatchAt(text, pats[q], i).Some?
      ensures r in FigureLabel(pats[q], MatchAt(text, pats[q], i).value) <==> FigureAt(text, pats[q], i, r)
    {
    }
    if r in Collect(text, pats, |pats|, FigureLabel) {
      var q, i :| 0 <= q < |pats| && MatchAt(text, pats[q], i).Some? && r in FigureLabel(pats[q], MatchAt(text, pats[q], i).value);
      assert FigureAt(text, pats[q], i, r);
    }
  }

  /** A list holding nothing but `x`, at least once, reduces to `[x]`. */
  lemma {:induction false} UniqueConstant(xs: seq<string>, x: string)
    requires |xs| > 0 && forall k :: 0 <= k < |xs| ==> xs[k] == x
    ensures Unique(xs) == [x]
    decreases |xs|
  {
    if |xs| > 1 {
      UniqueConstant(xs[..|xs| - 1], x);
    }
  }

  /** A text in which exactly one figure pattern matches, at one position, has exactly that one reference. */
  lemma FigureReferencesSingle(text: string, q0: nat, i0: nat)
    requires q0 < |FigurePatterns| && MatchAt(text, FigurePatterns[q0], i0).Some?
    requires forall q, i :: 0 <= q < |FigurePatterns| && MatchAt(text, FigurePatterns[q], i).Some? ==> q == q0 && i == i0
    ensures FigureReferences(text) == [FigurePatterns[q0].literal + " " + Group(MatchAt(text, FigurePatterns[q0], i0).value, 0)]
  {
    var r0 := FigurePatterns[q0].literal + " " + Group(MatchAt(text, FigurePatterns[q0], i0).value, 0);
    var mentions := FigureMentions(text);
    PatternsArePlain();
    FigureMentionsIff(text, FigurePatterns, r0);
    assert FigureAt(text, FigurePatterns[q0], i0, r0);
    forall k | 0 <= k < |mentions|
      ensures mentions[k] == r0
    {
      FigureMentionsIff(text, FigurePatterns, mentions[k]);
    }
    UniqueConstant(mentions, r0);
  }

  /**
   * Each reference is a label of the pattern list (whatever the case of the
   * word in the text), a space and a number of the form `\d+\.?\d*`.
   */
  lemma FigureReferenceShape(text: string, r: string)
    requires r in FigureReferences(text)
    ensures exists q, num :: 0 <= q < |FigurePatterns| && r == FigurePatterns[q].literal + " " + num && DecimalText(num)
  {
    FigureReferencesIff(text, r);
    assert forall q :: 0 <= q < |FigurePatterns| ==> FigurePatterns[q].capture == Decimal;
    DecimalReference(text, FigurePatterns, r);
  }

  /** A label built from a match of decimal-capturing patterns is a literal, a space and a decimal number. */
  lemma DecimalReference(text: string, pats: seq<Pattern>, r: string)
    requires forall q :: 0 <= q < |pats| ==> pats[q].capture == Decimal
    requires exists q, i :: 0 <= q < |pats| && FigureAt(text, pats[q], i, r)
    ensures exists q, num :: 0 <= q < |pats| && r == pats[q].literal + " " + num && DecimalText(num)
  {
    var q, i :| 0 <= q < |pats| && FigureAt(text, pats[q], i, r);
    var pat := pats[q];
    var m := MatchAt(text, pat, i).value;
    MatchGroups(text, pat, i);
    var num := m.groups[0];
    assert r == pat.literal + " " + num;
  }

  // ---------------------------------------------------------------- pages

  /** `range(lo, hi)`. */
  function Range(lo: int, hi: int): (r: seq<int>)
    ensures |r| == if hi <= lo then 0 else hi - lo
  {
    if hi <= lo then [] else seq(hi - lo, k requires 0 <= k < hi - lo => lo + k)
  }

  lemma RangeMembers(lo: int, hi: int, n: int)
    ensures n in Range(lo, hi) <==> lo <= n < hi
  {
    if lo <= n < hi {
      assert Range(lo, hi)[n - lo] == n;
    }
  }

  /** What one match adds to `pages`: the whole range for a two-group match, else its number. */
  function PageNumbers(p: Pattern, m: Match): seq<int> {
    if |m.groups| > 1 then Range(IntOf(Group(m, 0)), IntOf(Group(m, 1)) + 1)
    else [IntOf(Group(m, 0))]
  }

  lemma PageNumbersCases(p: Pattern, m: Match)
    ensures |m.groups| > 1 ==> PageNumbers(p, m) == Range(IntOf(Group(m, 0)), IntOf(Group(m, 1)) + 1)
    ensures |m.groups| <= 1 ==> PageNumbers(p, m) == [IntOf(Group(m, 0))]
  {
  }

  /** The list `pages` before `sorted(list(set(...)))`. */
  function PageMentions(text: string): seq<int> {
    Collect(text, PagePatterns, |PagePatterns|, PageNumbers)
  }

  predicate Increasing(s: seq<int>) {
    forall a, b :: 0 <= a < b < |s| ==> s[a] < s[b]
  }

  /** Adds `x` to a strictly increasing list. */
  function Insert(s: seq<int>, x: int): (r: seq<int>)
    requires Increasing(s)
    ensures Increasing(r)
    ensures forall y :: y in r <==> y in s || y == x
    decreases |s|
  {
    if |s| == 0 then [x]
    else if x < s[0] then [x] + s
    else if x == s[0] then s
    else
      var rest := Insert(s[1..], x);
      assert forall y :: y in s <==> y == s[0] || y in s[1..];
      forall y | y in rest ensures s[0] < y {
        if y != x {
          var j :| 0 <= j < |s| - 1 && s[1..][j] == y;
          assert s[j + 1] == y;
        }
      }
      var r := [s[0]] + rest;
      assert forall k :: 0 < k < |r| ==> r[k] == rest[k - 1] && r[k] in rest;
      r
  }

  /** `sorted(list(set(xs)))`. */
  function SortedSet(xs: seq<int>): (r: seq<int>)
    ensures Increasing(r)
    ensures forall y :: y in r <==> y in xs
    decreases |xs|
  {
    if |xs| == 0 then []
    else
      var x := xs[|xs| - 1];
      assert forall y :: y in xs <==> y in xs[..|xs| - 1] || y == x;
      Insert(SortedSet(xs[..|xs| - 1]), x)
  }

  /** The result of `extract_page_references`. */
  function PageReferences(text: string): seq<int> {
    SortedSet(PageMentions(text))
  }

  /** `extract_page_references`: the two loops, then `sorted(list(set(pages)))`. */
  method ExtractPageReferences(text: string) returns (refs: seq<int>)
    ensures refs == PageReferences(text)
  {
    var pages: seq<int> := [];
    var k := 0;
    while k < |PagePatterns|
      invariant 0 <= k <= |PagePatterns|
      invariant pages == Collect(text, PagePatterns, k, PageNumbers)
    {
      var pattern := PagePatterns[k];
      var matches := FindAll(text, pattern, 0);
      ghost var before := pages;
      var j := 0;
      while j < |matches|
        invariant 0 <= j <= |matches|
        invariant pages == before + Emit(pattern, matches[..j], PageNumbers)
      {
        var m := matches[j];
        var found: seq<int>;
        if |m.groups| > 1 {
          found := Range(IntOf(Group(m, 0)), IntOf(Group(m, 1)) + 1);
        } else {
          found := [IntOf(Group(m, 0))];
        }
        PageNumbersCases(pattern, m);
        EmitAppend(before, pattern, matches, j, PageNumbers, found);
        pages := pages + found;
        j := j + 1;
      }
      assert matches[..j] == matches;
      CollectStep(text, PagePatterns, k, PageNumbers, before, matches);
      k := k + 1;
    }
    refs := SortedSet(pages);
  }

  /** Pattern `pat` matches at `i` and that match contributes page `n`. */
  predicate PageAt(text: string, pat: Pattern, i: nat, n: int) {
    MatchAt(text, pat, i).Some? && n in PageNumbers(pat, MatchAt(text, pat, i).value)
  }

  /**
   * The page references are strictly increasing, and a number is one of them
   * exactly when some page pattern matches somewhere in the text and
   * contributes it.
   */
  lemma PageReferencesIff(text: string, n: int)
    ensures Increasing(PageReferences(text))
    ensures n in PageReferences(text) <==>
      exists q, i :: 0 <= q < |PagePatterns| && PageAt(text, PagePatterns[q], i, n)
  {
    PatternsArePlain();
    PageMentionsIff(text, PagePatterns, n);
  }

  lemma PageMentionsIff(text: string, pats: seq<Pattern>, n: int)
    requires forall q :: 0 <= q < |pats| ==> Plain(pats[q].literal)
    ensures n in Collect(text, pats, |pats|, PageNumbers) <==> exists q, i :: 0 <= q < |pats| && PageAt(text, pats[q], i, n)
  {
    CollectIff(text, pats, PageNumbers, n);
    if n in Collect(text, pats, |pats|, PageNumbers) {
      var q, i :| 0 <= q < |pats| && MatchAt(text, pats[q], i).Some? && n in PageNumbers(pats[q], MatchAt(text, pats[q], i).value);
      assert PageAt(text, pats[q], i, n);
    } else {
      forall q, i | 0 <= q < |pats| ensures !PageAt(text, pats[q], i, n) {
      }
    }
  }

  /**
   * A `pp. N-M` match contributes exactly the pages from `N` to `M`, and
   * nothing when `N > M`; a `page N` or `p. N` match contributes `N`.
   */
  lemma PageMatchContributes(text: string, q: nat, i: nat, n: int)
    requires q < |PagePatterns| && MatchAt(text, PagePatterns[q], i).Some?
    ensures var g := MatchAt(text, PagePatterns[q], i).value.groups;
      && (q == 2 ==> Digits(g[0]) && Digits(g[1]) && (PageAt(text, PagePatterns[q], i, n) <==> IntOf(g[0]) <= n <= IntOf(g[1])))
      && (q < 2 ==> Digits(g[0]) && (PageAt(text, PagePatterns[q], i, n) <==> n == IntOf(g[0])))
  {
    var p := PagePatterns[q];
    MatchGroups(text, p, i);
    var m := MatchAt(text, p, i).value;
    RangeMembers(IntOf(Group(m, 0)), IntOf(Group(m, 1)) + 1, n);
  }

  /**
   * The text `pp. N-M` is also matched by `p\.` one character later, with the
   * number `N`: page `N` is reported even when `N > M`.
   */
  lemma PageRangeAlsoSinglePage(text: string, i: nat)
    requires MatchAt(text, PagePatterns[2], i).Some?
    ensures var g := MatchAt(text, PagePatterns[2], i).value.groups;
      MatchAt(text, PagePatterns[1], i + 1).Some?
      && MatchAt(text, PagePatterns[1], i + 1).value.groups == [g[0]]
      && IntOf(g[0]) in PageReferences(text)
  {
    var g := MatchAt(text, PagePatterns[2], i).value.groups;
    assert PagePatterns[2].literal[1..] == PagePatterns[1].literal;
    SpanAlsoWhole(text, PagePatterns[2], PagePatterns[1], i);
    MatchGroups(text, PagePatterns[2], i);
    PageMatchContributes(text, 1, i + 1, IntOf(g[0]));
    PageReferencesIff(text, IntOf(g[0]));
  }

  // ---------------------------------------------------------------- visual keywords

  /** `visual_keywords`, in order. */
  const VisualKeywords: seq<string> := [
    "figure", "diagram", "chart", "graph", "table",
    "illustration", "image", "photo", "picture",
    "shows", "depicts", "illustrates", "shown in",
    "see figure", "as shown", "displayed in"]

  /** `any(keyword in text for keyword in keywords[j:])`. */
  function AnyKeyword(text: string, keywords: seq<string>, j: nat): bool
    decreases |keywords| - j
  {
    j < |keywords| && (Contains(text, keywords[j]) || AnyKeyword(text, keywords, j + 1))
  }

  /** `has_visual_content`. */
  function HasVisualContent(text: string): bool {
    AnyKeyword(Lower(text), VisualKeywords, 0)
  }

  lemma {:induction false} AnyKeywordIff(text: string, keywords: seq<string>, j: nat)
    ensures AnyKeyword(text, keywords, j) <==> exists q, i :: j <= q < |keywords| && OccursAt(keywords[q], text, i)
    decreases |keywords| - j
  {
    if j < |keywords| {
      AnyKeywordIff(text, keywords, j + 1);
      ContainsIff(text, keywords[j]);
    }
  }

  /** Visual content is flagged exactly when some keyword occurs in the lower-cased text. */
  lemma HasVisualContentIff(text: string)
    ensures HasVisualContent(text) <==> exists q, i :: 0 <= q < |VisualKeywords| && OccursAt(VisualKeywords[q], Lower(text), i)
  {
    AnyKeywordIff(Lower(text), VisualKeywords, 0);
  }

  /** A literal matched case-insensitively occurs, lower-cased, in the lower-cased text. */
  lemma LiteralAtLower(text: string, i: nat, lit: string)
    requires LiteralAt(text, i, lit)
    ensures OccursAt(Lower(lit), Lower(text), i)
  {
    assert Lower(text)[i..i + |lit|] == Lower(lit);
  }

  /** A literal whose lower-cased form is a keyword sets the visual flag wherever it occurs. */
  lemma KeywordLiteralIsVisual(text: string, i: nat, lit: string, q: nat)
    requires q < |VisualKeywords| && Lower(lit) == VisualKeywords[q]
    requires LiteralAt(text, i, lit)
    ensures HasVisualContent(text)
  {
    LiteralAtLower(text, i, lit);
    HasVisualContentIff(text);
  }

  /**
   * A match of the `Figure`, `Diagram`, `Table`, `Chart` or `Illustration`
   * pattern always comes with the visual flag, since its word lower-cased is a
   * keyword. (`Fig.` and `Exhibit` are not keywords.)
   */
  lemma FigureWordIsVisual(text: string, q: nat, i: nat)
    requires q == 0 || 2 <= q <= 5
    requires MatchAt(text, FigurePatterns[q], i).Some?
    ensures HasVisualContent(text)
  {
    var lit := FigurePatterns[q].literal;
    MatchText(text, FigurePatterns[q], i);
    var k := if q == 0 then 0 else if q == 2 then 1 else if q == 3 then 4 else if q == 4 then 2 else 5;
    LowerOfFigureWord(q, k);
    KeywordLiteralIsVisual(text, i, lit, k);
  }

  /** The five figure words that lower-case to a keyword, and which keyword. */
  lemma LowerOfFigureWord(q: nat, k: nat)
    requires (q, k) in {(0, 0), (2, 1), (3, 4), (4, 2), (5, 5)}
    ensures q < |FigurePatterns| && k < |VisualKeywords|
    ensures Lower(FigurePatterns[q].literal) == VisualKeywords[k]
  {
    var lit := FigurePatterns[q].literal;
    assert |Lower(lit)| == |VisualKeywords[k]|;
    forall j | 0 <= j < |lit|
      ensures Lower(lit)[j] == VisualKeywords[k][j]
    {
    }
  }

  // ---------------------------------------------------------------- metadata

  /** A list of strings as a metadata value. */
  function StrList(xs: seq<string>): (v: Value)
    ensures v.List? && |v.items| == |xs|
    ensures forall k :: 0 <= k < |xs| ==> v.items[k] == Str(xs[k])
  {
    List(seq(|xs|, k requires 0 <= k < |xs| => Str(xs[k])))
  }

  /** A list of integers as a metadata value. */
  function IntList(xs: seq<int>): (v: Value)
    ensures v.List? && |v.items| == |xs|
    ensures forall k :: 0 <= k < |xs| ==> v.items[k] == Int(xs[k])
  {
    List(seq(|xs|, k requires 0 <= k < |xs| => Int(xs[k])))
  }

  /** The keys every enhanced metadata dictionary has. */
  const IdentityKeys: set<string> := {"source", "source_name", "source_type", "filename", "file_type", "chunk_index"}

  /** The dictionary `metadata` as first built: the identity fields of the chunk. */
  function BaseMetadata(filePath: string, sourceName: string, sourceType: string, chunkIndex: int): Dict {
    map[
      "source" := Str(filePath),
      "source_name" := Str(sourceName),
      "source_type" := Str(sourceType),
      "filename" := Str(Name(filePath)),
      "file_type" := Str(FileType(filePath)),
      "chunk_index" := Int(chunkIndex)]
  }

  /** `if present: m[key] = v`. */
  function PutIf(m: Dict, present: bool, key: string, v: Value): (r: Dict)
    ensures forall k :: k in r <==> k in m || (present && k == key)
    ensures present ==> r[key] == v
    ensures forall k :: k in m && k != key ==> r[k] == m[k]
  {
    if present then m[key := v] else m
  }

  /** The optional keys added to `metadata`, in the order the code adds them. */
  function Enhance(metadata: Dict, pageNumber: Option<int>, figures: seq<string>, visual: bool, pageRefs: seq<int>): Dict {
    var withPage := match pageNumber
      case Some(p) => metadata["page_number" := Int(p)]
      case None => metadata;
    var withFigures := PutIf(withPage, figures != [], "figures", StrList(figures));
    var withVisual := PutIf(withFigures, visual, "has_visual_content", Bool(true));
    PutIf(withVisual, pageRefs != [], "page_references", IntList(pageRefs))
  }

  /** `create_enhanced_metadata`; `pageNumber` is `None` when the argument is omitted. */
  function CreateEnhancedMetadata(filePath: string, sourceName: string, sourceType: string, chunkIndex: int,
                                  chunkText: string, pageNumber: Option<int>): Dict
  {
    Enhance(BaseMetadata(filePath, sourceName, sourceType, chunkIndex), pageNumber,
            FigureReferences(chunkText), HasVisualContent(chunkText), PageReferences(chunkText))
  }

  /** The identity fields, as `create_metadata` builds them but without a timestamp. */
  lemma BaseMetadataFields(filePath: string, sourceName: string, sourceType: string, chunkIndex: int)
    ensures var m := BaseMetadata(filePath, sourceName, sourceType, chunkIndex);
      && m.Keys == IdentityKeys
      && m["source"] == Str(filePath)
      && m["source_name"] == Str(sourceName)
      && m["source_type"] == Str(sourceType)
      && m["filename"] == Str(Name(filePath))
      && m["file_type"] == Str(FileType(filePath))
      && m["chunk_index"] == Int(chunkIndex)
  {
    IdentityFields(filePath, sourceName, sourceType, Name(filePath), FileType(filePath), chunkIndex);
  }

  /** The six identity fields of a dictionary built from given values. */
  lemma IdentityFields(source: string, sourceName: string, sourceType: string, fileName: string, fileType: string, chunkIndex: int)
    ensures var m := map[
        "source" := Str(source),
        "source_name" := Str(sourceName),
        "source_type" := Str(sourceType),
        "filename" := Str(fileName),
        "file_type" := Str(fileType),
        "chunk_index" := Int(chunkIndex)];
      && m.Keys == IdentityKeys
      && m["source"] == Str(source)
      && m["source_name"] == Str(sourceName)
      && m["source_type"] == Str(sourceType)
      && m["filename"] == Str(fileName)
      && m["file_type"] == Str(fileType)
      && m["chunk_index"] == Int(chunkIndex)
  {
  }

  /** The keys `create_enhanced_metadata` may add. */
  const OptionalKeys: set<string> := {"page_number", "figures", "has_visual_content", "page_references"}

  lemma OptionalKeysAreNew()
    ensures IdentityKeys !! OptionalKeys
  {
  }

  /** Each optional key is added exactly when its condition holds, and the identity fields stay as they were. */
  lemma EnhanceEffect(metadata: Dict, pageNumber: Option<int>, figures: seq<string>, visual: bool, pageRefs: seq<int>)
    requires metadata.Keys == IdentityKeys
    ensures var m := Enhance(metadata, pageNumber, figures, visual, pageRefs);
      && IdentityKeys <= m.Keys <= IdentityKeys + OptionalKeys
      && (forall k :: k in IdentityKeys ==> m[k] == metadata[k])
      && ("page_number" in m <==> pageNumber.Some?)
      && ("figures" in m <==> figures != [])
      && ("has_visual_content" in m <==> visual)
      && ("page_references" in m <==> pageRefs != [])
      && (pageNumber.Some? ==> m["page_number"] == Int(pageNumber.value))
      && (figures != [] ==> m["figures"] == StrList(figures))
      && (visual ==> m["has_visual_content"] == Bool(true))
      && (pageRefs != [] ==> m["page_references"] == IntList(pageRefs))
  {
    OptionalKeysAreNew();
    var withPage := match pageNumber
      case Some(p) => metadata["page_number" := Int(p)]
      case None => metadata;
    assert IdentityKeys <= withPage.Keys <= IdentityKeys + {"page_number"};
    assert forall k :: k in IdentityKeys ==> withPage[k] == metadata[k];
    var withFigures := PutIf(withPage, figures != [], "figures", StrList(figures));
    var withVisual := PutIf(withFigures, visual, "has_visual_content", Bool(true));
    var m := PutIf(withVisual, pageRefs != [], "page_references", IntList(pageRefs));
    assert m == Enhance(metadata, pageNumber, figures, visual, pageRefs);
  }

  /** Some figure pattern matches somewhere in the text. */
  ghost predicate MentionsFigure(text: string) {
    exists q, i :: 0 <= q < |FigurePatterns| && MatchAt(text, FigurePatterns[q], i).Some?
  }

  /** Some page pattern matches somewhere in the text and contributes a page. */
  ghost predicate MentionsPage(text: string) {
    exists q, i, n :: 0 <= q < |PagePatterns| && PageAt(text, PagePatterns[q], i, n)
  }

  lemma FiguresNonEmptyIff(text: string)
    ensures FigureReferences(text) != [] <==> MentionsFigure(text)
  {
    if FigureReferences(text) != [] {
      FigureReferencesIff(text, FigureReferences(text)[0]);
    }
    if MentionsFigure(text) {
      var q, i :| 0 <= q < |FigurePatterns| && MatchAt(text, FigurePatterns[q], i).Some?;
      var r := FigurePatterns[q].literal + " " + Group(MatchAt(text, FigurePatterns[q], i).value, 0);
      FigureReferencesIff(text, r);
      assert FigureAt(text, FigurePatterns[q], i, r);
    }
  }

  lemma PagesNonEmptyIff(text: string)
    ensures PageReferences(text) != [] <==> MentionsPage(text)
  {
    if PageReferences(text) != [] {
      PageReferencesIff(text, PageReferences(text)[0]);
    }
    if MentionsPage(text) {
      var q, i, n :| 0 <= q < |PagePatterns| && PageAt(text, PagePatterns[q], i, n);
      PageReferencesIff(text, n);
    }
  }

  /**
   * The keys of the enhanced metadata: always the six identity fields;
   * `page_number` exactly when a page number is given; `figures` exactly when
   * some figure pattern matches; `has_visual_content` exactly when a visual
   * keyword occurs; `page_references` exactly when some page pattern
   * contributes a page; and no other key.
   */
  lemma EnhancedMetadataKeys(filePath: string, sourceName: string, sourceType: string, chunkIndex: int,
                             chunkText: string, pageNumber: Option<int>)
    ensures var m := CreateEnhancedMetadata(filePath, sourceName, sourceType, chunkIndex, chunkText, pageNumber);
      && IdentityKeys <= m.Keys
      && ("page_number" in m <==> pageNumber.Some?)
      && ("figures" in m <==> MentionsFigure(chunkText))
      && ("has_visual_content" in m <==> HasVisualContent(chunkText))
      && ("page_references" in m <==> MentionsPage(chunkText))
      && m.Keys <= IdentityKeys + OptionalKeys
  {
    BaseMetadataFields(filePath, sourceName, sourceType, chunkIndex);
    EnhanceEffect(BaseMetadata(filePath, sourceName, sourceType, chunkIndex), pageNumber,
                  FigureReferences(chunkText), HasVisualContent(chunkText), PageReferences(chunkText));
    FiguresNonEmptyIff(chunkText);
    PagesNonEmptyIff(chunkText);
  }

  /**
   * The values of the identity fields: the path, the names given, the file's
   * name, its lower-cased suffix without the dot, and the chunk index.
   */
  lemma EnhancedMetadataIdentity(filePath: string, sourceName: string, sourceType: string, chunkIndex: int,
                                 chunkText: string, pageNumber: Option<int>)
    ensures var m := CreateEnhancedMetadata(filePath, sourceName, sourceType, chunkIndex, chunkText, pageNumber);
      && IdentityKeys <= m.Keys
      && m["source"] == Str(filePath)
      && m["source_name"] == Str(sourceName)
      && m["source_type"] == Str(sourceType)
      && m["filename"] == Str(Name(filePath))
      && m["chunk_index"] == Int(chunkIndex)
      && m["file_type"] == Str(FileType(filePath))
      && '.' !in m["file_type"].s
      && (Suffix(filePath) == "" ==> m["file_type"] == Str(""))
      && (Suffix(filePath) != "" ==> m["file_type"] == Str(Lower(Suffix(filePath))[1..]))
  {
    BaseMetadataFields(filePath, sourceName, sourceType, chunkIndex);
    EnhanceEffect(BaseMetadata(filePath, sourceName, sourceType, chunkIndex), pageNumber,
                  FigureReferences(chunkText), HasVisualContent(chunkText), PageReferences(chunkText));
    FileTypeIsSuffixTail(filePath);
  }

  /**
   * The values of the optional fields: the page number given; the figure
   * references, each once; the flag, only ever `True`; the page references,
   * strictly increasing.
   */
  lemma EnhancedMetadataExtras(filePath: string, sourceName: string, sourceType: string, chunkIndex: int,
                               chunkText: string, pageNumber: Option<int>)
    ensures var m := CreateEnhancedMetadata(filePath, sourceName, sourceType, chunkIndex, chunkText, pageNumber);
      && (pageNumber.Some? ==> "page_number" in m && m["page_number"] == Int(pageNumber.value))
      && ("figures" in m ==> m["figures"] == StrList(FigureReferences(chunkText)))
      && ("has_visual_content" in m ==> m["has_visual_content"] == Bool(true))
      && ("page_references" in m ==> m["page_references"] == IntList(PageReferences(chunkText)))
  {
    BaseMetadataFields(filePath, sourceName, sourceType, chunkIndex);
    EnhanceEffect(BaseMetadata(filePath, sourceName, sourceType, chunkIndex), pageNumber,
                  FigureReferences(chunkText), HasVisualContent(chunkText), PageReferences(chunkText));
  }
}
