/**
 * The worked example at the end of enhanced_metadata.py: a chunk of a PDF
 * that mentions "Figure 8.3" and a diagram, its enhanced metadata, and the
 * entry the formatter makes of it.
 */
module ExampleUsage {
  import opened Wrappers
  import opened PyText
  import opened PyPath
  import opened Json
  import opened Patterns
  import opened Enrichment
  import opened ActionFormatter

  /** The first sixteen characters of the example chunk. */
  const Opening := "\n    Figure 8.3 "

  /**
   * The rest of the example chunk. It is written in 32-character pieces only
   * so that the digit check below can go piece by piece: checking every
   * character of the whole literal at once is far costlier for the verifier.
   */
  const Body := "shows a cross-section of a strat" + "ovolcano.\n    These composite vo" + "lcanoes form from alternating la"
    + "yers\n    of lava flows and pyroc" + "lastic material, as illustrated\n" + "    in the diagram.\n    "

  /** The triple-quoted `text` of `example_usage`. */
  const ExampleText := Opening + Body

  predicate NoDigits(s: string) {
    forall k :: 0 <= k < |s| ==> !IsDigit(s[k])
  }

  /** None of the pieces of the body holds a digit (one lemma per piece, for the reason given at `Body`). */
  lemma BodyPiece0()
    ensures NoDigits("shows a cross-section of a strat")
  {
  }

  lemma BodyPiece1()
    ensures NoDigits("ovolcano.\n    These composite vo")
  {
  }

  lemma BodyPiece2()
    ensures NoDigits("lcanoes form from alternating la")
  {
  }

  lemma BodyPiece3()
    ensures NoDigits("yers\n    of lava flows and pyroc")
  {
  }

  lemma BodyPiece4()
    ensures NoDigits("lastic material, as illustrated\n")
  {
  }

  lemma BodyPiece5()
    ensures NoDigits("    in the diagram.\n    ")
  {
  }

  /** The only digits of the example are the `8` and the `3` of "8.3". */
  lemma ExampleDigits(k: nat)
    requires k < |ExampleText| && IsDigit(ExampleText[k])
    ensures k == 12 || k == 14
  {
    BodyPiece0();
    BodyPiece1();
    BodyPiece2();
    BodyPiece3();
    BodyPiece4();
    BodyPiece5();
  }

  /**
   * A chunk that opens like the example and has no other digits: everything
   * the extractors see of the example.
   */
  predicate ExampleShaped(text: string) {
    && |text| >= 16 && text[..16] == Opening
    && forall k :: 0 <= k < |text| && IsDigit(text[k]) ==> k == 12 || k == 14
  }

  lemma ExampleShape()
    ensures ExampleShaped(ExampleText)
  {
    assert ExampleText[..16] == Opening;
    forall k | 0 <= k < |ExampleText| && IsDigit(ExampleText[k])
      ensures k == 12 || k == 14
    {
      ExampleDigits(k);
    }
  }

  /** The characters of the opening, read off a chunk shaped like the example. */
  lemma OpeningChars(text: string)
    requires ExampleShaped(text)
    ensures text[4] == ' ' && text[5] == 'F' && text[6] == 'i' && text[7] == 'g' && text[8] == 'u'
    ensures text[9] == 'r' && text[10] == 'e' && text[11] == ' ' && text[12] == '8' && text[13] == '.'
    ensures text[14] == '3' && text[15] == ' '
  {
    var o := text[..16];
    assert o == Opening;
    assert o[4] == ' ' && o[5] == 'F' && o[6] == 'i' && o[7] == 'g' && o[8] == 'u';
    assert o[9] == 'r' && o[10] == 'e' && o[11] == ' ' && o[12] == '8' && o[13] == '.';
    assert o[14] == '3' && o[15] == ' ';
  }

  /** Every match of any pattern in the example has its literal end just before "8.3". */
  lemma ExampleMatchEnd(text: string, pat: Pattern, i: nat)
    requires ExampleShaped(text) && MatchAt(text, pat, i).Some?
    ensures i + |pat.literal| == 11
  {
    MatchDigit(text, pat, i);
    OpeningChars(text);
  }

  /** None of the other literals ends at position 11 of the example. */
  lemma OtherLiteralsAbsent(text: string)
    requires ExampleShaped(text)
    ensures !LiteralAt(text, 7, "Fig.")
    ensures !LiteralAt(text, 4, "Diagram")
    ensures !LiteralAt(text, 6, "Table")
    ensures !LiteralAt(text, 6, "Chart")
    ensures !LiteralAt(text, 4, "Exhibit")
    ensures !LiteralAt(text, 7, "page")
    ensures !LiteralAt(text, 9, "p.")
    ensures !LiteralAt(text, 8, "pp.")
  {
    OpeningChars(text);
    assert LowerChar(text[7]) != LowerChar("Fig."[0]);
    assert LowerChar(text[4]) != LowerChar("Diagram"[0]);
    assert LowerChar(text[6]) != LowerChar("Table"[0]);
    assert LowerChar(text[6]) != LowerChar("Chart"[0]);
    assert LowerChar(text[4]) != LowerChar("Exhibit"[0]);
    assert LowerChar(text[7]) != LowerChar("page"[0]);
    assert LowerChar(text[9]) != LowerChar("p."[0]);
    assert LowerChar(text[8]) != LowerChar("pp."[0]);
  }

  /** The one figure match of the example: `Figure` at position 5, with the number "8.3". */
  lemma ExampleFigureMatch(text: string)
    requires ExampleShaped(text)
    ensures MatchAt(text, FigurePatterns[0], 5) == Some(Match(5, 15, ["8.3"]))
  {
    OpeningChars(text);
    assert LiteralAt(text, 5, "Figure");
    assert SpaceEnd(text, 11) == 12;
    assert DigitEnd(text, 12) == 13;
    assert DigitEnd(text, 14) == 15;
    assert text[12..15] == "8.3";
  }

  /** The pattern literals, one by one. */
  lemma PatternLiterals()
    ensures |FigurePatterns| == 7 && |PagePatterns| == 3
    ensures FigurePatterns[0].literal == "Figure" && FigurePatterns[1].literal == "Fig."
    ensures FigurePatterns[2].literal == "Diagram" && FigurePatterns[3].literal == "Table"
    ensures FigurePatterns[4].literal == "Chart" && FigurePatterns[5].literal == "Illustration"
    ensures FigurePatterns[6].literal == "Exhibit"
    ensures PagePatterns[0].literal == "page" && PagePatterns[1].literal == "p." && PagePatterns[2].literal == "pp."
  {
  }

  /** No other figure pattern, and no other position, matches in the example. */
  lemma ExampleOnlyFigureMatch(text: string, q: nat, i: nat)
    requires ExampleShaped(text)
    requires q < |FigurePatterns| && MatchAt(text, FigurePatterns[q], i).Some?
    ensures q == 0 && i == 5
  {
    ExampleMatchEnd(text, FigurePatterns[q], i);
    MatchText(text, FigurePatterns[q], i);
    OtherLiteralsAbsent(text);
    PatternLiterals();
  }

  /** No page pattern matches in the example. */
  lemma ExampleNoPageMatch(text: string, q: nat, i: nat)
    requires ExampleShaped(text) && q < |PagePatterns|
    ensures MatchAt(text, PagePatterns[q], i).None?
  {
    if MatchAt(text, PagePatterns[q], i).Some? {
      ExampleMatchEnd(text, PagePatterns[q], i);
      MatchText(text, PagePatterns[q], i);
      OtherLiteralsAbsent(text);
      PatternLiterals();
    }
  }

  /** The example's figure references are exactly ["Figure 8.3"]. */
  lemma ExampleFigures(text: string)
    requires ExampleShaped(text)
    ensures FigureReferences(text) == ["Figure 8.3"]
  {
    ExampleFigureMatch(text);
    forall q, i | 0 <= q < |FigurePatterns| && MatchAt(text, FigurePatterns[q], i).Some?
      ensures q == 0 && i == 5
    {
      ExampleOnlyFigureMatch(text, q, i);
    }
    FigureReferencesSingle(text, 0, 5);
    assert FigurePatterns[0].literal + " " + "8.3" == "Figure 8.3";
  }

  /** The example has no page references. */
  lemma ExamplePages(text: string)
    requires ExampleShaped(text)
    ensures PageReferences(text) == []
  {
    var refs := PageReferences(text);
    if refs != [] {
      PageReferencesIff(text, refs[0]);
      var q, i :| 0 <= q < |PagePatterns| && PageAt(text, PagePatterns[q], i, refs[0]);
      ExampleNoPageMatch(text, q, i);
    }
  }

  /** The example mentions a figure, so it is flagged as visual. */
  lemma ExampleVisual(text: string)
    requires ExampleShaped(text)
    ensures HasVisualContent(text)
  {
    ExampleFigureMatch(text);
    FigureWordIsVisual(text, 0, 5);
  }

  /** `file_path` of the example. */
  const ExamplePath := "D:/Books" + "/" + "Earth Science.pdf"

  lemma ExampleName()
    ensures Name(ExamplePath) == "Earth Science.pdf"
  {
    NameOfJoin("D:/Books", "Earth Science.pdf");
  }

  lemma ExampleSuffix()
    ensures SuffixOfName("Earth Science.pdf") == ".pdf"
  {
    assert LastDot("Earth Science.pdf", 17) == 13;
  }

  lemma ExamplePathText()
    ensures ExamplePath == "D:/Books/Earth Science.pdf"
  {
  }

  /** The example's file is named "Earth Science.pdf" and its type is "pdf". */
  lemma ExamplePathFields()
    ensures Name(ExamplePath) == "Earth Science.pdf"
    ensures FileType(ExamplePath) == "pdf"
  {
    ExampleName();
    ExampleSuffix();
    assert Lower(".pdf") == ".pdf";
  }

  /** The identity fields of the example's metadata, as in the commented output. */
  lemma ExampleIdentity(path: string, text: string)
    requires path == ExamplePath && text == ExampleText
    ensures var m := CreateEnhancedMetadata(path, "Personal Library", "books", 187, text, Some(187));
      && IdentityKeys <= m.Keys
      && m["source"] == Str("D:/Books/Earth Science.pdf")
      && m["source_name"] == Str("Personal Library")
      && m["source_type"] == Str("books")
      && m["filename"] == Str("Earth Science.pdf")
      && m["file_type"] == Str("pdf")
      && m["chunk_index"] == Int(187)
  {
    EnhancedMetadataIdentity(path, "Personal Library", "books", 187, text, Some(187));
    ExamplePathFields();
    ExamplePathText();
  }

  /**
   * The optional fields of the example's metadata: the page number, the one
   * figure and the visual flag, and no `page_references`.
   */
  lemma ExampleExtras(path: string, text: string)
    requires ExampleShaped(text)
    ensures var m := CreateEnhancedMetadata(path, "Personal Library", "books", 187, text, Some(187));
      && "page_number" in m && m["page_number"] == Int(187)
      && "figures" in m && m["figures"] == List([Str("Figure 8.3")])
      && "has_visual_content" in m && m["has_visual_content"] == Bool(true)
      && "page_references" !in m
      && m.Keys <= IdentityKeys + OptionalKeys
  {
    ExampleFigures(text);
    ExamplePages(text);
    ExampleVisual(text);
    FiguresNonEmptyIff(text);
    PagesNonEmptyIff(text);
    EnhancedMetadataKeys(path, "Personal Library", "books", 187, text, Some(187));
    EnhancedMetadataExtras(path, "Personal Library", "books", 187, text, Some(187));
    assert StrList(["Figure 8.3"]) == List([Str("Figure 8.3")]);
  }

  /** The commented output of `create_enhanced_metadata` in the example. */
  const ExampleOutput: Dict := map[
    "source" := Str("D:/Books/Earth Science.pdf"),
    "source_name" := Str("Personal Library"),
    "source_type" := Str("books"),
    "filename" := Str("Earth Science.pdf"),
    "file_type" := Str("pdf"),
    "chunk_index" := Int(187),
    "page_number" := Int(187),
    "figures" := List([Str("Figure 8.3")]),
    "has_visual_content" := Bool(true)]

  /** The keys of the commented output: the identity keys and three of the optional ones. */
  lemma ExampleOutputKeys(m: Dict)
    requires IdentityKeys <= m.Keys <= IdentityKeys + OptionalKeys
    requires "page_number" in m && "figures" in m && "has_visual_content" in m && "page_references" !in m
    ensures m.Keys == ExampleOutput.Keys
  {
    var keys := IdentityKeys + {"page_number", "figures", "has_visual_content"};
    assert ExampleOutput.Keys == keys;
    assert OptionalKeys == {"page_number", "figures", "has_visual_content"} + {"page_references"};
  }

  /** Any dictionary with exactly the example's keys and values is the commented output. */
  lemma IsExampleOutput(m: Dict)
    requires IdentityKeys <= m.Keys <= IdentityKeys + OptionalKeys
    requires "page_number" in m && "figures" in m && "has_visual_content" in m && "page_references" !in m
    requires m["source"] == Str("D:/Books/Earth Science.pdf")
    requires m["source_name"] == Str("Personal Library")
    requires m["source_type"] == Str("books")
    requires m["filename"] == Str("Earth Science.pdf")
    requires m["file_type"] == Str("pdf")
    requires m["chunk_index"] == Int(187)
    requires m["page_number"] == Int(187)
    requires m["figures"] == List([Str("Figure 8.3")])
    requires m["has_visual_content"] == Bool(true)
    ensures m == ExampleOutput
  {
    ExampleOutputKeys(m);
    forall k | k in m
      ensures m[k] == ExampleOutput[k]
    {
    }
  }

  /** `create_enhanced_metadata` on the example gives exactly the commented output. */
  lemma ExampleMetadata(path: string, text: string)
    requires path == ExamplePath && text == ExampleText
    ensures CreateEnhancedMetadata(path, "Personal Library", "books", 187, text, Some(187)) == ExampleOutput
  {
    ExampleIdentity(path, text);
    ExampleShape();
    ExampleExtras(path, text);
    IsExampleOutput(CreateEnhancedMetadata(path, "Personal Library", "books", 187, text, Some(187)));
  }

  lemma Label187()
    ensures "Open PDF (page " + IntToString(187) + ")" == "Open PDF (page 187)"
  {
    assert NatToString(187) == "187";
  }

  /** The entry for any metadata with the example's fields. */
  lemma FormattedExampleFields(m: Dict)
    requires "source" in m && m["source"] == Str("D:/Books/Earth Science.pdf")
    requires "source_type" in m && m["source_type"] == Str("books")
    requires "filename" in m && m["filename"] == Str("Earth Science.pdf")
    requires "file_type" in m && m["file_type"] == Str("pdf")
    requires "page_number" in m && m["page_number"] == Int(187)
    requires "figures" in m && m["figures"] == List([Str("Figure 8.3")])
    requires "has_visual_content" in m && m["has_visual_content"] == Bool(true)
    ensures var f := FormatSourceWithAction(m, 1.0);
      && f.Some?
      && f.value.Keys == SourceKeys
      && f.value["filename"] == Str("Earth Science.pdf")
      && f.value["source_type"] == Str("books")
      && f.value["relevance"] == Float(1.0)
      && f.value["page_number"] == Int(187)
      && f.value["figures"] == List([Str("Figure 8.3")])
      && f.value["action"] == Obj(map[
           "type" := Str("open_pdf"),
           "file_path" := Str("D:/Books/Earth Science.pdf"),
           "page" := Int(187),
           "label" := Str("Open PDF (page 187)")])
      && f.value["has_visual"] == Bool(true)
  {
    FormatFailsIff(m, 1.0);
    FormatSourceDefaults(m, 1.0);
    FormatSourceCopies(m, 1.0);
    FormatSourceAction(m, 1.0);
    FormatSourceVisual(m, 1.0);
    Label187();
  }

  /** The entry the formatter makes of the example, with the relevance 1.0. */
  const ExampleEntry: Dict := map[
    "filename" := Str("Earth Science.pdf"),
    "source_type" := Str("books"),
    "relevance" := Float(1.0),
    "page_number" := Int(187),
    "figures" := List([Str("Figure 8.3")]),
    "action" := Obj(map[
      "type" := Str("open_pdf"),
      "file_path" := Str("D:/Books/Earth Science.pdf"),
      "page" := Int(187),
      "label" := Str("Open PDF (page 187)")]),
    "has_visual" := Bool(true)]

  /** Any entry with exactly the example's keys and values is the example's entry. */
  lemma IsExampleEntry(f: Dict)
    requires f.Keys == SourceKeys
    requires f["filename"] == Str("Earth Science.pdf")
    requires f["source_type"] == Str("books")
    requires f["relevance"] == Float(1.0)
    requires f["page_number"] == Int(187)
    requires f["figures"] == List([Str("Figure 8.3")])
    requires f["action"] == ExampleEntry["action"]
    requires f["has_visual"] == Bool(true)
    ensures f == ExampleEntry
  {
    assert ExampleEntry.Keys == SourceKeys;
    forall k | k in f
      ensures f[k] == ExampleEntry[k]
    {
    }
  }

  /**
   * The formatted example: the commented output's fields with those values,
   * an action that opens the file at page 187, and also the relevance 1.0,
   * which the code adds and the commented output leaves out.
   */
  lemma ExampleFormatted(path: string, text: string)
    requires path == ExamplePath && text == ExampleText
    ensures FormatSourceWithAction(CreateEnhancedMetadata(path, "Personal Library", "books", 187, text, Some(187)), 1.0)
      == Some(ExampleEntry)
  {
    var m := CreateEnhancedMetadata(path, "Personal Library", "books", 187, text, Some(187));
    ExampleIdentity(path, text);
    ExampleShape();
    ExampleExtras(path, text);
    FormattedExampleFields(m);
    IsExampleEntry(FormatSourceWithAction(m, 1.0).value);
  }
}
