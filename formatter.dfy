/**
 * `OpenPDFActionFormatter` of enhanced_metadata.py: a search hit's metadata
 * becomes a result entry with defaults, copied optional fields, an optional
 * "open_pdf" action and a visual flag; a list of hits becomes a response.
 * Reading `metadata["source"]` for the action raises `KeyError` when the key
 * is missing; that outcome is `None`.
 */
module ActionFormatter {
  import opened Wrappers
  import opened PyText
  import opened PyPath
  import opened Json
  import opened Enrichment

  /** `metadata.get("file_type") == "pdf" and "page_number" in metadata`. */
  predicate OpensPdf(metadata: Dict) {
    Get(metadata, "file_type", Null) == Str("pdf") && "page_number" in metadata
  }

  /** The text of the action's button. */
  function ActionLabel(page: Value): string {
    "Open PDF (page " + Display(page) + ")"
  }

  /** The `action` dictionary for a PDF hit with a page number. */
  function PdfAction(metadata: Dict): Dict
    requires "source" in metadata && "page_number" in metadata
  {
    map[
      "type" := Str("open_pdf"),
      "file_path" := metadata["source"],
      "page" := metadata["page_number"],
      "label" := Str(ActionLabel(metadata["page_number"]))]
  }

  /** The keys a formatted source may have. */
  const SourceKeys: set<string> := {"filename", "source_type", "relevance", "page_number", "figures", "action", "has_visual"}

  /** The entry before the action: the two names or their defaults, the relevance, and the copied optional fields. */
  function SourceEntry(metadata: Dict, relevance: real): (e: Dict)
    ensures "filename" in e && e["filename"] == Get(metadata, "filename", Str("Unknown"))
    ensures "source_type" in e && e["source_type"] == Get(metadata, "source_type", Str("unknown"))
    ensures "relevance" in e && e["relevance"] == Float(relevance)
    ensures "page_number" in e <==> "page_number" in metadata
    ensures "page_number" in e ==> e["page_number"] == metadata["page_number"]
    ensures "figures" in e <==> "figures" in metadata
    ensures "figures" in e ==> e["figures"] == metadata["figures"]
    ensures e.Keys <= {"filename", "source_type", "relevance", "page_number", "figures"}
  {
    var source := map[
      "filename" := Get(metadata, "filename", Str("Unknown")),
      "source_type" := Get(metadata, "source_type", Str("unknown")),
      "relevance" := Float(relevance)];
    var withPage := PutIf(source, "page_number" in metadata, "page_number", Get(metadata, "page_number", Null));
    PutIf(withPage, "figures" in metadata, "figures", Get(metadata, "figures", Null))
  }

  /** The entry with the action added when the hit is a PDF with a page number. */
  function WithAction(entry: Dict, metadata: Dict): (e: Dict)
    requires OpensPdf(metadata) ==> "source" in metadata
    ensures "action" in e <==> "action" in entry || OpensPdf(metadata)
    ensures OpensPdf(metadata) ==> e["action"] == Obj(PdfAction(metadata))
    ensures forall k :: k in entry && k != "action" ==> k in e && e[k] == entry[k]
    ensures e.Keys <= entry.Keys + {"action"}
  {
    if OpensPdf(metadata) then entry["action" := Obj(PdfAction(metadata))] else entry
  }

  /** `format_source_with_action(metadata, relevance_score)`; `None` is the `KeyError` on a PDF hit without `source`. */
  function FormatSourceWithAction(metadata: Dict, relevance: real): Option<Dict> {
    if OpensPdf(metadata) && "source" !in metadata then None
    else
      var withAction := WithAction(SourceEntry(metadata, relevance), metadata);
      Some(PutIf(withAction, Truthy(Get(metadata, "has_visual_content", Null)), "has_visual", Bool(true)))
  }

  /** Formatting fails exactly for a PDF hit with a page number but no `source`. */
  lemma FormatFailsIff(metadata: Dict, relevance: real)
    ensures FormatSourceWithAction(metadata, relevance).None? <==>
      Get(metadata, "file_type", Null) == Str("pdf") && "page_number" in metadata && "source" !in metadata
  {
  }

  /** `filename` and `source_type` are copied or default to "Unknown" and "unknown"; the relevance is kept. */
  lemma FormatSourceDefaults(metadata: Dict, relevance: real)
    requires FormatSourceWithAction(metadata, relevance).Some?
    ensures var f := FormatSourceWithAction(metadata, relevance).value;
      && "filename" in f && "source_type" in f && "relevance" in f
      && f["filename"] == (if "filename" in metadata then metadata["filename"] else Str("Unknown"))
      && f["source_type"] == (if "source_type" in metadata then metadata["source_type"] else Str("unknown"))
      && f["relevance"] == Float(relevance)
  {
  }

  /** `page_number` and `figures` are copied exactly when present, and no key outside `SourceKeys` appears. */
  lemma FormatSourceCopies(metadata: Dict, relevance: real)
    requires FormatSourceWithAction(metadata, relevance).Some?
    ensures var f := FormatSourceWithAction(metadata, relevance).value;
      && f.Keys <= SourceKeys
      && ("page_number" in f <==> "page_number" in metadata)
      && ("page_number" in f ==> f["page_number"] == metadata["page_number"])
      && ("figures" in f <==> "figures" in metadata)
      && ("figures" in f ==> f["figures"] == metadata["figures"])
  {
  }

  /** `has_visual` appears, only ever as `True`, exactly when the metadata's flag is truthy. */
  lemma FormatSourceVisual(metadata: Dict, relevance: real)
    requires FormatSourceWithAction(metadata, relevance).Some?
    ensures var f := FormatSourceWithAction(metadata, relevance).value;
      && ("has_visual" in f <==> Truthy(Get(metadata, "has_visual_content", Null)))
      && ("has_visual" in f ==> f["has_visual"] == Bool(true))
  {
  }

  /** The action: present exactly for a PDF hit with a page number, and it opens `source` at that page. */
  lemma FormatSourceAction(metadata: Dict, relevance: real)
    requires FormatSourceWithAction(metadata, relevance).Some?
    ensures var f := FormatSourceWithAction(metadata, relevance).value;
      && ("action" in f <==> Get(metadata, "file_type", Null) == Str("pdf") && "page_number" in metadata)
      && ("action" in f ==>
            && "source" in metadata
            && f["action"] == Obj(map[
                 "type" := Str("open_pdf"),
                 "file_path" := metadata["source"],
                 "page" := metadata["page_number"],
                 "label" := Str("Open PDF (page " + Display(metadata["page_number"]) + ")")]))
  {
  }

  /**
   * Formatting a dictionary with the fields `create_enhanced_metadata` always
   * sets never fails, and the action is there exactly for a PDF with a page
   * number.
   */
  lemma FormatIdentified(m: Dict, filePath: string, pageNumber: Option<int>, visual: bool, relevance: real)
    requires "source" in m && m["source"] == Str(filePath)
    requires "file_type" in m && m["file_type"] == Str(FileType(filePath))
    requires "filename" in m && m["filename"] == Str(Name(filePath))
    requires ("page_number" in m <==> pageNumber.Some?) && (pageNumber.Some? ==> m["page_number"] == Int(pageNumber.value))
    requires ("has_visual_content" in m <==> visual) && (visual ==> m["has_visual_content"] == Bool(true))
    ensures var r := FormatSourceWithAction(m, relevance);
      && r.Some?
      && r.value["filename"] == Str(Name(filePath))
      && ("action" in r.value <==> FileType(filePath) == "pdf" && pageNumber.Some?)
      && ("action" in r.value ==> r.value["action"] == Obj(map[
            "type" := Str("open_pdf"),
            "file_path" := Str(filePath),
            "page" := Int(pageNumber.value),
            "label" := Str("Open PDF (page " + IntToString(pageNumber.value) + ")")]))
      && ("has_visual" in r.value <==> visual)
  {
    FormatFailsIff(m, relevance);
    FormatSourceDefaults(m, relevance);
    FormatSourceAction(m, relevance);
    FormatSourceVisual(m, relevance);
  }

  /**
   * Formatting the metadata `create_enhanced_metadata` builds never fails; it
   * offers to open the file exactly when it is a PDF and a page number was
   * given, labelled with that number, and flags exactly the chunks with
   * visual content.
   */
  lemma FormatEnhancedMetadata(filePath: string, sourceName: string, sourceType: string, chunkIndex: int,
                               chunkText: string, pageNumber: Option<int>, relevance: real)
    ensures var m := CreateEnhancedMetadata(filePath, sourceName, sourceType, chunkIndex, chunkText, pageNumber);
      var r := FormatSourceWithAction(m, relevance);
      && r.Some?
      && r.value["filename"] == Str(Name(filePath))
      && ("action" in r.value <==> FileType(filePath) == "pdf" && pageNumber.Some?)
      && ("action" in r.value ==> r.value["action"] == Obj(map[
            "type" := Str("open_pdf"),
            "file_path" := Str(filePath),
            "page" := Int(pageNumber.value),
            "label" := Str("Open PDF (page " + IntToString(pageNumber.value) + ")")]))
      && ("has_visual" in r.value <==> HasVisualContent(chunkText))
  {
    var m := CreateEnhancedMetadata(filePath, sourceName, sourceType, chunkIndex, chunkText, pageNumber);
    var base := BaseMetadata(filePath, sourceName, sourceType, chunkIndex);
    BaseMetadataFields(filePath, sourceName, sourceType, chunkIndex);
    EnhanceEffect(base, pageNumber, FigureReferences(chunkText), HasVisualContent(chunkText), PageReferences(chunkText));
    FormatIdentified(m, filePath, pageNumber, HasVisualContent(chunkText), relevance);
  }

  /** The hint added to a response some of whose sources have visual content. */
  const VisualNote := "Some sources contain figures or diagrams. Click 'Open PDF' to view them in context."

  /** Every source formatted with `f`, in order; `None` as soon as one of them fails. */
  function Collected(sources: seq<Dict>, f: Dict -> Option<Dict>): Option<seq<Dict>>
    decreases |sources|
  {
    if sources == [] then Some([])
    else
      match Collected(sources[..|sources| - 1], f)
      case None => None
      case Some(formatted) =>
        match f(sources[|sources| - 1])
        case None => None
        case Some(e) => Some(formatted + [e])
  }

  /** One source formatted with the default relevance 1.0. */
  function DefaultEntry(source: Dict): Option<Dict> {
    FormatSourceWithAction(source, 1.0)
  }

  /** Every source formatted with the default relevance 1.0, in order; `None` as soon as one of them fails. */
  function FormatAll(sources: seq<Dict>): Option<seq<Dict>> {
    Collected(sources, DefaultEntry)
  }

  lemma CollectedStep(sources: seq<Dict>, i: nat, f: Dict -> Option<Dict>)
    requires i < |sources|
    ensures Collected(sources[..i + 1], f) ==
      if Collected(sources[..i], f).None? || f(sources[i]).None? then None
      else Some(Collected(sources[..i], f).value + [f(sources[i]).value])
  {
    assert sources[..i + 1][..i] == sources[..i];
  }

  /** One more source: its entry is appended, or the whole formatting fails. */
  lemma FormatAllStep(sources: seq<Dict>, i: nat)
    requires i < |sources|
    ensures FormatAll(sources[..i + 1]) ==
      if FormatAll(sources[..i]).None? || FormatSourceWithAction(sources[i], 1.0).None? then None
      else Some(FormatAll(sources[..i]).value + [FormatSourceWithAction(sources[i], 1.0).value])
  {
    CollectedStep(sources, i, DefaultEntry);
  }

  /** Formatting the first `n` sources fails exactly when one of them fails, and otherwise yields each one's entry at its index. */
  lemma {:induction false} CollectedPrefixIff(sources: seq<Dict>, n: nat, f: Dict -> Option<Dict>)
    requires n <= |sources|
    ensures Collected(sources[..n], f).None? <==> exists i :: 0 <= i < n && f(sources[i]).None?
    ensures Collected(sources[..n], f).Some? ==>
      && |Collected(sources[..n], f).value| == n
      && forall i :: 0 <= i < n ==> f(sources[i]) == Some(Collected(sources[..n], f).value[i])
  {
    if n > 0 {
      CollectedPrefixIff(sources, n - 1, f);
      CollectedStep(sources, n - 1, f);
      var prev := Collected(sources[..n - 1], f);
      var cur := f(sources[n - 1]);
      if prev.None? {
        var i :| 0 <= i < n - 1 && f(sources[i]).None?;
        assert 0 <= i < n;
      } else if cur.Some? {
        var all := prev.value + [cur.value];
        assert Collected(sources[..n], f) == Some(all);
        forall i | 0 <= i < n
          ensures f(sources[i]) == Some(all[i])
        {
          if i < n - 1 {
            assert all[i] == prev.value[i];
          }
        }
      }
    }
  }

  /** Formatting all sources fails exactly when one source fails, and otherwise yields each source's entry at its index. */
  lemma FormatAllIff(sources: seq<Dict>)
    ensures FormatAll(sources).None? <==> exists i :: 0 <= i < |sources| && FormatSourceWithAction(sources[i], 1.0).None?
    ensures FormatAll(sources).Some? ==>
      && |FormatAll(sources).value| == |sources|
      && forall i :: 0 <= i < |sources| ==> FormatSourceWithAction(sources[i], 1.0) == Some(FormatAll(sources).value[i])
  {
    CollectedPrefixIff(sources, |sources|, DefaultEntry);
    assert sources[..|sources|] == sources;
  }

  /** The formatted sources as the JSON list of the response. */
  function Objs(formatted: seq<Dict>): (items: seq<Value>)
    ensures |items| == |formatted|
    ensures forall i :: 0 <= i < |formatted| ==> items[i] == Obj(formatted[i])
  {
    seq(|formatted|, i requires 0 <= i < |formatted| => Obj(formatted[i]))
  }

  /** Some formatted source carries a truthy `has_visual`. */
  predicate AnyVisual(formatted: seq<Dict>) {
    exists i :: 0 <= i < |formatted| && Truthy(Get(formatted[i], "has_visual", Null))
  }

  lemma AnyVisualStep(formatted: seq<Dict>, f: Dict)
    ensures AnyVisual(formatted + [f]) <==> AnyVisual(formatted) || Truthy(Get(f, "has_visual", Null))
  {
    var all := formatted + [f];
    assert all[|formatted|] == f;
    if AnyVisual(formatted) {
      var i :| 0 <= i < |formatted| && Truthy(Get(formatted[i], "has_visual", Null));
      assert all[i] == formatted[i];
    }
    if AnyVisual(all) {
      var i :| 0 <= i < |all| && Truthy(Get(all[i], "has_visual", Null));
      if i < |formatted| {
        assert all[i] == formatted[i];
      }
    }
  }

  /** The response dictionary for the formatted sources. */
  function Response(answer: string, formatted: seq<Dict>, showVisualHint: bool): Dict {
    var response := map["answer" := Str(answer), "sources" := List(Objs(formatted))];
    if showVisualHint && AnyVisual(formatted) then response["visual_content_note" := Str(VisualNote)] else response
  }

  /** `format_response_with_actions(answer, sources, show_visual_hint)`; a `KeyError` from any source is `None`. */
  function FormatResponse(answer: string, sources: seq<Dict>, showVisualHint: bool): Option<Dict> {
    match FormatAll(sources)
    case None => None
    case Some(formatted) => Some(Response(answer, formatted, showVisualHint))
  }

  /**
   * The response fails exactly when some source does; otherwise it holds the
   * answer and every source's entry in order, and the hint exactly when it is
   * asked for and some entry has `has_visual`.
   */
  lemma FormatResponseShape(answer: string, sources: seq<Dict>, showVisualHint: bool)
    ensures FormatResponse(answer, sources, showVisualHint).None? <==>
      exists i :: 0 <= i < |sources| && FormatSourceWithAction(sources[i], 1.0).None?
    ensures FormatResponse(answer, sources, showVisualHint).Some? ==>
      var response := FormatResponse(answer, sources, showVisualHint).value;
      && response.Keys <= {"answer", "sources", "visual_content_note"}
      && "answer" in response && response["answer"] == Str(answer)
      && "sources" in response && response["sources"].List?
      && |response["sources"].items| == |sources|
      && (forall i :: 0 <= i < |sources| ==>
            FormatSourceWithAction(sources[i], 1.0).Some? &&
            response["sources"].items[i] == Obj(FormatSourceWithAction(sources[i], 1.0).value))
      && ("visual_content_note" in response <==>
            showVisualHint && exists i :: 0 <= i < |sources| && "has_visual" in FormatSourceWithAction(sources[i], 1.0).value)
      && ("visual_content_note" in response ==> response["visual_content_note"] == Str(VisualNote))
  {
    FormatAllIff(sources);
    if FormatAll(sources).Some? {
      var formatted := FormatAll(sources).value;
      ResponseFields(answer, formatted, showVisualHint);
      forall i | 0 <= i < |sources|
        ensures Truthy(Get(formatted[i], "has_visual", Null)) <==> "has_visual" in FormatSourceWithAction(sources[i], 1.0).value
      {
        FormatSourceVisual(sources[i], 1.0);
      }
    }
  }

  /** The response for formatted entries: the answer, the entries in order, and the hint exactly when asked for and some entry is visual. */
  lemma ResponseFields(answer: string, formatted: seq<Dict>, showVisualHint: bool)
    ensures var response := Response(answer, formatted, showVisualHint);
      && response.Keys <= {"answer", "sources", "visual_content_note"}
      && "answer" in response && response["answer"] == Str(answer)
      && "sources" in response && response["sources"] == List(Objs(formatted))
      && ("visual_content_note" in response <==> showVisualHint && AnyVisual(formatted))
      && ("visual_content_note" in response ==> response["visual_content_note"] == Str(VisualNote))
  {
  }

  /** The loop of `format_response_with_actions`, returning at the first source that fails. */
  method FormatResponseWithActions(answer: string, sources: seq<Dict>, showVisualHint: bool) returns (r: Option<Dict>)
    ensures r == FormatResponse(answer, sources, showVisualHint)
  {
    var formattedSources: seq<Dict> := [];
    var hasVisualContent := false;
    var i := 0;
    while i < |sources|
      invariant 0 <= i <= |sources|
      invariant FormatAll(sources[..i]) == Some(formattedSources)
      invariant hasVisualContent <==> AnyVisual(formattedSources)
    {
      FormatAllStep(sources, i);
      var formatted := FormatSourceWithAction(sources[i], 1.0);
      if formatted.None? {
        FormatAllIff(sources);
        return None;
      }
      AnyVisualStep(formattedSources, formatted.value);
      formattedSources := formattedSources + [formatted.value];
      if Truthy(Get(formatted.value, "has_visual", Null)) {
        hasVisualContent := true;
      }
      i := i + 1;
    }
    assert sources[..i] == sources;
    var response := map["answer" := Str(answer), "sources" := List(Objs(formattedSources))];
    if showVisualHint && hasVisualContent {
      response := response["visual_content_note" := Str(VisualNote)];
    }
    r := Some(response);
  }
}
