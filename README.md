# Scholar's Terminal knowledge-base builder and enhanced metadata, in Dafny

This project models the two Python modules at the centre of Scholar's Terminal.
The first is the database builder, `build_database.py`. It does the following:
- keeps the enabled sources of the configuration and validates them;
- walks each source root with `os.walk`, pruning excluded directories and keeping the files that pass the extension, size and exclusion tests;
- splits each file's text into overlapping chunks;
- names each chunk `<type>_<md5 prefix>_<index>` and gives it metadata;
- hands the chunks to the vector collection in batches;
- records progress in a resumable tracker (`ProgressTracker`), which is checkpointed every `save_every` files and after each source.

The second is the enhanced-metadata module, `enhanced_metadata.py`. It does the following:
- finds figure and page references in a chunk with the regular expressions `FIGURE_PATTERNS` and `PAGE_PATTERNS`;
- flags visual content by keyword;
- builds the enhanced metadata dictionary of a chunk;
- estimates PDF page numbers from a running character count (`PDFPageTracker`);
- formats search hits and whole responses with an "Open PDF" action (`OpenPDFActionFormatter`).

The modules follow the program's structure:

| module | file | models |
|---|---|---|
| `Wrappers` | wrappers.dfy | `Option` |
| `PyText` | pytext.dfy | the Python string operations used: `isspace`, `strip`, ASCII `lower`, `in`, slicing, `str(int)`, `int(str)` |
| `PyPath` | pypath.dfy | `PurePosixPath` parts, name and suffix; `os.path.join` |
| `Json` | json.dfy | the dictionary values, Python truthiness, `dict.get`, f-string rendering |
| `Settings` | settings.dfy | `Config`: its enabled-source filter and `validate()` |
| `Chunking` | chunking.dfy | `chunk_text` |
| `Ledger` | ledger.dfy | `ProgressTracker`, as a class whose fields the methods update |
| `Catalog` | catalog.dfy | `should_process_file` and `scan_directory` over a directory tree |
| `Identity` | identity.dfy | `generate_file_id`, chunk ids and `create_metadata` |
| `Batching` | batching.dfy | the cap on chunks per file, the batches and the collection, as a class |
| `Ingestion` | ingestion.dfy | `process_file` and the checkpoint and statistics loops of `main()` |
| `BuildProperties` | build_properties.dfy | what one call of `process_file` and the whole run guarantee |
| `Patterns` | patterns.dfy | the regex shape `<literal>\s+<capture>` and `re.findall` with `re.IGNORECASE` |
| `Enrichment` | enrichment.dfy | the three extractors and `create_enhanced_metadata` |
| `PageTracking` | page_tracking.dfy | `PDFPageTracker`, as a class |
| `ActionFormatter` | formatter.dfy | `format_source_with_action` and `format_response_with_actions` |
| `ExampleUsage` | example_usage.dfy | the worked example at the end of `enhanced_metadata.py`, computed exactly |

The code that changes state step by step is imperative Dafny:
- the chunk loop;
- the directory walk;
- the batch loop;
- the tracker and the collection, which are classes;
- the loops of `main()`;
- the two extractor loops;
- the response loop.

Each of these methods is proved equal to a specification function. The properties, including the failure exits of `process_file`, the checkpoint cadence (how many saves, and which ledger each one writes) and the per-source statistics, are proved about those functions.
The outside world is a parameter, `Ingestion.Env`. It holds:
- the directory trees;
- the text `read_file_content` returns;
- the MD5 digest of each path;
- `Path.exists`;
- the clock (one timestamp `now`).

The collection's acceptance of each `add` call is a parameter too (`Batching.Refusal`).

## Model

| member | source | states |
|---|---|---|
| PyText.FirstNonSpaceSkips | build_database.py:175 | the index where `strip()` starts lies past whitespace only, and stops on a non-space character |
| PyText.EndNonSpaceSkips | build_database.py:175 | the index where `strip()` ends drops only trailing whitespace, and stops after a non-space character |
| PyText.StripTrims | build_database.py:175 | what `strip()` removes is whitespace, and what it keeps starts and ends with non-space |
| PyText.StrippedLengthIsStrip | build_database.py:175 | `len(text[lo:hi].strip())`, computed on indices, equals the length of the stripped slice |
| PyText.LowerIdempotent | enhanced_metadata.py:71 | lower-casing an already lower-cased text changes nothing |
| PyText.LowerNoCapitals | enhanced_metadata.py:71 | the lower-cased text holds no ASCII capital, and every character that is not a capital is kept |
| PyText.ContainsIff | enhanced_metadata.py:72 | `keyword in text` holds exactly when the keyword occurs at some position |
| PyText.PySlice | build_database.py:173 | a Python slice within bounds is the plain infix; an end past the length clamps |
| PyText.NatToString | build_database.py:252 | `str(n)` is a non-empty run of digits with no leading zero |
| PyText.IntToString | enhanced_metadata.py:197 | `str(i)` starts with a minus sign exactly for a negative number |
| PyText.ParseNatToString | enhanced_metadata.py:55-57 | `int(str(n)) == n` |
| PyText.NatToStringInjective | build_database.py:252 | distinct indices render as distinct strings |
| PyPath.SegmentsJoin | build_database.py:153 | splitting a path on `/` and joining again gives back the path |
| PyPath.Names | build_database.py:153 | the named components are exactly the segments other than "" and "." |
| PyPath.Anchor | build_database.py:153 | a path has an anchor part exactly when it starts with a slash |
| PyPath.NameIsPart | build_database.py:157 | `path.name` is one of `path.parts` and holds no slash, and it is empty only when the path names nothing |
| PyPath.SuffixShape | build_database.py:218 | the suffix is empty or starts at the last dot of the name, a dot that is neither first nor last |
| PyPath.LStripDots | build_database.py:218 | `lstrip('.')` keeps a tail of the string that does not start with a dot |
| PyPath.FileTypeIsSuffixTail | build_database.py:218 | the file type is the lower-cased suffix without its single dot, and holds no dot |
| PyPath.Join | build_database.py:292 | `os.path.join(a, b)` is `b` when `b` is absolute, and otherwise ends with `b` after `a` |
| PyPath.NameOfJoin | build_database.py:292 | the name of `os.path.join(root, f)` is `f`, for a name that `os.walk` lists |
| PyPath.PartsJoin | build_database.py:292 | the parts of a joined path are the parts of the directory followed by the named segments of the file |
| PyPath.JoinedNameIsPart | build_database.py:292 | joining a plain name adds exactly that one part |
| Json.DisplayIntReadsBack | enhanced_metadata.py:197 | the page number rendered in the f-string reads back with `int(...)`: digits for a non-negative number, a minus sign and the digits of its absolute value for a negative one |
| Settings.EnabledSources | build_database.py:33 | the filter keeps at most the configured sources |
| Settings.EnabledSourcesSpec | build_database.py:33 | the kept sources are exactly the configured sources that are enabled |
| Settings.EnabledSourcesOrder | build_database.py:33 | the filter keeps the configured order and repetitions: it distributes over concatenation, and keeps one source exactly when it is enabled |
| Settings.MissingPaths | build_database.py:51-54 | at most one error per source |
| Settings.MissingPathsEmpty | build_database.py:51-54 | there are no path errors exactly when every enabled source's path exists |
| Settings.ValidateAccepts | build_database.py:42-63 | `validate()` passes exactly when some source is enabled and every enabled path exists |
| Settings.ValidateIgnoresOverlap | build_database.py:42-63 | `validate()` gives the same verdict whatever the chunk overlap is |
| Settings.ValidateChunkingAccepts | build_database.py:42-63 | the corrected validation passes exactly when `validate()` does and the overlap is below the chunk size |
| Chunking.StartOfIsMultiple | build_database.py:169-178 | window `k` starts at `k * (chunk_size - overlap)` |
| Chunking.StartMono | build_database.py:178 | with a positive stride, later windows start at least one stride further on |
| Chunking.SelectedIndicesIncrease | build_database.py:171-176 | the kept window indices strictly increase |
| Chunking.SelectedIndicesMembers | build_database.py:171-176 | an index is kept exactly when its window starts inside the text and passes the size test |
| Chunking.Window | build_database.py:173 | `text[start:start+chunk_size]` is the infix between the clamped bounds |
| Chunking.KeptIsStripTest | build_database.py:175 | the keep test is `len(chunk.strip()) >= min_size` on the window's text |
| Chunking.ChunkText | build_database.py:163-180 | the loop returns exactly `Chunks`, and returns `[]` for a text shorter than `min_size` |
| Chunking.LoopStep | build_database.py:171-178 | one turn of the loop advances the start by `chunk_size - overlap` and keeps the invariant |
| Chunking.ChunksAreKeptWindows | build_database.py:163-180 | the chunks are the windows at the kept indices, in increasing order, and an index is kept exactly when its window starts inside the text and its stripped length reaches `min_size` |
| Chunking.ChunkShape | build_database.py:172-176 | every chunk is the infix `text[s:min(s+chunk_size, len)]` for `s = k*(chunk_size-overlap)`, at most `chunk_size` long, with stripped length at least `min_size` |
| Chunking.WindowStartStalls | build_database.py:171-178 | with `overlap >= chunk_size` no window ever starts past 0, so on a non-empty text `start < len(text)` always holds |
| Ledger.FreshData | build_database.py:82-93 | a new ledger has empty lists, no sources, and the three counters at 0 |
| Ledger.AddCounter | build_database.py:119-123 | one keyword adds its value to its key, from 0 for a new key; the other keys keep their values and no other key appears |
| Ledger.AddCountersEffect | build_database.py:117-123 | `update_stats` adds each value to its key, starting from 0 for a new key, and leaves every other counter as it was |
| Ledger.AddSource | build_database.py:125-131 | `update_source_stats` adds the source name and keeps the other sources' counts |
| Ledger.AddSourcesTotals | build_database.py:125-131 | after a run of updates each source's counters have grown by the sums of its own updates, and the source is present once updated |
| Ledger.ProgressTracker.constructor | build_database.py:74-93 | the tracker starts from the saved ledger, or from a fresh one when there is no progress file |
| Ledger.ProgressTracker.Save | build_database.py:95-99 | `save()` stamps the checkpoint time, writes the whole ledger as the latest snapshot, and changes nothing else |
| Ledger.ProgressTracker.MarkProcessed | build_database.py:101-107 | the path is appended and is then processed; whatever was processed stays processed; nothing else changes |
| Ledger.ProgressTracker.MarkFailed | build_database.py:109-115 | exactly one failure record with the path, the message and the time is appended; nothing else changes |
| Ledger.ProgressTracker.UpdateStats | build_database.py:117-123 | the counters become `AddCounters` of the old counters; nothing else changes |
| Ledger.ProgressTracker.UpdateSourceStats | build_database.py:125-131 | the sources become `AddSource` of the old sources; nothing else changes |
| Catalog.ShouldProcessFileIff | build_database.py:138-160 | each of the four rejections (`stat()` fails, too large, excluded directory part, excluded name) rejects, and a file that none applies to is accepted |
| Catalog.SizeTestInMegabytes | build_database.py:144-145 | the byte test `size > max * 2**20` agrees with the source's test `size / 2**20 > max` on reals |
| Catalog.Pruned | build_database.py:288 | `dirs[:]` keeps exactly the sub-directories whose names are not excluded |
| Catalog.ScanFiles | build_database.py:290-300 | the inner loop appends exactly the kept files of one listing, in order |
| Catalog.ScanDirectory | build_database.py:282-302 | the walk with its stack returns exactly `Scan`, the top-down `os.walk` order |
| Catalog.ScanSubdirsIsPending | build_database.py:286-288 | visiting the pruned children one after another is what the recursive definition produces |
| Catalog.ScanSound | build_database.py:282-302 | every returned path has a wanted extension and a name that is not excluded, and no part of it is an excluded directory |
| Catalog.ScanAllBelowExcluded | build_database.py:152-154 | below a directory with an excluded part, `should_process_file` admits nothing |
| Catalog.PruningIsHarmless | build_database.py:288 | pruning excluded directories out of the walk gives the same result as walking everything |
| Identity.UnHexHex | build_database.py:206 | hex encoding can be read back into the bytes |
| Identity.HexPrefix | build_database.py:206 | the first `2k` hex digits encode the first `k` bytes |
| Identity.FileIdShape | build_database.py:204-206 | a file id is 16 lower-case hex digits, equal to the hex of the first 8 digest bytes; two ids agree exactly when those bytes agree |
| Identity.Ids | build_database.py:252 | one id per chunk |
| Identity.ChunkIdInjective | build_database.py:252 | ids of one source type determine the 16-digit file id and the chunk index |
| Identity.IdsDistinct | build_database.py:252 | the ids of one file are pairwise distinct |
| Identity.MetadataKeysExact | build_database.py:213-221 | chunk metadata has exactly the seven keys |
| Identity.MetadataFields | build_database.py:209-221 | for a path the walk built, the metadata names the listed file, and the file type is the lower-cased suffix without its dot (empty without a suffix) |
| Identity.Metadatas | build_database.py:253 | one metadata dictionary per chunk |
| Identity.MetadatasIndexed | build_database.py:253 | the metadata of chunk `i` carries index `i` and the file's path |
| Batching.CappedPrefix | build_database.py:248-249 | the capped chunks are a prefix: all of them when they fit, exactly `max` of them otherwise, with Python's slice for a negative cap |
| Batching.BatchesCover | build_database.py:258-264 | the batches hand over every chunk once, in order, with its own id and metadata, in non-empty batches of at most `batch_size` |
| Batching.SubmitEffect | build_database.py:255-275 | without a refusal every batch is stored in order; every batch is also accepted when offered; after a refusal exactly the batches before the first refused one are stored and that refusal's message is reported |
| Batching.Collection.Add | build_database.py:260-264 | `add` stores the batch, or raises and stores nothing |
| Ingestion.ProcessFile | build_database.py:224-275 | the tracker and collection end as `ProcessFileSpec` says, and the method returns the count it gives; `ProcessFileExits`, `ProcessFileLedger` and `ProcessFileStores` state what that is |
| Ingestion.AddBatches | build_database.py:257-264 | the `add` loop leaves the collection and the error as `Submit` of the batches says |
| Ingestion.ProcessFiles | build_database.py:391-404 | the file loop with its periodic `save()` ends as `FilesSpec` says, including the crash of `% 0`; `FilesSaves`, `FilesSaveHolds` and `FilesPassShape` state its saves, what each save writes, and its crash |
| Ingestion.ProcessSource | build_database.py:378-411 | one turn of the source loop ends as `SourceSpec` says; `SourceStats` states its counters and saves |
| Ingestion.RunSources | build_database.py:371-411 | the source loop ends as `SourcesSpec` says, with the file and chunk totals; `RunSourceStats`, `RunSourceCounters` and `RunGuarantees` state what that is |
| Ingestion.BuildDatabase | build_database.py:319-411 | a rejected configuration exits with its errors and changes nothing; otherwise the run does what `SourcesSpec` says |
| BuildProperties.ProcessFileResumes | build_database.py:228-229 | an already processed file is skipped: nothing changes and 0 is returned |
| BuildProperties.ProcessFileLedger | build_database.py:228-275 | for a new path, either the path is recorded as processed and `total_chunks` grows by the returned count, or exactly one failure is recorded and 0 is returned |
| BuildProperties.ProcessFileExits | build_database.py:228-275 | for a new path: unreadable or empty content, text without chunks and a zero batch size each record that failure's message and store nothing; a refused `add` records the refusal's message, keeps the batches stored before it and returns 0; the path is recorded as processed exactly when none of these applies |
| BuildProperties.ProcessFileKeepsNoDuplicates | build_database.py:228-229 | no path is ever recorded as processed twice |
| BuildProperties.ProcessFileStores | build_database.py:236-270 | a file recorded as processed had its capped chunks stored, in order, with their ids and metadata, in batches of at most `batch_size`, and the count returned is their number |
| BuildProperties.SaveAndSourceDone | build_database.py:403-408 | `save()` and `update_source_stats` lose nothing, keep the lists and `total_chunks`, and `save()` writes the current ledger |
| BuildProperties.FilesPassShape | build_database.py:391-404 | the file loop leaves the per-source statistics alone, and crashes exactly when a file is left and `save_every` is 0 |
| BuildProperties.FilesSaves | build_database.py:403-404 | with a positive `save_every`, the file loop from file `i` on saves once per multiple of `save_every` among the positions `i + 1` to `len(files)` |
| BuildProperties.FilesSaveHolds | build_database.py:391-404 | with a positive `save_every`, the save after the file at each position `m` that is a multiple of `save_every` stays in the saved list, at index `m // save_every - i // save_every - 1` past the earlier saves, and holds the ledger as it stands once the files up to `m` are processed |
| BuildProperties.SourceStats | build_database.py:380-408 | a source with no files changes nothing; otherwise the turn crashes exactly when `save_every` is 0, and else its `files` counter grows by `len(files)` (skipped and failed files included), its `chunks` counter by the chunks reported, the other sources keep theirs, and it saves `len(files) // save_every` times plus once at the end, the last save holding the final ledger |
| BuildProperties.FilesSpecStep | build_database.py:391-404 | the file loop loses nothing, adds its chunk count to `total_chunks`, and keeps duplicates out |
| BuildProperties.SourceSpecStep | build_database.py:378-411 | `RunKeeps` for one source: it loses nothing, keeps duplicates out, adds its chunk count to `total_chunks`, and either changes nothing or ends with a save of the final ledger |
| BuildProperties.RunGuarantees | build_database.py:371-411 | `RunKeeps` for the whole run: it loses nothing recorded, keeps duplicates out, adds exactly the total it reports to `total_chunks`, and leaves the last saved snapshot equal to the final ledger (or changes nothing) |
| BuildProperties.RunKeepsCombine | build_database.py:371-411 | one source followed by the rest of the loop keeps `RunKeeps` when each part does; after a crash nothing follows |
| BuildProperties.RunSourceStats | build_database.py:371-411 | a source loop that ends normally has applied exactly its own `update_source_stats` calls, in order, and reports their sums as its file and chunk totals |
| BuildProperties.RunSourceCounters | build_database.py:371-411 | after a normal run each source name's `files` and `chunks` counters have grown by the sums recorded for that name |
| Patterns.MatchAt | enhanced_metadata.py:16-29 | a match starts at the given index, extends past the literal, and has one group, or two for the page-range pattern |
| Patterns.MatchGroups | enhanced_metadata.py:16-29 | a group is `\d+\.?\d*` for figures and `\d+` for pages |
| Patterns.MatchText | enhanced_metadata.py:16-29 | a match is the literal ignoring case, then whitespace, then the captured text |
| Patterns.NoMatchInside | enhanced_metadata.py:38 | no match starts strictly inside another match of the same pattern |
| Patterns.FindAllExact | enhanced_metadata.py:38 | `re.findall` finds exactly the matches at or after the position |
| Patterns.FindAllOrdered | enhanced_metadata.py:38 | the matches come out from left to right and do not overlap |
| Patterns.EmitIff | enhanced_metadata.py:39-41 | an item is produced exactly when some match produces it |
| Patterns.CollectIff | enhanced_metadata.py:37-41 | an item is collected over all patterns exactly when some match of some pattern yields it |
| Enrichment.PatternsArePlain | enhanced_metadata.py:15-30 | no pattern literal contains whitespace, which makes `findall` exact |
| Enrichment.Unique | enhanced_metadata.py:43 | `list(set(xs))` holds exactly the elements of `xs`, each once |
| Enrichment.ExtractFigureReferences | enhanced_metadata.py:33-43 | the two loops followed by de-duplication return exactly `FigureReferences` |
| Enrichment.FigureReferencesIff | enhanced_metadata.py:33-43 | the references have no duplicates, and hold `r` exactly when some figure pattern matches somewhere and yields `r` |
| Enrichment.FigureReferencesSingle | enhanced_metadata.py:33-43 | a text with exactly one figure match has exactly that one reference |
| Enrichment.FigureReferenceShape | enhanced_metadata.py:40-41 | every reference is a pattern's label, a space and a decimal number |
| Enrichment.Range | enhanced_metadata.py:55 | `range(lo, hi)` has `hi - lo` elements, or none |
| Enrichment.RangeMembers | enhanced_metadata.py:55 | `range(lo, hi)` holds exactly `lo <= n < hi` |
| Enrichment.SortedSet | enhanced_metadata.py:59 | `sorted(list(set(xs)))` strictly increases and holds exactly the elements of `xs` |
| Enrichment.ExtractPageReferences | enhanced_metadata.py:46-59 | the two loops followed by sorting return exactly `PageReferences` |
| Enrichment.PageReferencesIff | enhanced_metadata.py:46-59 | the page list strictly increases, and holds `n` exactly when some page match contributes `n` |
| Enrichment.PageMatchContributes | enhanced_metadata.py:53-57 | a range match contributes exactly `first..last`, and a single match exactly its number |
| Enrichment.PageRangeAlsoSinglePage | enhanced_metadata.py:27-29 | wherever `pp. a-b` matches, `p. a` matches too, so its first page is always listed |
| Patterns.SpanAlsoWhole | enhanced_metadata.py:27-29 | a range pattern whose literal is a single-number pattern's with one more leading character also lets that pattern match one position later, with the range's first number as its group |
| Enrichment.HasVisualContentIff | enhanced_metadata.py:62-72 | visual content is flagged exactly when some keyword occurs in the lower-cased text |
| Enrichment.FigureWordIsVisual | enhanced_metadata.py:15-72 | a match of the Figure, Diagram, Table, Chart or Illustration pattern always sets the visual flag |
| Enrichment.PutIf | enhanced_metadata.py:110-125 | an optional key is added exactly when its condition holds, with its value, and the other keys keep their values |
| Enrichment.BaseMetadataFields | enhanced_metadata.py:100-107 | the base dictionary has exactly the six identity keys with their values |
| Enrichment.EnhanceEffect | enhanced_metadata.py:109-125 | each optional key is added exactly when its condition holds, and the identity fields stay as they were |
| Enrichment.FiguresNonEmptyIff | enhanced_metadata.py:115 | figures are listed exactly when some figure pattern matches |
| Enrichment.PagesNonEmptyIff | enhanced_metadata.py:124 | page references are listed exactly when some page pattern matches |
| Enrichment.EnhancedMetadataKeys | enhanced_metadata.py:75-127 | the keys are the identity keys plus each optional key exactly when its condition holds |
| Enrichment.EnhancedMetadataIdentity | enhanced_metadata.py:100-107 | the identity fields hold the path, names, type and index, and the file type holds no dot |
| Enrichment.EnhancedMetadataExtras | enhanced_metadata.py:109-125 | `page_number`, `figures`, `has_visual_content` and `page_references` hold the given page, the extractors' results and `True` |
| PageTracking.EstimatedPage | enhanced_metadata.py:149 | the page is the one whose character range holds the count: `page * c <= count < (page + 1) * c` |
| PageTracking.EstimatedPageMonotone | enhanced_metadata.py:148-149 | reading more never moves the estimate back |
| PageTracking.EstimatedPageStep | enhanced_metadata.py:148-149 | a chunk shorter than a page moves the estimate by at most one page |
| PageTracking.FirstPage | enhanced_metadata.py:149 | the estimate is page 0 exactly until a whole page has been read |
| PageTracking.PDFPageTracker.constructor | enhanced_metadata.py:133-136 | the tracker starts at page 0 with no characters and 3000 characters per page |
| PageTracking.PDFPageTracker.Update | enhanced_metadata.py:138-150 | the count grows by the chunk's length, and the returned page is the estimate for the new count, never below the previous page |
| PageTracking.PDFPageTracker.Reset | enhanced_metadata.py:152-155 | back to page 0 with no characters counted |
| ActionFormatter.SourceEntry | enhanced_metadata.py:177-189 | the entry has the filename and type or their defaults, and the relevance, and it copies `page_number` and `figures` exactly when present |
| ActionFormatter.WithAction | enhanced_metadata.py:192-198 | the action is added exactly for a PDF hit with a page number, and the other keys keep their values |
| ActionFormatter.FormatFailsIff | enhanced_metadata.py:192-195 | formatting raises `KeyError` exactly for a PDF hit with a page number but no `source` |
| ActionFormatter.FormatSourceDefaults | enhanced_metadata.py:177-181 | `filename` and `source_type` are copied or default to "Unknown" and "unknown", and the relevance is kept |
| ActionFormatter.FormatSourceCopies | enhanced_metadata.py:183-189 | `page_number` and `figures` are copied exactly when present, and no other key appears |
| ActionFormatter.FormatSourceVisual | enhanced_metadata.py:200-202 | `has_visual` appears only as `True`, and exactly when the metadata's flag is truthy |
| ActionFormatter.FormatSourceAction | enhanced_metadata.py:191-198 | the action is present exactly for a PDF hit with a page number, and opens `source` at that page with the label "Open PDF (page N)" |
| ActionFormatter.FormatIdentified | enhanced_metadata.py:165-204 | for metadata with the fields `create_enhanced_metadata` always sets, formatting succeeds, keeps the file name, adds the action exactly for a PDF with a page number, and flags `has_visual` exactly when flagged |
| ActionFormatter.FormatEnhancedMetadata | enhanced_metadata.py:75-204 | formatting enhanced metadata never fails, keeps the file name, gives the "Open PDF (page N)" action exactly for a PDF with a page number, and flags `has_visual` exactly for a chunk with visual content |
| ActionFormatter.FormatAllStep | enhanced_metadata.py:227-229 | one more source appends its entry, or makes the whole formatting fail |
| ActionFormatter.FormatAllIff | enhanced_metadata.py:227-229 | formatting all sources fails exactly when one fails; otherwise entry `i` is source `i` formatted with relevance 1.0 |
| ActionFormatter.CollectedPrefixIff | enhanced_metadata.py:227-229 | collecting the first `n` sources with any entry function fails exactly when one of them fails, and otherwise holds `n` entries, entry `i` being source `i`'s |
| ActionFormatter.AnyVisualStep | enhanced_metadata.py:231-232 | the visual flag after one more source is the old flag or that source's `has_visual` |
| ActionFormatter.ResponseFields | enhanced_metadata.py:234-246 | the response has only `answer`, `sources` and, exactly when the hint is on and some entry is visual, the fixed note |
| ActionFormatter.FormatResponseShape | enhanced_metadata.py:206-246 | the response fails exactly when a source fails; otherwise it keeps the answer, lists every formatted source in order, and carries the note exactly when the hint is on and some source has `has_visual` |
| ActionFormatter.FormatResponseWithActions | enhanced_metadata.py:206-246 | the loop returns exactly `FormatResponse` |
| ExampleUsage.ExampleShape | enhanced_metadata.py:257-262 | the example chunk opens with "Figure 8.3" and has no other digit |
| ExampleUsage.ExampleFigures | enhanced_metadata.py:257-262 | any chunk shaped like the example (that opening, no other digit) yields exactly `["Figure 8.3"]` |
| ExampleUsage.ExamplePages | enhanced_metadata.py:257-262 | any chunk shaped like the example yields no page references |
| ExampleUsage.ExampleVisual | enhanced_metadata.py:257-262 | any chunk shaped like the example has visual content |
| ExampleUsage.ExamplePathFields | enhanced_metadata.py:265 | "D:/Books/Earth Science.pdf" has the name "Earth Science.pdf" and the file type "pdf" |
| ExampleUsage.ExampleMetadata | enhanced_metadata.py:264-286 | the example call returns exactly the nine fields of the commented output |
| ExampleUsage.ExampleFormatted | enhanced_metadata.py:289-306 | formatting the example gives the commented output plus `relevance` 1.0, with the action for page 187 |

## Left out

- I/O is left out: reading files, PyPDF2 text extraction (`read_file_content`, modelled as a function from path to optional text), YAML loading, JSON reading and writing of the progress file (modelled as a list of saved snapshots), ChromaDB (modelled as a list of batches with a refusal function), logging, `tqdm` and `print`.
- MD5 is left out: the digest of each path is a parameter, and only `hexdigest()[:16]` is modelled.
- The clock is left out: one timestamp `now` stands for every `datetime.now()` call in a run.
- Case folding (`lower()` and `re.IGNORECASE`) covers ASCII letters only, and `\d` covers ASCII digits only, because Unicode case tables are not modelled. `\s` is the set of characters for which `str.isspace()` holds.
- Enrichment.Unique: the order of `list(set(...))` depends on Python's hashing. The model keeps first occurrences, so only the set of references and the absence of duplicates are meant.
- Dictionary insertion order is not modelled: dictionaries are maps.
- Json.Display renders floats, lists and dictionaries as a placeholder, because their `repr` is not modelled. Only integer page numbers reach it.
- Enrichment.IntOf returns 0 for a string that is not a run of digits. This case never arises, because every matched group is such a run (`Patterns.MatchGroups`).
- Paths are POSIX paths (`PurePosixPath` and `posixpath.join`). Windows drive and backslash parsing is not modelled. The example path "D:/Books/..." is read as a relative POSIX path, which gives the same name and suffix.
- Relevance scores are exact reals rather than IEEE floats.
- Ingestion.ProcessFiles: a `save_every` of 0 is modelled as the crash that `% 0` raises after the first file, and nothing is modelled after the crash.
- BuildProperties.FilesSaves: the number of saves is stated for a positive `save_every` only. A negative one saves at the same positions (Python's and Dafny's `%` are zero for the same numbers), but no lemma counts those saves or states what they write.
- BuildProperties.ProcessFileStores: with a negative `batch_size`, `range` yields nothing, so no batch is stored, yet the file is recorded as processed with its chunk count. The model states this as the source does.
- Chunking.ChunkText, together with `Ingestion.ProcessFile`, `Ingestion.ProcessFiles`, `Ingestion.ProcessSource`, `Ingestion.RunSources` and the specification functions, requires `chunk_overlap < chunk_size`. Without it, the source's loop never ends (see Findings). `Ingestion.BuildDatabase` establishes it through the corrected validation.
- Reading `config.processing[...]` keys that are missing (`KeyError`) is not modelled: the configuration is a typed record.
- The commented output of the example omits `relevance`, but the code adds it (`enhanced_metadata.py:180`). `ExampleUsage.ExampleFormatted` follows the code.
- OpenPDFComponent.jsx, create_hero_image.py, create_results_chart.py and diagnose_node_blocking.py are not part of this model. They are a UI component and stand-alone scripts outside the builder and the metadata module.
- Collection setup in `main()` (`get_collection` or `create_collection`) and the final summary printout are left out. They only do I/O.

## Findings

| source | as written | input that shows it | evidently intended | confidence | as-written member | corrected member |
|---|---|---|---|---|---|---|
| build_database.py:42-63, 163-180 | `validate()` never checks the chunk settings, and `chunk_text` advances with `start = end - overlap` | `chunk_size = 100`, `chunk_overlap = 100`, any text of at least `min_chunk_size` characters: `start` stays 0, so `while start < len(text)` never ends | the overlap must be smaller than the chunk size, checked before any file is processed | not executed | Chunking.WindowStartStalls, Settings.ValidateIgnoresOverlap | Settings.ValidateChunkingAccepts, Chunking.ChunkText, Ingestion.BuildDatabase |
