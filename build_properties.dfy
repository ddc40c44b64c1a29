/**
 * What a build guarantees, proved on `ProcessFileSpec` and `SourcesSpec`:
 * a processed file is never processed again, the ledger and the collection
 * only grow, the processed list never holds a path twice, the `total_chunks`
 * counter adds up what the run reports, what the collection receives for a
 * file is exactly its capped chunks with their ids and metadata, and a build
 * that ends normally leaves the progress file holding the final ledger.
 */
module BuildProperties {
  import opened Wrappers
  import opened PyText
  import opened Json
  import opened Chunking
  import opened Ledger
  import opened Settings
  import opened Catalog
  import opened Identity
  import opened Batching
  import opened Ingestion

  /** Nothing recorded is ever lost: each list of the ledger and the collection only gets longer, and the start time stays. */
  predicate Grows(a: Store, b: Store) {
    && a.ledger.processedFiles <= b.ledger.processedFiles
    && a.ledger.failedFiles <= b.ledger.failedFiles
    && a.saved <= b.saved
    && a.batches <= b.batches
    && a.ledger.startTime == b.ledger.startTime
  }

  lemma GrowsTrans(a: Store, b: Store, c: Store)
    requires Grows(a, b) && Grows(b, c)
    ensures Grows(a, c)
  {
  }

  /** The `total_chunks` counter of the ledger. */
  function ChunkStat(st: Store): int {
    Base(st.ledger.stats, "total_chunks")
  }

  /** Adding `n` to one counter with `update_stats` adds `n` to it and leaves the others alone. */
  lemma AddOneCounter(m: map<string, int>, k: string, n: int)
    ensures Base(AddCounters(m, [(k, n)]), k) == Base(m, k) + n
    ensures forall j :: j != k ==> Base(AddCounters(m, [(k, n)]), j) == Base(m, j)
  {
    assert AddCounters(m, [(k, n)]) == AddCounters(AddCounter(m, k, n), []);
  }

  /** A run of `add` calls keeps what the collection held. */
  lemma SubmitPrefix(stored: seq<Batch>, todo: seq<Batch>, refuse: Refusal)
    ensures stored <= Submit(stored, todo, refuse).0
  {
    SubmitEffect(stored, todo, refuse);
  }

  /** A file already in `processed_files` is skipped: nothing changes and 0 is returned. */
  lemma ProcessFileResumes(st: Store, path: string, src: Source, p: Processing, env: Env, refuse: Refusal)
    requires p.chunkOverlap < p.chunkSize
    requires path in st.ledger.processedFiles
    ensures ProcessFileSpec(st, path, src, p, env, refuse) == (st, 0)
  {
  }

  /**
   * One call of `process_file` on a new path either records the path as
   * processed and adds the returned count to `total_chunks`, or records exactly
   * one failure for the path and returns 0; the other fields of the ledger and
   * the saved snapshots stay as they were, and the collection only grows.
   */
  lemma ProcessFileLedger(st: Store, path: string, src: Source, p: Processing, env: Env, refuse: Refusal)
    requires p.chunkOverlap < p.chunkSize
    requires path !in st.ledger.processedFiles
    ensures var (r, n) := ProcessFileSpec(st, path, src, p, env, refuse);
      && Grows(st, r)
      && r.saved == st.saved
      && r.ledger.sources == st.ledger.sources && r.ledger.lastCheckpoint == st.ledger.lastCheckpoint
      && ((&& r.ledger.processedFiles == st.ledger.processedFiles + [path]
           && r.ledger.failedFiles == st.ledger.failedFiles
           && n >= 0
           && ChunkStat(r) == ChunkStat(st) + n)
          || (&& r.ledger.processedFiles == st.ledger.processedFiles
              && |r.ledger.failedFiles| == |st.ledger.failedFiles| + 1
              && r.ledger.failedFiles[|st.ledger.failedFiles|].file == path
              && r.ledger.stats == st.ledger.stats
              && n == 0))
  {
    var (r, n) := ProcessFileSpec(st, path, src, p, env, refuse);
    var content := env.contents(path);
    if content.Some? && content.value != "" {
      var all := Chunks(content.value, p.chunkSize, p.chunkOverlap, p.minChunkSize);
      if all != [] && p.batchSize != 0 {
        var chunks := Capped(all, p.maxChunksPerFile);
        var todo := Handover(path, src, chunks, p.batchSize, env);
        SubmitPrefix(st.batches, todo, refuse);
        AddOneCounter(st.ledger.stats, "total_chunks", |chunks|);
      }
    }
  }

  /** `r` is `st` with one more failure record `{path, error, now}`; the rest of the ledger and the saved snapshots are as they were. */
  predicate RecordsFailure(st: Store, r: Store, path: string, error: string, now: string) {
    && r.ledger == st.ledger.(failedFiles := st.ledger.failedFiles + [Failure(path, error, now)])
    && r.saved == st.saved
  }

  /**
   * Which way `process_file` leaves for a new path. Content that cannot be
   * read or is empty, text that gives no chunk, and a zero batch size each
   * record their failure and store nothing; a refused `add` records the
   * refusal's message and keeps the batches stored before it; otherwise the
   * path is recorded as processed. The path ends up processed exactly when
   * none of the failures applies.
   */
  lemma ProcessFileExits(st: Store, path: string, src: Source, p: Processing, env: Env, refuse: Refusal)
    requires p.chunkOverlap < p.chunkSize
    requires path !in st.ledger.processedFiles
    ensures var (r, n) := ProcessFileSpec(st, path, src, p, env, refuse);
      var content := env.contents(path);
      var readable := content.Some? && content.value != "";
      var all := if readable then Chunks(content.value, p.chunkSize, p.chunkOverlap, p.minChunkSize) else [];
      var sub := Submit(st.batches, Handover(path, src, Capped(all, p.maxChunksPerFile), p.batchSize, env), refuse);
      && (!readable ==> RecordsFailure(st, r, path, UnreadableError, env.now) && r.batches == st.batches && n == 0)
      && (readable && all == [] ==> RecordsFailure(st, r, path, NoChunksError, env.now) && r.batches == st.batches && n == 0)
      && (readable && all != [] && p.batchSize == 0 ==>
            RecordsFailure(st, r, path, RangeStepError, env.now) && r.batches == st.batches && n == 0)
      && (readable && all != [] && p.batchSize != 0 ==> r.batches == sub.0)
      && (readable && all != [] && p.batchSize != 0 && sub.1.Some? ==> RecordsFailure(st, r, path, sub.1.value, env.now) && n == 0)
      && (path in r.ledger.processedFiles <==> readable && all != [] && p.batchSize != 0 && sub.1.None?)
  {
  }

  /** `process_file` never puts a path into `processed_files` twice. */
  lemma ProcessFileKeepsNoDuplicates(st: Store, path: string, src: Source, p: Processing, env: Env, refuse: Refusal)
    requires p.chunkOverlap < p.chunkSize
    requires NoDuplicates(st.ledger.processedFiles)
    ensures NoDuplicates(ProcessFileSpec(st, path, src, p, env, refuse).0.ledger.processedFiles)
  {
    if path !in st.ledger.processedFiles {
      ProcessFileLedger(st, path, src, p, env, refuse);
      var xs := st.ledger.processedFiles;
      var ys := xs + [path];
      forall i, j | 0 <= i < j < |ys| ensures ys[i] != ys[j] {
        if j == |xs| {
          assert ys[i] == xs[i];
        }
      }
    }
  }

  /**
   * When `process_file` records a path as processed, what the collection
   * received in that call is exactly the capped chunks of the file's text, in
   * order, with their ids and metadata, in batches of at most `batch_size`, and
   * the returned count is their number. With a negative batch size nothing is
   * received, although the file is recorded as processed with that count.
   */
  lemma ProcessFileStores(st: Store, path: string, src: Source, p: Processing, env: Env, refuse: Refusal)
    requires p.chunkOverlap < p.chunkSize
    ensures var (r, n) := ProcessFileSpec(st, path, src, p, env, refuse);
      && st.batches <= r.batches
      && (r.ledger.processedFiles != st.ledger.processedFiles ==>
            && env.contents(path).Some?
            && var chunks := Capped(Chunks(env.contents(path).value, p.chunkSize, p.chunkOverlap, p.minChunkSize), p.maxChunksPerFile);
            && var added := r.batches[|st.batches|..];
            && n == |chunks|
            && (p.batchSize > 0 ==>
                  && AllDocuments(added) == chunks
                  && AllIds(added) == Ids(src.kind, FileId(env.md5(path)), n)
                  && AllMetadatas(added) == Metadatas(path, src.name, src.kind, n, env.now)
                  && WellSized(added, p.batchSize))
            && (p.batchSize < 0 ==> added == []))
  {
    var (r, n) := ProcessFileSpec(st, path, src, p, env, refuse);
    var content := env.contents(path);
    if path !in st.ledger.processedFiles && content.Some? && content.value != "" {
      var all := Chunks(content.value, p.chunkSize, p.chunkOverlap, p.minChunkSize);
      if all != [] && p.batchSize != 0 {
        var chunks := Capped(all, p.maxChunksPerFile);
        var todo := Handover(path, src, chunks, p.batchSize, env);
        SubmitEffect(st.batches, todo, refuse);
        if p.batchSize > 0 {
          var m := |chunks|;
          var ids := Ids(src.kind, FileId(env.md5(path)), m);
          var metas := Metadatas(path, src.name, src.kind, m, env.now);
          BatchesCover(ids, chunks, metas, 0, p.batchSize);
          assert chunks[0..] == chunks && ids[0..] == ids && metas[0..] == metas;
        }
        var (after, err) := Submit(st.batches, todo, refuse);
        if err.None? {
          assert after[|st.batches|..] == todo;
        }
      }
    }
  }

  /** `save()` and `update_source_stats` keep everything recorded and touch neither lists nor `total_chunks`. */
  lemma SaveAndSourceDone(st: Store, name: string, files: int, chunks: int, now: string)
    ensures Grows(st, SaveSpec(st, now)) && Grows(st, SourceDone(st, name, files, chunks))
    ensures SaveSpec(st, now).ledger.processedFiles == st.ledger.processedFiles
    ensures SourceDone(st, name, files, chunks).ledger.processedFiles == st.ledger.processedFiles
    ensures ChunkStat(SaveSpec(st, now)) == ChunkStat(st) && ChunkStat(SourceDone(st, name, files, chunks)) == ChunkStat(st)
    ensures var s := SaveSpec(st, now); |s.saved| > 0 && s.saved[|s.saved| - 1] == s.ledger
  {
  }

  /** One call of `process_file`, on any path: the store grows, `total_chunks` grows by the count, and duplicates stay out. */
  lemma ProcessFileStep(st: Store, path: string, src: Source, p: Processing, env: Env, refuse: Refusal)
    requires p.chunkOverlap < p.chunkSize
    ensures var (r, n) := ProcessFileSpec(st, path, src, p, env, refuse);
      && Grows(st, r)
      && ChunkStat(r) == ChunkStat(st) + n
      && (NoDuplicates(st.ledger.processedFiles) ==> NoDuplicates(r.ledger.processedFiles))
  {
    if path !in st.ledger.processedFiles {
      ProcessFileLedger(st, path, src, p, env, refuse);
    }
    if NoDuplicates(st.ledger.processedFiles) {
      ProcessFileKeepsNoDuplicates(st, path, src, p, env, refuse);
    }
  }

  /** The file loop of one source: the store grows, `total_chunks` grows by the chunks it reports, and duplicates stay out. */
  lemma {:induction false} FilesSpecStep(st: Store, files: seq<string>, i: nat, src: Source, cfg: Config, env: Env, refuse: Refusal)
    requires i <= |files| && cfg.processing.chunkOverlap < cfg.processing.chunkSize
    ensures var pass := FilesSpec(st, files, i, src, cfg, env, refuse);
      && Grows(st, pass.store)
      && ChunkStat(pass.store) == ChunkStat(st) + pass.chunks
      && (NoDuplicates(st.ledger.processedFiles) ==> NoDuplicates(pass.store.ledger.processedFiles))
    decreases |files| - i
  {
    if i < |files| {
      var (s1, c) := ProcessFileSpec(st, files[i], src, cfg.processing, env, refuse);
      ProcessFileStep(st, files[i], src, cfg.processing, env, refuse);
      FilesUnfold(st, files, i, i + 1, src, cfg, env, refuse);
      if cfg.saveEvery != 0 {
        var s2 := if (i + 1) % cfg.saveEvery == 0 then SaveSpec(s1, env.now) else s1;
        var rest := FilesSpec(s2, files, i + 1, src, cfg, env, refuse);
        assert FilesSpec(st, files, i, src, cfg, env, refuse) == Pass(rest.store, c + rest.chunks, rest.crashed);
        SaveAndSourceDone(s1, src.name, 0, 0, env.now);
        FilesSpecStep(s2, files, i + 1, src, cfg, env, refuse);
        GrowsTrans(st, s1, s2);
        GrowsTrans(st, s2, rest.store);
      }
    }
  }

  /** `process_file` saves nothing and leaves the per-source statistics alone. */
  lemma ProcessFileKeepsSaved(st: Store, path: string, src: Source, p: Processing, env: Env, refuse: Refusal)
    requires p.chunkOverlap < p.chunkSize
    ensures var r := ProcessFileSpec(st, path, src, p, env, refuse).0;
      r.saved == st.saved && r.ledger.sources == st.ledger.sources
  {
    if path !in st.ledger.processedFiles {
      ProcessFileLedger(st, path, src, p, env, refuse);
    }
  }

  /**
   * The file loop leaves the per-source statistics alone, and it crashes
   * exactly when some file is left to process and `save_every` is 0.
   */
  lemma {:induction false} FilesPassShape(st: Store, files: seq<string>, i: nat, src: Source, cfg: Config, env: Env, refuse: Refusal)
    requires i <= |files| && cfg.processing.chunkOverlap < cfg.processing.chunkSize
    ensures var pass := FilesSpec(st, files, i, src, cfg, env, refuse);
      && pass.store.ledger.sources == st.ledger.sources
      && (pass.crashed <==> i < |files| && cfg.saveEvery == 0)
    decreases |files| - i
  {
    if i < |files| {
      var (s1, c) := ProcessFileSpec(st, files[i], src, cfg.processing, env, refuse);
      ProcessFileKeepsSaved(st, files[i], src, cfg.processing, env, refuse);
      FilesUnfold(st, files, i, i + 1, src, cfg, env, refuse);
      if cfg.saveEvery != 0 {
        var s2 := if (i + 1) % cfg.saveEvery == 0 then SaveSpec(s1, env.now) else s1;
        FilesPassShape(s2, files, i + 1, src, cfg, env, refuse);
      }
    }
  }

  /**
   * With a positive `save_every` the file loop from file `i` on saves once
   * after every file whose 1-based position is a multiple of `save_every`: the
   * number of saves is the number of such positions past `i`. FilesSaveHolds
   * says which ledger each of them writes.
   */
  lemma {:induction false} FilesSaves(st: Store, files: seq<string>, i: nat, src: Source, cfg: Config, env: Env, refuse: Refusal)
    requires i <= |files| && cfg.processing.chunkOverlap < cfg.processing.chunkSize && cfg.saveEvery > 0
    ensures var pass := FilesSpec(st, files, i, src, cfg, env, refuse);
      |pass.store.saved| == |st.saved| + |files| / cfg.saveEvery - i / cfg.saveEvery
    decreases |files| - i
  {
    if i < |files| {
      var (s1, c) := ProcessFileSpec(st, files[i], src, cfg.processing, env, refuse);
      ProcessFileKeepsSaved(st, files[i], src, cfg.processing, env, refuse);
      FilesUnfold(st, files, i, i + 1, src, cfg, env, refuse);
      var s2 := if (i + 1) % cfg.saveEvery == 0 then SaveSpec(s1, env.now) else s1;
      FilesSaves(s2, files, i + 1, src, cfg, env, refuse);
      DivStep(i, cfg.saveEvery);
    }
  }

  /** One turn of the file loop with a non-zero `save_every`: process the file, then save when `next` is a multiple. */
  function Turn(st: Store, path: string, next: nat, src: Source, cfg: Config, env: Env, refuse: Refusal): Store
    requires cfg.processing.chunkOverlap < cfg.processing.chunkSize && cfg.saveEvery != 0
  {
    var s1 := ProcessFileSpec(st, path, src, cfg.processing, env, refuse).0;
    if next % cfg.saveEvery == 0 then SaveSpec(s1, env.now) else s1
  }

  /** The file loop's store is the store of the loop from the next file on, started from one turn. */
  lemma TurnUnfold(st: Store, files: seq<string>, i: nat, next: nat, src: Source, cfg: Config, env: Env, refuse: Refusal)
    requires i < |files| && next == i + 1 && cfg.processing.chunkOverlap < cfg.processing.chunkSize && cfg.saveEvery != 0
    ensures FilesSpec(st, files, i, src, cfg, env, refuse).store ==
      FilesSpec(Turn(st, files[i], next, src, cfg, env, refuse), files, next, src, cfg, env, refuse).store
  {
    FilesUnfold(st, files, i, next, src, cfg, env, refuse);
  }

  /** A turn adds one save exactly when `next` is a multiple of `save_every`, and that save is the turn's ledger. */
  lemma TurnSaves(st: Store, path: string, next: nat, src: Source, cfg: Config, env: Env, refuse: Refusal)
    requires cfg.processing.chunkOverlap < cfg.processing.chunkSize && cfg.saveEvery != 0
    ensures var t := Turn(st, path, next, src, cfg, env, refuse);
      && st.saved <= t.saved
      && |t.saved| == |st.saved| + (if next % cfg.saveEvery == 0 then 1 else 0)
      && (next % cfg.saveEvery == 0 ==> t.saved[|st.saved|] == t.ledger)
  {
    ProcessFileKeepsSaved(st, path, src, cfg.processing, env, refuse);
  }

  /** The file loop keeps every save made before it. */
  lemma FilesKeepSaves(st: Store, files: seq<string>, i: nat, src: Source, cfg: Config, env: Env, refuse: Refusal)
    requires i <= |files| && cfg.processing.chunkOverlap < cfg.processing.chunkSize
    ensures st.saved <= FilesSpec(st, files, i, src, cfg, env, refuse).store.saved
  {
    FilesSpecStep(st, files, i, src, cfg, env, refuse);
  }

  /**
   * The save taken after the file at 1-based position `m` (a multiple of
   * `save_every` past `i`) holds the ledger as it stands once files `i` to
   * `m - 1` are processed: the loop run on `files[..m]` ends with that save.
   * Its place among the saves is the number of multiples of `save_every` up
   * to `m`, so a later crash or refusal never takes back what it wrote.
   */
  lemma {:induction false} FilesSaveHolds(st: Store, files: seq<string>, i: nat, m: nat, src: Source, cfg: Config, env: Env, refuse: Refusal)
    requires i < m <= |files| && cfg.processing.chunkOverlap < cfg.processing.chunkSize
    requires cfg.saveEvery > 0 && m % cfg.saveEvery == 0
    ensures var pass := FilesSpec(st, files, i, src, cfg, env, refuse);
      var k := |st.saved| + m / cfg.saveEvery - i / cfg.saveEvery - 1;
      && 0 <= k < |pass.store.saved|
      && pass.store.saved[k] == FilesSpec(st, files[..m], i, src, cfg, env, refuse).store.ledger
    decreases m - i
  {
    if i + 1 == m {
      FilesSaveLast(st, files, i, m, src, cfg, env, refuse);
    } else {
      var t := Turn(st, files[i], i + 1, src, cfg, env, refuse);
      TurnUnfold(st, files, i, i + 1, src, cfg, env, refuse);
      assert files[..m][i] == files[i];
      TurnUnfold(st, files[..m], i, i + 1, src, cfg, env, refuse);
      TurnSaves(st, files[i], i + 1, src, cfg, env, refuse);
      FilesSaveHolds(t, files, i + 1, m, src, cfg, env, refuse);
      SaveIndexStep(|st.saved|, |t.saved|, cfg.saveEvery, i, m,
        FilesSpec(t, files, i + 1, src, cfg, env, refuse).store.saved,
        FilesSpec(t, files[..m], i + 1, src, cfg, env, refuse).store.ledger);
    }
  }

  /** The index of a save seen from file `i + 1` on is its index seen from file `i` on. */
  lemma SaveIndexStep(before: int, after: int, e: int, i: nat, m: nat, saved: seq<Snapshot>, l: Snapshot)
    requires e > 0 && after == before + (if (i + 1) % e == 0 then 1 else 0)
    requires var k := after + m / e - (i + 1) / e - 1; 0 <= k < |saved| && saved[k] == l
    ensures var k := before + m / e - i / e - 1; 0 <= k < |saved| && saved[k] == l
  {
    DivStep(i, e);
  }

  /** FilesSaveHolds for the file at position `m` itself: its turn saves, and the rest of the loop keeps that save. */
  lemma FilesSaveLast(st: Store, files: seq<string>, i: nat, m: nat, src: Source, cfg: Config, env: Env, refuse: Refusal)
    requires i + 1 == m <= |files| && cfg.processing.chunkOverlap < cfg.processing.chunkSize
    requires cfg.saveEvery > 0 && m % cfg.saveEvery == 0
    ensures var pass := FilesSpec(st, files, i, src, cfg, env, refuse);
      var k := |st.saved| + m / cfg.saveEvery - i / cfg.saveEvery - 1;
      && 0 <= k < |pass.store.saved|
      && pass.store.saved[k] == FilesSpec(st, files[..m], i, src, cfg, env, refuse).store.ledger
  {
    var t := Turn(st, files[i], m, src, cfg, env, refuse);
    TurnUnfold(st, files, i, m, src, cfg, env, refuse);
    assert files[..m][i] == files[i];
    TurnUnfold(st, files[..m], i, m, src, cfg, env, refuse);
    assert FilesSpec(t, files[..m], m, src, cfg, env, refuse).store == t;
    TurnSaves(st, files[i], m, src, cfg, env, refuse);
    DivStep(i, cfg.saveEvery);
    FilesKeepSaves(t, files, m, src, cfg, env, refuse);
  }

  /** Moving from `i` to `i + 1` adds one multiple of `e` exactly when `i + 1` is one. */
  lemma DivStep(i: nat, e: int)
    requires e > 0
    ensures (i + 1) / e == i / e + (if (i + 1) % e == 0 then 1 else 0)
  {
    var q, r := i / e, i % e;
    if r == e - 1 {
      DivUnique(i + 1, e, q + 1, 0);
    } else {
      DivUnique(i + 1, e, q, r + 1);
    }
  }

  /** Division and remainder are determined by `x == q * e + r` with `0 <= r < e`. */
  lemma DivUnique(x: int, e: int, q: int, r: int)
    requires e > 0 && 0 <= r < e && x == q * e + r
    ensures x / e == q && x % e == r
  {
    var q', r' := x / e, x % e;
    if q' < q {
      MulLess(q', q, e);
    } else if q < q' {
      MulLess(q, q', e);
    }
  }

  lemma MulLess(a: int, b: int, e: int)
    requires a < b && e > 0
    ensures a * e + e <= b * e
  {
    var d := b - a;
    assert b * e == a * e + d * e;
    assert d * e == e + (d - 1) * e;
  }

  /**
   * One turn of the source loop for a source with files: it crashes exactly
   * when `save_every` is 0; otherwise the source's `files` counter grows by the
   * number of files found (skipped and failed ones included), its `chunks`
   * counter by the chunks the turn reports, the other sources keep their
   * counters, and the turn ends with a save of the final ledger, after the
   * periodic saves. A source with no files changes nothing.
   */
  lemma SourceStats(st: Store, src: Source, cfg: Config, env: Env, refuse: Refusal)
    requires cfg.processing.chunkOverlap < cfg.processing.chunkSize
    ensures var files := Scan(src.path, env.trees(src.path), FilterOf(src, cfg));
      var r := SourceSpec(st, src, cfg, env, refuse);
      && (files == [] ==> r == Run(st, 0, 0, false))
      && (files != [] ==> (r.crashed <==> cfg.saveEvery == 0))
      && (files != [] && !r.crashed ==>
            && r.files == |files|
            && r.store.ledger.sources == AddSource(st.ledger.sources, src.name, |files|, r.chunks)
            && FilesOf(r.store.ledger.sources, src.name) == FilesOf(st.ledger.sources, src.name) + |files|
            && ChunksOf(r.store.ledger.sources, src.name) == ChunksOf(st.ledger.sources, src.name) + r.chunks
            && r.store.saved[|r.store.saved| - 1] == r.store.ledger
            && (cfg.saveEvery > 0 ==> |r.store.saved| == |st.saved| + |files| / cfg.saveEvery + 1))
  {
    var files := Scan(src.path, env.trees(src.path), FilterOf(src, cfg));
    if files != [] {
      FilesPassShape(st, files, 0, src, cfg, env, refuse);
      if cfg.saveEvery > 0 {
        FilesSaves(st, files, 0, src, cfg, env, refuse);
      }
    }
  }

  /** The `update_source_stats` call one turn of the source loop makes: none for a source with no files. */
  function SourceUpdate(st: Store, src: Source, cfg: Config, env: Env, refuse: Refusal): seq<(string, int, int)>
    requires cfg.processing.chunkOverlap < cfg.processing.chunkSize
  {
    var files := Scan(src.path, env.trees(src.path), FilterOf(src, cfg));
    if files == [] then [] else [(src.name, |files|, SourceSpec(st, src, cfg, env, refuse).chunks)]
  }

  /** The `update_source_stats` calls a run of the source loop makes from source `k` on, up to a crash. */
  function SourceUpdates(st: Store, k: nat, cfg: Config, env: Env, refuse: Refusal): seq<(string, int, int)>
    requires k <= |cfg.sources| && cfg.processing.chunkOverlap < cfg.processing.chunkSize
    decreases |cfg.sources| - k
  {
    if k == |cfg.sources| then []
    else
      var one := SourceSpec(st, cfg.sources[k], cfg, env, refuse);
      if one.crashed then []
      else SourceUpdate(st, cfg.sources[k], cfg, env, refuse) + SourceUpdates(one.store, k + 1, cfg, env, refuse)
  }

  function FilesTotal(updates: seq<(string, int, int)>): int
    decreases |updates|
  {
    if |updates| == 0 then 0 else updates[0].1 + FilesTotal(updates[1..])
  }

  function ChunksTotal(updates: seq<(string, int, int)>): int
    decreases |updates|
  {
    if |updates| == 0 then 0 else updates[0].2 + ChunksTotal(updates[1..])
  }

  /**
   * A run `r` that ends normally has applied exactly the updates `u` to the
   * per-source statistics `m`, in order, and reports their sums as its totals.
   */
  predicate StatsFollow(m: map<string, SourceStats>, r: Run, u: seq<(string, int, int)>) {
    !r.crashed ==>
      && r.store.ledger.sources == AddSources(m, u)
      && r.files == FilesTotal(u)
      && r.chunks == ChunksTotal(u)
  }

  /**
   * A source loop that ends normally leaves the per-source statistics updated
   * by exactly its `update_source_stats` calls, in order, and reports as its
   * file and chunk totals the sums of what those calls recorded.
   */
  lemma {:induction false} RunSourceStats(st: Store, k: nat, cfg: Config, env: Env, refuse: Refusal)
    requires k <= |cfg.sources| && cfg.processing.chunkOverlap < cfg.processing.chunkSize
    ensures StatsFollow(st.ledger.sources, SourcesSpec(st, k, cfg, env, refuse), SourceUpdates(st, k, cfg, env, refuse))
    decreases |cfg.sources| - k
  {
    if k < |cfg.sources| {
      var src := cfg.sources[k];
      var one := SourceSpec(st, src, cfg, env, refuse);
      SourcesUnfold(st, k, k + 1, cfg, env, refuse);
      UpdatesUnfold(st, k, k + 1, cfg, env, refuse);
      SourceStatsFollow(st, src, cfg, env, refuse);
      RunSourceStats(one.store, k + 1, cfg, env, refuse);
      StatsCombine(st.ledger.sources, one, SourcesSpec(one.store, k + 1, cfg, env, refuse),
        SourceUpdate(st, src, cfg, env, refuse), SourceUpdates(one.store, k + 1, cfg, env, refuse));
    }
  }

  /** One turn of the source loop applies its own update. */
  lemma SourceStatsFollow(st: Store, src: Source, cfg: Config, env: Env, refuse: Refusal)
    requires cfg.processing.chunkOverlap < cfg.processing.chunkSize
    ensures StatsFollow(st.ledger.sources, SourceSpec(st, src, cfg, env, refuse), SourceUpdate(st, src, cfg, env, refuse))
  {
    SourceStats(st, src, cfg, env, refuse);
    var u := SourceUpdate(st, src, cfg, env, refuse);
    if |u| == 1 {
      assert u[1..] == [];
    }
  }

  /** A turn followed by the rest of the loop applies the turn's updates, then the rest's; nothing follows a crash. */
  lemma StatsCombine(m: map<string, SourceStats>, one: Run, rest: Run, u1: seq<(string, int, int)>, u2: seq<(string, int, int)>)
    requires StatsFollow(m, one, u1) && (!one.crashed ==> StatsFollow(one.store.ledger.sources, rest, u2))
    ensures StatsFollow(m, if one.crashed then Run(one.store, 0, 0, true)
                           else Run(rest.store, one.files + rest.files, one.chunks + rest.chunks, rest.crashed),
                        if one.crashed then [] else u1 + u2)
  {
    UpdatesConcat(m, u1, u2);
  }

  /** Applying two runs of updates one after the other is applying their concatenation, and the totals add up. */
  lemma {:induction false} UpdatesConcat(m: map<string, SourceStats>, u1: seq<(string, int, int)>, u2: seq<(string, int, int)>)
    ensures AddSources(m, u1 + u2) == AddSources(AddSources(m, u1), u2)
    ensures FilesTotal(u1 + u2) == FilesTotal(u1) + FilesTotal(u2)
    ensures ChunksTotal(u1 + u2) == ChunksTotal(u1) + ChunksTotal(u2)
    decreases |u1|
  {
    if |u1| == 0 {
      assert u1 + u2 == u2;
    } else {
      var h := u1[0];
      assert (u1 + u2)[0] == h && (u1 + u2)[1..] == u1[1..] + u2;
      UpdatesConcat(AddSource(m, h.0, h.1, h.2), u1[1..], u2);
    }
  }

  /** One turn of `SourceUpdates`, with `next` the index of the source after `cfg.sources[k]`. */
  lemma UpdatesUnfold(st: Store, k: nat, next: nat, cfg: Config, env: Env, refuse: Refusal)
    requires k < |cfg.sources| && next == k + 1 && cfg.processing.chunkOverlap < cfg.processing.chunkSize
    ensures SourceUpdates(st, k, cfg, env, refuse) ==
      var one := SourceSpec(st, cfg.sources[k], cfg, env, refuse);
      if one.crashed then []
      else SourceUpdate(st, cfg.sources[k], cfg, env, refuse) + SourceUpdates(one.store, next, cfg, env, refuse)
  {
  }

  /**
   * After a source loop that ends normally, each source name's `files` and
   * `chunks` counters have grown by the sums the loop's updates for that name
   * recorded (a name shared by two configured sources gets both).
   */
  lemma RunSourceCounters(st: Store, cfg: Config, env: Env, refuse: Refusal, name: string)
    requires cfg.processing.chunkOverlap < cfg.processing.chunkSize
    ensures var r := SourcesSpec(st, 0, cfg, env, refuse);
      var u := SourceUpdates(st, 0, cfg, env, refuse);
      !r.crashed ==>
        && FilesOf(r.store.ledger.sources, name) == FilesOf(st.ledger.sources, name) + FilesFor(u, name)
        && ChunksOf(r.store.ledger.sources, name) == ChunksOf(st.ledger.sources, name) + ChunksFor(u, name)
  {
    RunSourceStats(st, 0, cfg, env, refuse);
    AddSourcesTotals(st.ledger.sources, SourceUpdates(st, 0, cfg, env, refuse), name);
  }

  /**
   * What a run of the source loop (or one turn of it) keeps, from the store it
   * starts on: nothing recorded is lost, no path enters `processed_files`
   * twice, a run that ends normally has added exactly its reported chunk total
   * to `total_chunks`, and it either changed nothing or ended with a save of
   * the final ledger.
   */
  predicate RunKeeps(st: Store, r: Run) {
    && Grows(st, r.store)
    && (NoDuplicates(st.ledger.processedFiles) ==> NoDuplicates(r.store.ledger.processedFiles))
    && (!r.crashed ==> ChunkStat(r.store) == ChunkStat(st) + r.chunks)
    && (!r.crashed ==> r.store == st || (|r.store.saved| > 0 && r.store.saved[|r.store.saved| - 1] == r.store.ledger))
  }

  /** One source keeps RunKeeps. */
  lemma SourceSpecStep(st: Store, src: Source, cfg: Config, env: Env, refuse: Refusal)
    requires cfg.processing.chunkOverlap < cfg.processing.chunkSize
    ensures RunKeeps(st, SourceSpec(st, src, cfg, env, refuse))
  {
    var files := Scan(src.path, env.trees(src.path), FilterOf(src, cfg));
    if files != [] {
      var pass := FilesSpec(st, files, 0, src, cfg, env, refuse);
      FilesSpecStep(st, files, 0, src, cfg, env, refuse);
      if !pass.crashed {
        var s1 := SourceDone(pass.store, src.name, |files|, pass.chunks);
        SaveAndSourceDone(pass.store, src.name, |files|, pass.chunks, env.now);
        SaveAndSourceDone(s1, src.name, |files|, pass.chunks, env.now);
        GrowsTrans(st, pass.store, s1);
        GrowsTrans(st, s1, SaveSpec(s1, env.now));
      }
    }
  }

  /** A source followed by the rest of the loop keeps RunKeeps when each part does. */
  lemma RunKeepsCombine(st: Store, one: Run, rest: Run)
    requires RunKeeps(st, one) && (!one.crashed ==> RunKeeps(one.store, rest))
    ensures RunKeeps(st, if one.crashed then Run(one.store, 0, 0, true)
                         else Run(rest.store, one.files + rest.files, one.chunks + rest.chunks, rest.crashed))
  {
    if !one.crashed {
      GrowsTrans(st, one.store, rest.store);
    }
  }

  /** The whole source loop of `main` keeps RunKeeps. */
  lemma {:induction false} RunGuarantees(st: Store, k: nat, cfg: Config, env: Env, refuse: Refusal)
    requires k <= |cfg.sources| && cfg.processing.chunkOverlap < cfg.processing.chunkSize
    ensures RunKeeps(st, SourcesSpec(st, k, cfg, env, refuse))
    decreases |cfg.sources| - k
  {
    if k < |cfg.sources| {
      var one := SourceSpec(st, cfg.sources[k], cfg, env, refuse);
      SourceSpecStep(st, cfg.sources[k], cfg, env, refuse);
      SourcesUnfold(st, k, k + 1, cfg, env, refuse);
      var rest := SourcesSpec(one.store, k + 1, cfg, env, refuse);
      if !one.crashed {
        RunGuarantees(one.store, k + 1, cfg, env, refuse);
      }
      RunKeepsCombine(st, one, rest);
    }
  }
}
