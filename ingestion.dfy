/**
 * `process_file` and the main build loop of build_database.py. The state of a
 * build is the progress tracker and the vector collection; the two are objects
 * whose methods the code calls, and what one call or the whole run leaves in
 * them is stated by the functions `ProcessFileSpec` and `SourcesSpec` on a
 * `Store` value.
 */
module Ingestion {
  import opened Wrappers
  import opened PyText
  import opened Json
  import opened Chunking
  import opened Ledger
  import opened Settings
  import opened Catalog
  import opened Identity
  import opened Batching

  /**
   * What the code reads from outside: the tree `os.walk` visits from each root,
   * the text `read_file_content` returns for each path (None when reading fails),
   * the MD5 digest of each path, `Path.exists`, and the clock.
   */
  datatype Env = Env(
    trees: string -> Dir,
    contents: string -> Option<string>,
    md5: string -> Digest,
    pathExists: string -> bool,
    now: string)

  /** The state of a build: the tracker's data, the snapshots it has saved, and the batches the collection holds. */
  datatype Store = Store(ledger: Snapshot, saved: seq<Snapshot>, batches: seq<Batch>)

  function StoreOf(progress: ProgressTracker, collection: Collection): Store
    reads progress, collection
  {
    Store(progress.Data(), progress.saved, collection.batches)
  }

  const UnreadableError := "Could not read content"
  const NoChunksError := "No chunks generated"
  /** The message of the `ValueError` that `range(0, n, 0)` raises inside the `try`. */
  const RangeStepError := "range() arg 3 must not be zero"

  /** `mark_failed(path, error)` on the store. */
  function Fail(st: Store, path: string, error: string, now: string): Store {
    st.(ledger := st.ledger.(failedFiles := st.ledger.failedFiles + [Failure(path, error, now)]))
  }

  /** `mark_processed(path)` followed by `update_stats(total_chunks=n)`. */
  function Indexed(l: Snapshot, path: string, n: int): Snapshot {
    l.(processedFiles := l.processedFiles + [path], stats := AddCounters(l.stats, [("total_chunks", n)]))
  }

  /** The batches `process_file` hands to `add` for the capped chunks of `path`; none for a negative batch size. */
  function Handover(path: string, src: Source, chunks: seq<string>, batchSize: int, env: Env): seq<Batch> {
    if batchSize <= 0 then []
    else
      var n := |chunks|;
      BatchesFrom(Ids(src.kind, FileId(env.md5(path)), n), chunks, Metadatas(path, src.name, src.kind, n, env.now), 0, batchSize)
  }

  /** `process_file(file_path, source['name'], source['type'], collection, config, progress)`: the new store and the returned count. */
  function ProcessFileSpec(st: Store, path: string, src: Source, p: Processing, env: Env, refuse: Refusal): (Store, int)
    requires p.chunkOverlap < p.chunkSize
  {
    if path in st.ledger.processedFiles then (st, 0)
    else
      var content := env.contents(path);
      if content.None? || content.value == "" then (Fail(st, path, UnreadableError, env.now), 0)
      else
        var all := Chunks(content.value, p.chunkSize, p.chunkOverlap, p.minChunkSize);
        if all == [] then (Fail(st, path, NoChunksError, env.now), 0)
        else if p.batchSize == 0 then (Fail(st, path, RangeStepError, env.now), 0)
        else
          var chunks := Capped(all, p.maxChunksPerFile);
          var (after, err) := Submit(st.batches, Handover(path, src, chunks, p.batchSize, env), refuse);
          if err.Some? then (Fail(st.(batches := after), path, err.value, env.now), 0)
          else (Store(Indexed(st.ledger, path, |chunks|), st.saved, after), |chunks|)
  }

  /** `process_file`, over the tracker and the collection. */
  method ProcessFile(path: string, src: Source, p: Processing, env: Env, collection: Collection, progress: ProgressTracker)
    returns (n: int)
    requires p.chunkOverlap < p.chunkSize
    modifies collection, progress
    ensures (StoreOf(progress, collection), n) == ProcessFileSpec(old(StoreOf(progress, collection)), path, src, p, env, collection.refuse)
  {
    if progress.IsProcessed(path) {
      return 0;
    }
    var content := env.contents(path);
    if content.None? || content.value == "" {
      progress.MarkFailed(path, UnreadableError, env.now);
      return 0;
    }
    var chunks := ChunkText(content.value, p.chunkSize, p.chunkOverlap, p.minChunkSize);
    if chunks == [] {
      progress.MarkFailed(path, NoChunksError, env.now);
      return 0;
    }
    if |chunks| > p.maxChunksPerFile {
      chunks := PySlice(chunks, 0, p.maxChunksPerFile);
    }
    var fileId := FileId(env.md5(path));
    var ids := Ids(src.kind, fileId, |chunks|);
    var metadatas := Metadatas(path, src.name, src.kind, |chunks|, env.now);
    var batchSize := p.batchSize;
    if batchSize == 0 {
      progress.MarkFailed(path, RangeStepError, env.now);
      return 0;
    }
    var err := AddBatches(ids, chunks, metadatas, batchSize, collection);
    if err.Some? {
      progress.MarkFailed(path, err.value, env.now);
      return 0;
    }
    progress.MarkProcessed(path);
    progress.UpdateStats([("total_chunks", |chunks|)]);
    return |chunks|;
  }

  /** The `for i in range(0, len(chunks), batch_size)` loop of `add` calls, for a non-zero batch size. */
  method AddBatches(ids: seq<string>, chunks: seq<string>, metadatas: seq<Dict>, batchSize: int, collection: Collection)
    returns (err: Option<string>)
    requires |ids| == |chunks| == |metadatas| && batchSize != 0
    modifies collection
    ensures (collection.batches, err)
         == Submit(old(collection.batches), if batchSize < 0 then [] else BatchesFrom(ids, chunks, metadatas, 0, batchSize), collection.refuse)
  {
    if batchSize < 0 {
      return None;
    }
    ghost var goal := Submit(collection.batches, BatchesFrom(ids, chunks, metadatas, 0, batchSize), collection.refuse);
    var i: nat := 0;
    while i < |chunks|
      invariant goal == Submit(collection.batches, BatchesFrom(ids, chunks, metadatas, i, batchSize), collection.refuse)
      decreases |chunks| - i
    {
      var batchEnd := Min(i + batchSize, |chunks|);
      err := collection.Add(Batch(ids[i..batchEnd], chunks[i..batchEnd], metadatas[i..batchEnd]));
      if err.Some? {
        return err;
      }
      i := i + batchSize;
    }
    return None;
  }

  /** `save()` on the store: stamp the checkpoint and write the ledger. */
  function SaveSpec(st: Store, now: string): Store {
    var l := st.ledger.(lastCheckpoint := now);
    st.(ledger := l, saved := st.saved + [l])
  }

  /** `update_source_stats(name, files, chunks)` on the store. */
  function SourceDone(st: Store, name: string, files: int, chunks: int): Store {
    st.(ledger := st.ledger.(sources := AddSource(st.ledger.sources, name, files, chunks)))
  }

  /** The selection settings `scan_directory` reads for one source. */
  function FilterOf(src: Source, cfg: Config): Filter {
    Filter(src.extensions, cfg.maxFileSizeMb, cfg.excludeDirs, cfg.excludeFiles)
  }

  /** The outcome of the file loop of one source: the store, the chunks added, and whether `% save_every` raised. */
  datatype Pass = Pass(store: Store, chunks: int, crashed: bool)

  /**
   * The loop `for i, file_path in enumerate(files)` from file `i` on: process
   * the file, then save when `(i + 1) % save_every == 0`. With `save_every == 0`
   * the modulo raises `ZeroDivisionError` after the first file, which ends the
   * program. (Python's `%` takes the sign of the divisor and Dafny's is never
   * negative, but both are zero exactly when the divisor divides `i + 1`.)
   */
  function FilesSpec(st: Store, files: seq<string>, i: nat, src: Source, cfg: Config, env: Env, refuse: Refusal): Pass
    requires i <= |files| && cfg.processing.chunkOverlap < cfg.processing.chunkSize
    decreases |files| - i
  {
    if i == |files| then Pass(st, 0, false)
    else
      var (s1, c) := ProcessFileSpec(st, files[i], src, cfg.processing, env, refuse);
      if cfg.saveEvery == 0 then Pass(s1, c, true)
      else
        var s2 := if (i + 1) % cfg.saveEvery == 0 then SaveSpec(s1, env.now) else s1;
        var rest := FilesSpec(s2, files, i + 1, src, cfg, env, refuse);
        Pass(rest.store, c + rest.chunks, rest.crashed)
  }

  /** The outcome of the source loop: the store, the file and chunk totals, and whether it crashed. */
  datatype Run = Run(store: Store, files: int, chunks: int, crashed: bool)

  /**
   * The loop over `config.sources` from source `k` on: scan, skip a source with
   * no files, otherwise process its files, record its statistics and save.
   */
  function SourcesSpec(st: Store, k: nat, cfg: Config, env: Env, refuse: Refusal): Run
    requires k <= |cfg.sources| && cfg.processing.chunkOverlap < cfg.processing.chunkSize
    decreases |cfg.sources| - k
  {
    if k == |cfg.sources| then Run(st, 0, 0, false)
    else
      var one := SourceSpec(st, cfg.sources[k], cfg, env, refuse);
      if one.crashed then Run(one.store, 0, 0, true)
      else
        var rest := SourcesSpec(one.store, k + 1, cfg, env, refuse);
        Run(rest.store, one.files + rest.files, one.chunks + rest.chunks, rest.crashed)
  }

  /** One turn of the source loop: nothing for a source with no files, otherwise its files, its statistics and a save. */
  function SourceSpec(st: Store, src: Source, cfg: Config, env: Env, refuse: Refusal): Run
    requires cfg.processing.chunkOverlap < cfg.processing.chunkSize
  {
    var files := Scan(src.path, env.trees(src.path), FilterOf(src, cfg));
    if files == [] then Run(st, 0, 0, false)
    else
      var pass := FilesSpec(st, files, 0, src, cfg, env, refuse);
      if pass.crashed then Run(pass.store, 0, 0, true)
      else Run(SaveSpec(SourceDone(pass.store, src.name, |files|, pass.chunks), env.now), |files|, pass.chunks, false)
  }

  /** One turn of the file loop, with `next` the index of the file after `files[i]`. */
  lemma FilesUnfold(st: Store, files: seq<string>, i: nat, next: nat, src: Source, cfg: Config, env: Env, refuse: Refusal)
    requires i < |files| && next == i + 1 && cfg.processing.chunkOverlap < cfg.processing.chunkSize
    ensures FilesSpec(st, files, i, src, cfg, env, refuse) ==
      var (s1, c) := ProcessFileSpec(st, files[i], src, cfg.processing, env, refuse);
      if cfg.saveEvery == 0 then Pass(s1, c, true)
      else
        var s2 := if next % cfg.saveEvery == 0 then SaveSpec(s1, env.now) else s1;
        var rest := FilesSpec(s2, files, next, src, cfg, env, refuse);
        Pass(rest.store, c + rest.chunks, rest.crashed)
  {
  }

  /** One turn of the source loop, with `next` the index of the source after `cfg.sources[k]`. */
  lemma SourcesUnfold(st: Store, k: nat, next: nat, cfg: Config, env: Env, refuse: Refusal)
    requires k < |cfg.sources| && next == k + 1 && cfg.processing.chunkOverlap < cfg.processing.chunkSize
    ensures SourcesSpec(st, k, cfg, env, refuse) ==
      var one := SourceSpec(st, cfg.sources[k], cfg, env, refuse);
      if one.crashed then Run(one.store, 0, 0, true)
      else
        var rest := SourcesSpec(one.store, next, cfg, env, refuse);
        Run(rest.store, one.files + rest.files, one.chunks + rest.chunks, rest.crashed)
  {
  }

  /** The file loop of one source in `main`, returning the chunks added and whether it crashed. */
  method ProcessFiles(files: seq<string>, src: Source, cfg: Config, env: Env, collection: Collection, progress: ProgressTracker)
    returns (sourceChunks: int, crashed: bool)
    requires cfg.processing.chunkOverlap < cfg.processing.chunkSize
    modifies collection, progress
    ensures Pass(StoreOf(progress, collection), sourceChunks, crashed)
         == FilesSpec(old(StoreOf(progress, collection)), files, 0, src, cfg, env, collection.refuse)
  {
    ghost var goal := FilesSpec(StoreOf(progress, collection), files, 0, src, cfg, env, collection.refuse);
    sourceChunks := 0;
    var i := 0;
    while i < |files|
      invariant 0 <= i <= |files|
      invariant var rest := FilesSpec(StoreOf(progress, collection), files, i, src, cfg, env, collection.refuse);
        goal == Pass(rest.store, sourceChunks + rest.chunks, rest.crashed)
      decreases |files| - i
    {
      ghost var before := StoreOf(progress, collection);
      var chunks := ProcessFile(files[i], src, cfg.processing, env, collection, progress);
      sourceChunks := sourceChunks + chunks;
      if cfg.saveEvery == 0 {
        FilesUnfold(before, files, i, i + 1, src, cfg, env, collection.refuse);
        return sourceChunks, true;
      }
      if (i + 1) % cfg.saveEvery == 0 {
        progress.Save(env.now);
      }
      ghost var previous := i;
      i := i + 1;
      FilesUnfold(before, files, previous, i, src, cfg, env, collection.refuse);
    }
    crashed := false;
  }

  /** One turn of the loop over the enabled sources in `main`. */
  method ProcessSource(src: Source, cfg: Config, env: Env, collection: Collection, progress: ProgressTracker)
    returns (fileCount: int, sourceChunks: int, crashed: bool)
    requires cfg.processing.chunkOverlap < cfg.processing.chunkSize
    modifies collection, progress
    ensures Run(StoreOf(progress, collection), fileCount, sourceChunks, crashed)
         == SourceSpec(old(StoreOf(progress, collection)), src, cfg, env, collection.refuse)
  {
    var files := ScanDirectory(src.path, env.trees(src.path), FilterOf(src, cfg));
    if files == [] {
      return 0, 0, false;
    }
    sourceChunks, crashed := ProcessFiles(files, src, cfg, env, collection, progress);
    if crashed {
      return 0, 0, true;
    }
    progress.UpdateSourceStats(src.name, |files|, sourceChunks);
    progress.Save(env.now);
    fileCount := |files|;
  }

  /** The loop over the enabled sources in `main`, returning the totals and whether it crashed. */
  method RunSources(cfg: Config, env: Env, collection: Collection, progress: ProgressTracker)
    returns (totalFiles: int, totalChunks: int, crashed: bool)
    requires cfg.processing.chunkOverlap < cfg.processing.chunkSize
    modifies collection, progress
    ensures Run(StoreOf(progress, collection), totalFiles, totalChunks, crashed)
         == SourcesSpec(old(StoreOf(progress, collection)), 0, cfg, env, collection.refuse)
  {
    ghost var goal := SourcesSpec(StoreOf(progress, collection), 0, cfg, env, collection.refuse);
    totalFiles, totalChunks := 0, 0;
    var k := 0;
    while k < |cfg.sources|
      invariant 0 <= k <= |cfg.sources|
      invariant var rest := SourcesSpec(StoreOf(progress, collection), k, cfg, env, collection.refuse);
        goal == Run(rest.store, totalFiles + rest.files, totalChunks + rest.chunks, rest.crashed)
      decreases |cfg.sources| - k
    {
      ghost var before := StoreOf(progress, collection);
      var fileCount, sourceChunks, stopped := ProcessSource(cfg.sources[k], cfg, env, collection, progress);
      if stopped {
        SourcesUnfold(before, k, k + 1, cfg, env, collection.refuse);
        return totalFiles, totalChunks, true;
      }
      totalFiles := totalFiles + fileCount;
      totalChunks := totalChunks + sourceChunks;
      ghost var previous := k;
      k := k + 1;
      SourcesUnfold(before, previous, k, cfg, env, collection.refuse);
    }
    crashed := false;
  }

  /** How a build ends: `validate()` exits with its errors, the loop crashes, or the build completes with its totals. */
  datatype Outcome = Invalid(errors: seq<string>) | Crashed | Built(files: int, chunks: int)

  /**
   * `main()` from validation to the final totals, with the validation that
   * also rejects an overlap that would stall `chunk_text`.
   */
  method BuildDatabase(cfg: Config, env: Env, collection: Collection, progress: ProgressTracker)
    returns (outcome: Outcome)
    modifies collection, progress
    ensures ValidateChunking(cfg, env.pathExists) != [] ==>
      outcome == Invalid(ValidateChunking(cfg, env.pathExists)) && StoreOf(progress, collection) == old(StoreOf(progress, collection))
    ensures ValidateChunking(cfg, env.pathExists) == [] ==>
      cfg.processing.chunkOverlap < cfg.processing.chunkSize &&
      var r := SourcesSpec(old(StoreOf(progress, collection)), 0, cfg, env, collection.refuse);
      StoreOf(progress, collection) == r.store && outcome == (if r.crashed then Crashed else Built(r.files, r.chunks))
  {
    var errors := ValidateChunking(cfg, env.pathExists);
    if errors != [] {
      return Invalid(errors);
    }
    ValidateChunkingAccepts(cfg, env.pathExists);
    var files, chunks, crashed := RunSources(cfg, env, collection, progress);
    outcome := if crashed then Crashed else Built(files, chunks);
  }
}
