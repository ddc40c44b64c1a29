/**
 * `ProgressTracker` of build_database.py: the resumable ledger of an indexing
 * run. Its `data` dictionary becomes the fields of a class; the progress file is
 * modelled by the list of snapshots `save()` has written.
 */
module Ledger {
  import opened Wrappers

  /** One entry of `failed_files`. */
  datatype Failure = Failure(file: string, error: string, timestamp: string)

  /** One entry of the per-source `sources` dictionary. */
  datatype SourceStats = SourceStats(files: int, chunks: int)

  /** The whole `data` dictionary, as `save()` writes it to the progress file. */
  datatype Snapshot = Snapshot(
    processedFiles: seq<string>,
    failedFiles: seq<Failure>,
    startTime: string,
    lastCheckpoint: string,
    stats: map<string, int>,
    sources: map<string, SourceStats>)

  /** What `_load` returns when there is no progress file yet. */
  function FreshData(now: string): (d: Snapshot)
    ensures d.processedFiles == [] && d.failedFiles == [] && d.sources == map[]
    ensures d.stats.Keys == {"total_files", "total_chunks", "errors"}
    ensures forall k :: k in d.stats ==> d.stats[k] == 0
  {
    Snapshot([], [], now, now, map["total_files" := 0, "total_chunks" := 0, "errors" := 0], map[])
  }

  /** The value a counter holds before an update: its current value, or 0 when absent. */
  function Base(m: map<string, int>, k: string): int {
    if k in m then m[k] else 0
  }

  /** One keyword of `update_stats`: add to an existing key, or create it. */
  function AddCounter(m: map<string, int>, k: string, v: int): (r: map<string, int>)
    ensures r.Keys == m.Keys + {k}
    ensures r[k] == Base(m, k) + v
    ensures forall j :: j in m && j != k ==> r[j] == m[j]
  {
    m[k := if k in m then m[k] + v else v]
  }

  /** `update_stats(**kwargs)`: the keyword arguments applied in order. */
  function AddCounters(m: map<string, int>, updates: seq<(string, int)>): map<string, int>
    decreases |updates|
  {
    if |updates| == 0 then m else AddCounters(AddCounter(m, updates[0].0, updates[0].1), updates[1..])
  }

  /** The keys of keyword arguments are distinct. */
  predicate DistinctKeys(updates: seq<(string, int)>) {
    forall i, j :: 0 <= i < j < |updates| ==> updates[i].0 != updates[j].0
  }

  /**
   * `update_stats` adds each given value to its key (starting from 0 for a new
   * key) and leaves every other counter as it was.
   */
  lemma {:induction false} AddCountersEffect(m: map<string, int>, updates: seq<(string, int)>)
    requires DistinctKeys(updates)
    ensures var r := AddCounters(m, updates);
      && (forall i :: 0 <= i < |updates| ==> updates[i].0 in r && r[updates[i].0] == Base(m, updates[i].0) + updates[i].1)
      && (forall k :: (forall i :: 0 <= i < |updates| ==> updates[i].0 != k) ==> Base(r, k) == Base(m, k) && (k in r <==> k in m))
    decreases |updates|
  {
    if |updates| > 0 {
      var (k0, v0) := updates[0];
      var m1 := AddCounter(m, k0, v0);
      var rest := updates[1..];
      assert DistinctKeys(rest) by {
        forall i, j | 0 <= i < j < |rest| ensures rest[i].0 != rest[j].0 {
          assert rest[i] == updates[i + 1] && rest[j] == updates[j + 1];
        }
      }
      AddCountersEffect(m1, rest);
      forall i | 1 <= i < |updates| ensures updates[i].0 != k0 {
        assert updates[0].0 != updates[i].0;
      }
      forall i | 0 < i < |updates| ensures Base(m1, updates[i].0) == Base(m, updates[i].0) {
        assert rest[i - 1] == updates[i];
      }
      forall i | 0 <= i < |updates|
        ensures updates[i].0 in AddCounters(m1, rest)
        ensures AddCounters(m1, rest)[updates[i].0] == Base(m, updates[i].0) + updates[i].1
      {
        if i > 0 {
          assert rest[i - 1] == updates[i];
        } else {
          forall j | 0 <= j < |rest| ensures rest[j].0 != k0 {
            assert rest[j] == updates[j + 1];
          }
        }
      }
      forall k | forall i :: 0 <= i < |updates| ==> updates[i].0 != k
        ensures Base(AddCounters(m1, rest), k) == Base(m, k)
        ensures k in AddCounters(m1, rest) <==> k in m
      {
        assert updates[0].0 != k;
        forall i | 0 <= i < |rest| ensures rest[i].0 != k {
          assert rest[i] == updates[i + 1];
        }
      }
    }
  }

  /** `update_source_stats`: start a source at zero on first use, then add both counts. */
  function AddSource(sources: map<string, SourceStats>, name: string, files: int, chunks: int): (r: map<string, SourceStats>)
    ensures r.Keys == sources.Keys + {name}
    ensures forall n :: n in sources && n != name ==> r[n] == sources[n]
  {
    var prev := if name in sources then sources[name] else SourceStats(0, 0);
    sources[name := SourceStats(prev.files + files, prev.chunks + chunks)]
  }

  /** The files counter of a source, 0 before its first update. */
  function FilesOf(sources: map<string, SourceStats>, name: string): int {
    if name in sources then sources[name].files else 0
  }

  function ChunksOf(sources: map<string, SourceStats>, name: string): int {
    if name in sources then sources[name].chunks else 0
  }

  /** The per-source updates one run makes: source name, files found, chunks added. */
  function AddSources(sources: map<string, SourceStats>, updates: seq<(string, int, int)>): map<string, SourceStats>
    decreases |updates|
  {
    if |updates| == 0 then sources
    else AddSources(AddSource(sources, updates[0].0, updates[0].1, updates[0].2), updates[1..])
  }

  /** The sum of the file counts of the updates that name `name`. */
  function FilesFor(updates: seq<(string, int, int)>, name: string): int
    decreases |updates|
  {
    if |updates| == 0 then 0
    else (if updates[0].0 == name then updates[0].1 else 0) + FilesFor(updates[1..], name)
  }

  function ChunksFor(updates: seq<(string, int, int)>, name: string): int
    decreases |updates|
  {
    if |updates| == 0 then 0
    else (if updates[0].0 == name then updates[0].2 else 0) + ChunksFor(updates[1..], name)
  }

  /**
   * After a run of `update_source_stats` calls each source's counters have grown
   * by the sums of its own updates, whatever other sources did in between, and a
   * source appears once it has been updated.
   */
  lemma {:induction false} AddSourcesTotals(sources: map<string, SourceStats>, updates: seq<(string, int, int)>, name: string)
    ensures var r := AddSources(sources, updates);
      && FilesOf(r, name) == FilesOf(sources, name) + FilesFor(updates, name)
      && ChunksOf(r, name) == ChunksOf(sources, name) + ChunksFor(updates, name)
      && (name in r <==> name in sources || exists i :: 0 <= i < |updates| && updates[i].0 == name)
    decreases |updates|
  {
    if |updates| > 0 {
      var s1 := AddSource(sources, updates[0].0, updates[0].1, updates[0].2);
      AddSourcesTotals(s1, updates[1..], name);
      if name in AddSources(sources, updates) && name !in sources && updates[0].0 != name {
        var i :| 0 <= i < |updates[1..]| && updates[1..][i].0 == name;
        assert updates[i + 1].0 == name;
      }
      if exists i :: 0 <= i < |updates| && updates[i].0 == name {
        var i :| 0 <= i < |updates| && updates[i].0 == name;
        if i > 0 {
          assert updates[1..][i - 1].0 == name;
        }
      }
    }
  }

  /** No path occurs twice. */
  predicate NoDuplicates(xs: seq<string>) {
    forall i, j :: 0 <= i < j < |xs| ==> xs[i] != xs[j]
  }

  class ProgressTracker {
    const progressFile: string
    var processedFiles: seq<string>
    var failedFiles: seq<Failure>
    var startTime: string
    var lastCheckpoint: string
    var stats: map<string, int>
    var sources: map<string, SourceStats>
    /** The snapshots `save()` has written, oldest first; the progress file holds the last one. */
    var saved: seq<Snapshot>

    /** The current `self.data`. */
    function Data(): Snapshot
      reads this
    {
      Snapshot(processedFiles, failedFiles, startTime, lastCheckpoint, stats, sources)
    }

    /**
     * `ProgressTracker(progress_file)`: `existing` is the content of the progress
     * file when it exists; otherwise the ledger starts empty at `now`.
     */
    constructor(progressFile: string, existing: Option<Snapshot>, now: string)
      ensures this.progressFile == progressFile
      ensures existing.Some? ==> Data() == existing.value
      ensures existing.None? ==> Data() == FreshData(now)
      ensures saved == []
    {
      this.progressFile := progressFile;
      var d := if existing.Some? then existing.value else FreshData(now);
      processedFiles := d.processedFiles;
      failedFiles := d.failedFiles;
      startTime := d.startTime;
      lastCheckpoint := d.lastCheckpoint;
      stats := d.stats;
      sources := d.sources;
      saved := [];
    }

    /** `save()`: stamp the checkpoint time and write the whole ledger. */
    method Save(now: string)
      modifies this
      ensures lastCheckpoint == now
      ensures saved == old(saved) + [Data()]
      ensures processedFiles == old(processedFiles) && failedFiles == old(failedFiles)
      ensures startTime == old(startTime) && stats == old(stats) && sources == old(sources)
    {
      lastCheckpoint := now;
      saved := saved + [Data()];
    }

    /** `is_processed(file_path)`. */
    predicate IsProcessed(filePath: string)
      reads this
    {
      filePath in processedFiles
    }

    /** `mark_processed(file_path)`: append the path; nothing else changes. */
    method MarkProcessed(filePath: string)
      modifies this
      ensures processedFiles == old(processedFiles) + [filePath]
      ensures IsProcessed(filePath)
      ensures forall f :: old(IsProcessed(f)) ==> IsProcessed(f)
      ensures failedFiles == old(failedFiles) && stats == old(stats) && sources == old(sources)
      ensures startTime == old(startTime) && lastCheckpoint == old(lastCheckpoint) && saved == old(saved)
    {
      processedFiles := processedFiles + [filePath];
    }

    /** `mark_failed(file_path, error)`: append exactly one failure record; the processed list is untouched. */
    method MarkFailed(filePath: string, error: string, now: string)
      modifies this
      ensures failedFiles == old(failedFiles) + [Failure(filePath, error, now)]
      ensures processedFiles == old(processedFiles) && stats == old(stats) && sources == old(sources)
      ensures startTime == old(startTime) && lastCheckpoint == old(lastCheckpoint) && saved == old(saved)
    {
      failedFiles := failedFiles + [Failure(filePath, error, now)];
    }

    /** `update_stats(**kwargs)`, the keyword arguments given as (key, value) pairs in order. */
    method UpdateStats(updates: seq<(string, int)>)
      modifies this
      ensures stats == AddCounters(old(stats), updates)
      ensures processedFiles == old(processedFiles) && failedFiles == old(failedFiles) && sources == old(sources)
      ensures startTime == old(startTime) && lastCheckpoint == old(lastCheckpoint) && saved == old(saved)
    {
      var i := 0;
      while i < |updates|
        invariant 0 <= i <= |updates|
        invariant AddCounters(stats, updates[i..]) == AddCounters(old(stats), updates)
        invariant processedFiles == old(processedFiles) && failedFiles == old(failedFiles) && sources == old(sources)
        invariant startTime == old(startTime) && lastCheckpoint == old(lastCheckpoint) && saved == old(saved)
      {
        var (key, value) := updates[i];
        assert updates[i..][1..] == updates[i + 1..];
        if key in stats {
          stats := stats[key := stats[key] + value];
        } else {
          stats := stats[key := value];
        }
        i := i + 1;
      }
    }

    /** `update_source_stats(source_name, files, chunks)`. */
    method UpdateSourceStats(sourceName: string, files: int, chunks: int)
      modifies this
      ensures sources == AddSource(old(sources), sourceName, files, chunks)
      ensures processedFiles == old(processedFiles) && failedFiles == old(failedFiles) && stats == old(stats)
      ensures startTime == old(startTime) && lastCheckpoint == old(lastCheckpoint) && saved == old(saved)
    {
      if sourceName !in sources {
        sources := sources[sourceName := SourceStats(0, 0)];
      }
      var prev := sources[sourceName];
      sources := sources[sourceName := SourceStats(prev.files + files, prev.chunks + chunks)];
    }
  }
}
