/**
 * The parts of `Config` in build_database.py that the builder reads: the enabled
 * sources, the processing parameters, the limits and exclusions, and the
 * checkpoint cadence, together with `validate()`.
 */
module Settings {
  import PyText

  /** One entry of the `sources` list: its name, root path, type, extensions and switch. */
  datatype Source = Source(name: string, path: string, kind: string, extensions: seq<string>, enabled: bool)

  /** The `processing` section. */
  datatype Processing = Processing(
    chunkSize: int,
    chunkOverlap: int,
    minChunkSize: int,
    maxChunksPerFile: int,
    batchSize: int)

  /** A loaded configuration; `sources` holds the enabled sources only. */
  datatype Config = Config(
    sources: seq<Source>,
    processing: Processing,
    maxFileSizeMb: int,
    excludeDirs: set<string>,
    excludeFiles: set<string>,
    saveEvery: int)

  /** `[s for s in data['sources'] if s['enabled']]`. */
  function EnabledSources(all: seq<Source>): (r: seq<Source>)
    ensures |r| <= |all|
    decreases |all|
  {
    if |all| == 0 then []
    else (if all[0].enabled then [all[0]] else []) + EnabledSources(all[1..])
  }

  /** The filter keeps exactly the enabled sources: every kept source is enabled and configured, and every enabled one is kept. */
  lemma {:induction false} EnabledSourcesSpec(all: seq<Source>)
    ensures var r := EnabledSources(all);
      && (forall s :: s in r <==> s in all && s.enabled)
      && (forall i :: 0 <= i < |r| ==> r[i].enabled)
    decreases |all|
  {
    if |all| > 0 {
      EnabledSourcesSpec(all[1..]);
      var rest := EnabledSources(all[1..]);
      if all[0].enabled {
        assert forall i :: 0 < i < |[all[0]] + rest| ==> ([all[0]] + rest)[i] == rest[i - 1];
      }
      assert forall s :: s in all <==> s == all[0] || s in all[1..];
    }
  }

  /**
   * The filter keeps the configured order and repetitions: filtering two lists
   * one after the other is filtering their concatenation, and one source is kept
   * exactly when it is enabled. The main loop visits the sources in this order.
   */
  lemma {:induction false} EnabledSourcesOrder(a: seq<Source>, b: seq<Source>)
    ensures EnabledSources(a + b) == EnabledSources(a) + EnabledSources(b)
    ensures forall s :: EnabledSources([s]) == if s.enabled then [s] else []
    decreases |a|
  {
    if |a| == 0 {
      assert a + b == b;
    } else {
      assert (a + b)[1..] == a[1..] + b;
      EnabledSourcesOrder(a[1..], b);
      var head := if a[0].enabled then [a[0]] else [];
      PyText.ConcatAssoc(head, EnabledSources(a[1..]), EnabledSources(b));
    }
    forall s ensures EnabledSources([s]) == if s.enabled then [s] else [] {
      assert [s][1..] == [];
    }
  }

  /** The message for a configuration with no enabled source. */
  const NoSourcesMessage := "No sources enabled! Enable at least one source in database_config.yaml"

  /** The message for a source root that does not exist. */
  function MissingPathMessage(path: string): string {
    "Source path does not exist: " + path
  }

  /** One error per enabled source whose path does not exist, in order. */
  function MissingPaths(sources: seq<Source>, pathExists: string -> bool): (errors: seq<string>)
    ensures |errors| <= |sources|
    decreases |sources|
  {
    if |sources| == 0 then []
    else (if pathExists(sources[0].path) then [] else [MissingPathMessage(sources[0].path)])
         + MissingPaths(sources[1..], pathExists)
  }

  /** The errors `validate()` collects before it exits; `pathExists` stands for `Path.exists`. */
  function Validate(cfg: Config, pathExists: string -> bool): seq<string> {
    (if cfg.sources == [] then [NoSourcesMessage] else []) + MissingPaths(cfg.sources, pathExists)
  }

  lemma {:induction false} MissingPathsEmpty(sources: seq<Source>, pathExists: string -> bool)
    ensures MissingPaths(sources, pathExists) == [] <==> forall i :: 0 <= i < |sources| ==> pathExists(sources[i].path)
    decreases |sources|
  {
    if |sources| > 0 {
      MissingPathsEmpty(sources[1..], pathExists);
      assert forall i :: 0 < i < |sources| ==> sources[i] == sources[1..][i - 1];
    }
  }

  /** `validate()` passes exactly when some source is enabled and every enabled source's path exists. */
  lemma ValidateAccepts(cfg: Config, pathExists: string -> bool)
    ensures Validate(cfg, pathExists) == [] <==>
      cfg.sources != [] && forall i :: 0 <= i < |cfg.sources| ==> pathExists(cfg.sources[i].path)
  {
    MissingPathsEmpty(cfg.sources, pathExists);
  }

  /** `Validate` does not look at the chunking parameters: a configuration whose overlap stalls `chunk_text` passes it. */
  lemma ValidateIgnoresOverlap(cfg: Config, pathExists: string -> bool, overlap: int)
    ensures Validate(cfg, pathExists) == Validate(cfg.(processing := cfg.processing.(chunkOverlap := overlap)), pathExists)
  {
  }

  /** The message the corrected validation adds for an overlap that would never let `chunk_text` advance. */
  const OverlapMessage := "chunk_overlap must be smaller than chunk_size"

  /** The validation the chunker needs: `Validate`, plus a check that the overlap is below the chunk size. */
  function ValidateChunking(cfg: Config, pathExists: string -> bool): seq<string> {
    Validate(cfg, pathExists)
    + (if cfg.processing.chunkOverlap < cfg.processing.chunkSize then [] else [OverlapMessage])
  }

  /** A configuration the corrected validation accepts passes `Validate` and has an overlap below the chunk size. */
  lemma ValidateChunkingAccepts(cfg: Config, pathExists: string -> bool)
    ensures ValidateChunking(cfg, pathExists) == [] <==>
      Validate(cfg, pathExists) == [] && cfg.processing.chunkOverlap < cfg.processing.chunkSize
  {
  }
}
