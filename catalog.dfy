/**
 * File selection in build_database.py: `should_process_file` and
 * `scan_directory`. The directory tree that `os.walk` visits is a value; the
 * walk itself is the explicit stack of directories still to visit.
 */
module Catalog {
  import opened Wrappers
  import opened PyText
  import opened PyPath

  /** A directory entry that is not a directory: its name and the size `stat()` reports (None when `stat()` fails). */
  datatype FileEntry = FileEntry(name: string, size: Option<nat>)

  /** A directory as `os.walk` lists it: its files and its sub-directories, in listing order. */
  datatype Dir = Dir(files: seq<FileEntry>, subdirs: seq<Subdir>)
  datatype Subdir = Subdir(name: string, dir: Dir)

  /** One mebibyte: `size_mb` is the byte count divided by this. */
  const BytesPerMb: nat := 1024 * 1024

  /** The file lies below one of the excluded directory names. */
  predicate InExcludedDir(filePath: string, excludeDirs: set<string>) {
    exists d :: d in excludeDirs && d in Parts(filePath)
  }

  /**
   * `should_process_file`: `stat()` must succeed, the size in megabytes must not
   * exceed the limit, no excluded directory name may be a part of the path, and
   * the file name must not be excluded. The size test `st_size / 2**20 > max_size_mb`
   * is stated on the integer byte count.
   */
  function ShouldProcessFile(filePath: string, size: Option<nat>, maxSizeMb: int,
                             excludeDirs: set<string>, excludeFiles: set<string>): bool
  {
    match size
    case None => false
    case Some(bytes) =>
      if bytes > maxSizeMb * BytesPerMb then false
      else if InExcludedDir(filePath, excludeDirs) then false
      else Name(filePath) !in excludeFiles
  }

  /** Each of the four rejections of `should_process_file`, and acceptance when none applies. */
  lemma ShouldProcessFileIff(filePath: string, size: Option<nat>, maxSizeMb: int,
                             excludeDirs: set<string>, excludeFiles: set<string>)
    ensures size.None? ==> !ShouldProcessFile(filePath, size, maxSizeMb, excludeDirs, excludeFiles)
    ensures size.Some? && size.value > maxSizeMb * BytesPerMb ==> !ShouldProcessFile(filePath, size, maxSizeMb, excludeDirs, excludeFiles)
    ensures forall d :: d in excludeDirs && d in Parts(filePath) ==> !ShouldProcessFile(filePath, size, maxSizeMb, excludeDirs, excludeFiles)
    ensures Name(filePath) in excludeFiles ==> !ShouldProcessFile(filePath, size, maxSizeMb, excludeDirs, excludeFiles)
    ensures (&& size.Some? && size.value <= maxSizeMb * BytesPerMb
             && (forall d :: d in excludeDirs ==> d !in Parts(filePath))
             && Name(filePath) !in excludeFiles)
            ==> ShouldProcessFile(filePath, size, maxSizeMb, excludeDirs, excludeFiles)
  {
  }

  /** The size test on bytes agrees with the source's test on megabytes: `bytes / 2**20 > max` exactly when `bytes > max * 2**20`. */
  lemma SizeTestInMegabytes(bytes: nat, maxSizeMb: int)
    ensures (bytes as real) / (BytesPerMb as real) > maxSizeMb as real <==> bytes > maxSizeMb * BytesPerMb
  {
    var q := (bytes as real) / (BytesPerMb as real);
    assert q * (BytesPerMb as real) == bytes as real;
  }

  /** `Path(filename).suffix.lower() in extensions`. */
  predicate HasExtension(fileName: string, extensions: seq<string>) {
    Lower(SuffixOfName(fileName)) in extensions
  }

  /** The selection settings `scan_directory` passes on. */
  datatype Filter = Filter(extensions: seq<string>, maxSizeMb: int, excludeDirs: set<string>, excludeFiles: set<string>)

  /** The file at `path` with this entry is kept by the extension test and by `should_process_file`. */
  predicate Selected(path: string, e: FileEntry, f: Filter) {
    HasExtension(e.name, f.extensions) && ShouldProcessFile(path, e.size, f.maxSizeMb, f.excludeDirs, f.excludeFiles)
  }

  /** The kept paths among the files of one directory, in listing order. */
  function FilesHere(root: string, files: seq<FileEntry>, f: Filter): seq<string>
    decreases |files|
  {
    if |files| == 0 then []
    else (if Selected(Join(root, files[0].name), files[0], f) then [Join(root, files[0].name)] else [])
         + FilesHere(root, files[1..], f)
  }

  /** `scan_directory` from directory `d` at `root`: its own kept files, then each non-excluded sub-directory in turn (top-down `os.walk`). */
  function Scan(root: string, d: Dir, f: Filter): seq<string>
    decreases d
  {
    FilesHere(root, d.files, f) + ScanSubdirs(root, d.subdirs, f)
  }

  function ScanSubdirs(root: string, subs: seq<Subdir>, f: Filter): seq<string>
    decreases subs
  {
    if |subs| == 0 then []
    else (if subs[0].name in f.excludeDirs then [] else Scan(Join(root, subs[0].name), subs[0].dir, f))
         + ScanSubdirs(root, subs[1..], f)
  }

  /** `dirs[:] = [d for d in dirs if d not in exclude_dirs]`. */
  function Pruned(subs: seq<Subdir>, excludeDirs: set<string>): (r: seq<Subdir>)
    ensures forall s :: s in r <==> s in subs && s.name !in excludeDirs
    decreases |subs|
  {
    if |subs| == 0 then []
    else (if subs[0].name in excludeDirs then [] else [subs[0]]) + Pruned(subs[1..], excludeDirs)
  }

  /** The directories still to visit, each with the path `os.walk` reports for it. */
  type Pending = seq<(string, Dir)>

  /** The pruned sub-directories of `root`, as the walk pushes them. */
  function Children(root: string, subs: seq<Subdir>): (r: Pending)
    ensures |r| == |subs|
    ensures forall i :: 0 <= i < |subs| ==> r[i] == (Join(root, subs[i].name), subs[i].dir)
  {
    seq(|subs|, i requires 0 <= i < |subs| => (Join(root, subs[i].name), subs[i].dir))
  }

  lemma ChildrenCons(root: string, s: Subdir, rest: seq<Subdir>)
    ensures Children(root, [s] + rest) == [(Join(root, s.name), s.dir)] + Children(root, rest)
  {
    var l := Children(root, [s] + rest);
    var r := [(Join(root, s.name), s.dir)] + Children(root, rest);
    assert |l| == |r|;
    forall i | 0 <= i < |l| ensures l[i] == r[i] {
      if i > 0 {
        assert ([s] + rest)[i] == rest[i - 1];
      }
    }
  }

  /** What the walk still produces from the pending directories, visited first to last. */
  function ScanPending(stack: Pending, f: Filter): seq<string>
    decreases |stack|
  {
    if |stack| == 0 then [] else Scan(stack[0].0, stack[0].1, f) + ScanPending(stack[1..], f)
  }

  lemma {:induction false} ScanPendingAppend(a: Pending, b: Pending, f: Filter)
    ensures ScanPending(a + b, f) == ScanPending(a, f) + ScanPending(b, f)
    decreases |a|
  {
    if |a| > 0 {
      assert (a + b)[1..] == a[1..] + b;
      ScanPendingAppend(a[1..], b, f);
      ConcatAssoc(Scan(a[0].0, a[0].1, f), ScanPending(a[1..], f), ScanPending(b, f));
    } else {
      assert a + b == b;
    }
  }

  /** Visiting the pruned children one after another is what ScanSubdirs produces. */
  lemma {:induction false} ScanSubdirsIsPending(root: string, subs: seq<Subdir>, f: Filter)
    ensures ScanSubdirs(root, subs, f) == ScanPending(Children(root, Pruned(subs, f.excludeDirs)), f)
    decreases |subs|
  {
    if |subs| > 0 {
      ScanSubdirsIsPending(root, subs[1..], f);
      var rest := Pruned(subs[1..], f.excludeDirs);
      if subs[0].name in f.excludeDirs {
        assert Pruned(subs, f.excludeDirs) == rest;
      } else {
        assert Pruned(subs, f.excludeDirs) == [subs[0]] + rest;
        ChildrenCons(root, subs[0], rest);
        ScanPendingAppend([(Join(root, subs[0].name), subs[0].dir)], Children(root, rest), f);
        assert ScanPending([(Join(root, subs[0].name), subs[0].dir)], f) == Scan(Join(root, subs[0].name), subs[0].dir, f) + [];
      }
    }
  }

  /** The number of directories in a tree, which bounds the walk. */
  function Size(d: Dir): nat
    decreases d
  {
    1 + SubdirsSize(d.subdirs)
  }

  function SubdirsSize(subs: seq<Subdir>): nat
    decreases subs
  {
    if |subs| == 0 then 0 else Size(subs[0].dir) + SubdirsSize(subs[1..])
  }

  function PendingSize(stack: Pending): nat
    decreases |stack|
  {
    if |stack| == 0 then 0 else Size(stack[0].1) + PendingSize(stack[1..])
  }

  lemma {:induction false} PendingSizeAppend(a: Pending, b: Pending)
    ensures PendingSize(a + b) == PendingSize(a) + PendingSize(b)
    decreases |a|
  {
    if |a| > 0 {
      assert (a + b)[1..] == a[1..] + b;
      PendingSizeAppend(a[1..], b);
    } else {
      assert a + b == b;
    }
  }

  lemma {:induction false} ChildrenSize(root: string, subs: seq<Subdir>, excludeDirs: set<string>)
    ensures PendingSize(Children(root, Pruned(subs, excludeDirs))) <= SubdirsSize(subs)
    decreases |subs|
  {
    if |subs| > 0 {
      ChildrenSize(root, subs[1..], excludeDirs);
      var rest := Pruned(subs[1..], excludeDirs);
      if subs[0].name !in excludeDirs {
        assert Pruned(subs, excludeDirs) == [subs[0]] + rest;
        ChildrenCons(root, subs[0], rest);
        var one: Pending := [(Join(root, subs[0].name), subs[0].dir)];
        PendingSizeAppend(one, Children(root, rest));
        assert one[1..] == [];
        assert PendingSize(one) == Size(subs[0].dir);
      } else {
        assert Pruned(subs, excludeDirs) == rest;
      }
    }
  }

  /** One step of FilesHere, at position `j` of the listing. */
  lemma FilesHereStep(root: string, files: seq<FileEntry>, j: nat, f: Filter)
    requires j < |files|
    ensures FilesHere(root, files[j..], f)
      == (if Selected(Join(root, files[j].name), files[j], f) then [Join(root, files[j].name)] else [])
         + FilesHere(root, files[j + 1..], f)
  {
    assert files[j..][1..] == files[j + 1..];
  }

  /** The kept files of one directory listing, as the inner loop of `scan_directory` appends them. */
  method ScanFiles(root: string, filenames: seq<FileEntry>, f: Filter) returns (files: seq<string>)
    ensures files == FilesHere(root, filenames, f)
  {
    files := [];
    var j := 0;
    assert filenames[0..] == filenames;
    while j < |filenames|
      invariant 0 <= j <= |filenames|
      invariant files + FilesHere(root, filenames[j..], f) == FilesHere(root, filenames, f)
    {
      var entry := filenames[j];
      var filePath := Join(root, entry.name);
      FilesHereStep(root, filenames, j, f);
      ghost var rest := FilesHere(root, filenames[j + 1..], f);
      if HasExtension(entry.name, f.extensions) && ShouldProcessFile(filePath, entry.size, f.maxSizeMb, f.excludeDirs, f.excludeFiles) {
        ConcatAssoc(files, [filePath], rest);
        files := files + [filePath];
      } else {
        ConcatEmpty(rest);
      }
      j := j + 1;
    }
    ConcatEmpty(files);
  }

  /**
   * `scan_directory(root_dir, extensions, config)` over the tree `os.walk(root_dir)`
   * visits: the directories are taken from a stack, top first, and the pruned
   * sub-directories of each are pushed in listing order, which is the top-down
   * order of `os.walk`.
   */
  method ScanDirectory(rootDir: string, tree: Dir, f: Filter) returns (files: seq<string>)
    ensures files == Scan(rootDir, tree, f)
  {
    files := [];
    var stack: Pending := [(rootDir, tree)];
    assert ScanPending(stack, f) == Scan(rootDir, tree, f) + [];
    while |stack| > 0
      invariant files + ScanPending(stack, f) == Scan(rootDir, tree, f)
      decreases PendingSize(stack)
    {
      var (root, d) := stack[0];
      var rest := stack[1..];
      var dirs := Pruned(d.subdirs, f.excludeDirs);
      ghost var before := files;
      var here := ScanFiles(root, d.files, f);
      files := files + here;
      var children := Children(root, dirs);
      ScanSubdirsIsPending(root, d.subdirs, f);
      ScanPendingAppend(children, rest, f);
      ConcatAssoc(before, FilesHere(root, d.files, f), ScanSubdirs(root, d.subdirs, f));
      ConcatAssoc(before, Scan(root, d, f), ScanPending(rest, f));
      ConcatAssoc(files, ScanPending(children, f), ScanPending(rest, f));
      ChildrenSize(root, d.subdirs, f.excludeDirs);
      PendingSizeAppend(children, rest);
      stack := children + rest;
    }
    ConcatEmpty(files);
  }

  /** A name as `os.walk` lists it: never empty, never "." or "..", never holding a slash. */
  predicate ListedName(n: string) {
    n != "" && n != "." && n != ".." && '/' !in n
  }

  /** Every name in the tree is a listed name. */
  predicate WellFormed(d: Dir)
    decreases d
  {
    (forall i :: 0 <= i < |d.files| ==> ListedName(d.files[i].name)) && WellFormedSubdirs(d.subdirs)
  }

  predicate WellFormedSubdirs(subs: seq<Subdir>)
    decreases subs
  {
    |subs| == 0 || (ListedName(subs[0].name) && WellFormed(subs[0].dir) && WellFormedSubdirs(subs[1..]))
  }

  /** What every returned path satisfies: its file name has a wanted extension and is not excluded, and no part of the path is an excluded directory. */
  predicate Admitted(p: string, f: Filter) {
    HasExtension(Name(p), f.extensions) && !InExcludedDir(p, f.excludeDirs) && Name(p) !in f.excludeFiles
  }

  lemma {:induction false} FilesHereSound(root: string, files: seq<FileEntry>, f: Filter)
    requires forall i :: 0 <= i < |files| ==> ListedName(files[i].name)
    ensures forall p :: p in FilesHere(root, files, f) ==> Admitted(p, f)
    decreases |files|
  {
    if |files| > 0 {
      FilesHereSound(root, files[1..], f);
      NameOfJoin(root, files[0].name);
    }
  }

  /** Every path `scan_directory` returns passes the extension, directory and file-name filters. */
  lemma {:induction false} ScanSound(root: string, d: Dir, f: Filter)
    requires WellFormed(d)
    ensures forall p :: p in Scan(root, d, f) ==> Admitted(p, f)
    decreases d
  {
    FilesHereSound(root, d.files, f);
    ScanSubdirsSound(root, d.subdirs, f);
  }

  lemma {:induction false} ScanSubdirsSound(root: string, subs: seq<Subdir>, f: Filter)
    requires WellFormedSubdirs(subs)
    ensures forall p :: p in ScanSubdirs(root, subs, f) ==> Admitted(p, f)
    decreases subs
  {
    if |subs| > 0 {
      if subs[0].name !in f.excludeDirs {
        ScanSound(Join(root, subs[0].name), subs[0].dir, f);
      }
      ScanSubdirsSound(root, subs[1..], f);
    }
  }

  /** `scan_directory` without the `dirs[:]` pruning: every sub-directory is walked. */
  function ScanAll(root: string, d: Dir, f: Filter): seq<string>
    decreases d
  {
    FilesHere(root, d.files, f) + ScanAllSubdirs(root, d.subdirs, f)
  }

  function ScanAllSubdirs(root: string, subs: seq<Subdir>, f: Filter): seq<string>
    decreases subs
  {
    if |subs| == 0 then []
    else ScanAll(Join(root, subs[0].name), subs[0].dir, f) + ScanAllSubdirs(root, subs[1..], f)
  }

  lemma {:induction false} FilesBelowExcluded(root: string, files: seq<FileEntry>, f: Filter, x: string)
    requires x in f.excludeDirs && x in Parts(root)
    requires forall i :: 0 <= i < |files| ==> ListedName(files[i].name)
    ensures FilesHere(root, files, f) == []
    decreases |files|
  {
    if |files| > 0 {
      JoinedNameIsPart(root, files[0].name);
      assert x in Parts(Join(root, files[0].name));
      FilesBelowExcluded(root, files[1..], f, x);
    }
  }

  /** Below a directory whose path has an excluded part, `should_process_file` admits nothing. */
  lemma {:induction false} ScanAllBelowExcluded(root: string, d: Dir, f: Filter, x: string)
    requires x in f.excludeDirs && x in Parts(root) && WellFormed(d)
    ensures ScanAll(root, d, f) == []
    decreases d
  {
    FilesBelowExcluded(root, d.files, f, x);
    SubdirsBelowExcluded(root, d.subdirs, f, x);
  }

  lemma {:induction false} SubdirsBelowExcluded(root: string, subs: seq<Subdir>, f: Filter, x: string)
    requires x in f.excludeDirs && x in Parts(root) && WellFormedSubdirs(subs)
    ensures ScanAllSubdirs(root, subs, f) == []
    decreases subs
  {
    if |subs| > 0 {
      JoinedNameIsPart(root, subs[0].name);
      assert x in Parts(Join(root, subs[0].name));
      ScanAllBelowExcluded(Join(root, subs[0].name), subs[0].dir, f, x);
      SubdirsBelowExcluded(root, subs[1..], f, x);
    }
  }

  /**
   * Pruning the excluded directories out of the walk changes nothing in the
   * result: `should_process_file` would reject every file below them anyway.
   * The pruning saves work, it does not filter.
   */
  lemma {:induction false} PruningIsHarmless(root: string, d: Dir, f: Filter)
    requires WellFormed(d)
    ensures Scan(root, d, f) == ScanAll(root, d, f)
    decreases d
  {
    SubdirsPruningIsHarmless(root, d.subdirs, f);
  }

  lemma {:induction false} SubdirsPruningIsHarmless(root: string, subs: seq<Subdir>, f: Filter)
    requires WellFormedSubdirs(subs)
    ensures ScanSubdirs(root, subs, f) == ScanAllSubdirs(root, subs, f)
    decreases subs
  {
    if |subs| > 0 {
      var s := subs[0];
      if s.name in f.excludeDirs {
        JoinedNameIsPart(root, s.name);
        assert s.name in Parts(Join(root, s.name));
        ScanAllBelowExcluded(Join(root, s.name), s.dir, f, s.name);
      } else {
        PruningIsHarmless(Join(root, s.name), s.dir, f);
      }
      SubdirsPruningIsHarmless(root, subs[1..], f);
    }
  }
}
