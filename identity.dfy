/**
 * What build_database.py derives from a file path before indexing it:
 * `generate_file_id` (the first 16 hex digits of the MD5 of the path), the
 * chunk ids `f"{source_type}_{file_id}_{i}"` and `create_metadata`.
 */
module Identity {
  import opened PyText
  import opened PyPath
  import opened Json

  type Byte = b: int | 0 <= b < 256

  /** An MD5 digest: sixteen bytes. */
  type Digest = d: seq<Byte> | |d| == 16 witness [0, 0, 0, 0, 0, 0, 0, 0, 0, 0, 0, 0, 0, 0, 0, 0]

  /** A lower-case hex digit. */
  predicate IsHexDigit(c: char) {
    '0' <= c <= '9' || 'a' <= c <= 'f'
  }

  /** The lower-case hex digit of a nibble. */
  function HexDigit(n: nat): (c: char)
    requires n < 16
    ensures IsHexDigit(c)
  {
    if n < 10 then ('0' as int + n) as char else ('a' as int + n - 10) as char
  }

  /** The value of a lower-case hex digit. */
  function HexValue(c: char): (n: nat)
    ensures n < 16
  {
    if '0' <= c <= '9' then c as nat - '0' as nat
    else if 'a' <= c <= 'f' then c as nat - 'a' as nat + 10
    else 0
  }

  lemma HexValueOfDigit(n: nat)
    requires n < 16
    ensures HexValue(HexDigit(n)) == n
  {
  }

  /** The two lower-case hex digits of one byte, high nibble first. */
  function HexByte(b: Byte): (r: string)
    ensures |r| == 2 && IsHexDigit(r[0]) && IsHexDigit(r[1])
  {
    [HexDigit(b / 16), HexDigit(b % 16)]
  }

  /** `bytes.hex()`, as `hexdigest()` produces it. */
  function Hex(bs: seq<Byte>): (r: string)
    ensures |r| == 2 * |bs|
    decreases |bs|
  {
    if |bs| == 0 then [] else HexByte(bs[0]) + Hex(bs[1..])
  }

  /** Reads pairs of hex digits back into bytes. */
  function UnHex(s: string): (bs: seq<Byte>)
    decreases |s|
  {
    if |s| < 2 then [] else [16 * HexValue(s[0]) + HexValue(s[1])] + UnHex(s[2..])
  }

  /** Hex encoding loses nothing: the bytes can be read back. */
  lemma {:induction false} UnHexHex(bs: seq<Byte>)
    ensures UnHex(Hex(bs)) == bs
    decreases |bs|
  {
    if |bs| > 0 {
      var b := bs[0];
      var r := Hex(bs);
      assert r == HexByte(b) + Hex(bs[1..]);
      assert r[0] == HexDigit(b / 16) && r[1] == HexDigit(b % 16);
      HexValueOfDigit(b / 16);
      HexValueOfDigit(b % 16);
      assert 16 * HexValue(r[0]) + HexValue(r[1]) == b;
      assert r[2..] == Hex(bs[1..]);
      UnHexHex(bs[1..]);
      assert UnHex(r) == [b] + bs[1..];
    }
  }

  /** The first `2k` digits of a hex string encode the first `k` bytes. */
  lemma {:induction false} HexPrefix(bs: seq<Byte>, k: nat)
    requires k <= |bs|
    ensures Hex(bs)[..2 * k] == Hex(bs[..k])
    decreases k
  {
    if k > 0 {
      HexPrefix(bs[1..], k - 1);
      assert bs[..k][1..] == bs[1..][..k - 1];
    }
  }

  lemma {:induction false} HexDigitsOnly(bs: seq<Byte>)
    ensures forall i :: 0 <= i < |Hex(bs)| ==> IsHexDigit(Hex(bs)[i])
    decreases |bs|
  {
    if |bs| > 0 {
      HexDigitsOnly(bs[1..]);
    }
  }

  /** `generate_file_id`: `hashlib.md5(file_path.encode()).hexdigest()[:16]`, given the digest. */
  function FileId(digest: Digest): string {
    Hex(digest)[..16]
  }

  /**
   * A file id is sixteen lower-case hex digits and encodes exactly the first
   * eight bytes of the digest: two paths get the same id exactly when their
   * digests agree on those bytes.
   */
  lemma FileIdShape(d: Digest, e: Digest)
    ensures |FileId(d)| == 16
    ensures forall i :: 0 <= i < 16 ==> IsHexDigit(FileId(d)[i])
    ensures FileId(d) == Hex(d[..8])
    ensures FileId(d) == FileId(e) <==> d[..8] == e[..8]
  {
    HexPrefix(d, 8);
    HexPrefix(e, 8);
    HexDigitsOnly(d);
    if FileId(d) == FileId(e) {
      UnHexHex(d[..8]);
      UnHexHex(e[..8]);
    }
  }

  /** `f"{source_type}_{file_id}_{i}"`. */
  function ChunkId(sourceType: string, fileId: string, i: nat): string {
    sourceType + "_" + fileId + "_" + NatToString(i)
  }

  /** `[f"{source_type}_{file_id}_{i}" for i in range(n)]`. */
  function Ids(sourceType: string, fileId: string, n: nat): (ids: seq<string>)
    ensures |ids| == n
  {
    seq(n, i requires 0 <= i < n => ChunkId(sourceType, fileId, i))
  }

  lemma ChunkIdSplit(sourceType: string, fileId: string, i: nat)
    ensures ChunkId(sourceType, fileId, i) == (sourceType + "_" + fileId + "_") + NatToString(i)
  {
  }

  /**
   * Chunk ids of one source type determine the file id (of the fixed length
   * `generate_file_id` gives) and the chunk index.
   */
  lemma ChunkIdInjective(sourceType: string, a: string, b: string, i: nat, j: nat)
    requires |a| == |b|
    requires ChunkId(sourceType, a, i) == ChunkId(sourceType, b, j)
    ensures a == b && i == j
  {
    var pa := sourceType + "_" + a + "_";
    var pb := sourceType + "_" + b + "_";
    ChunkIdSplit(sourceType, a, i);
    ChunkIdSplit(sourceType, b, j);
    var x := ChunkId(sourceType, a, i);
    assert |pa| == |pb|;
    assert pa == x[..|pa|] == pb;
    assert a == pa[|sourceType| + 1..|sourceType| + 1 + |a|];
    assert b == pb[|sourceType| + 1..|sourceType| + 1 + |b|];
    assert NatToString(i) == x[|pa|..] == NatToString(j);
    NatToStringInjective(i, j);
  }

  /** The ids of one file are pairwise distinct. */
  lemma IdsDistinct(sourceType: string, fileId: string, n: nat)
    ensures forall i, j :: 0 <= i < j < n ==> Ids(sourceType, fileId, n)[i] != Ids(sourceType, fileId, n)[j]
  {
    forall i, j | 0 <= i < j < n ensures Ids(sourceType, fileId, n)[i] != Ids(sourceType, fileId, n)[j] {
      if ChunkId(sourceType, fileId, i) == ChunkId(sourceType, fileId, j) {
        ChunkIdInjective(sourceType, fileId, fileId, i, j);
      }
    }
  }

  /** The keys of every chunk's metadata. */
  const MetadataKeys: set<string> := {"source", "source_name", "source_type", "filename", "file_type", "chunk_index", "timestamp"}

  /** `create_metadata(file_path, source_name, source_type, chunk_index)`, with `now` for `datetime.now().isoformat()`. */
  function CreateMetadata(filePath: string, sourceName: string, sourceType: string, chunkIndex: int, now: string): Dict {
    map[
      "source" := Str(filePath),
      "source_name" := Str(sourceName),
      "source_type" := Str(sourceType),
      "filename" := Str(Name(filePath)),
      "file_type" := Str(FileType(filePath)),
      "chunk_index" := Int(chunkIndex),
      "timestamp" := Str(now)]
  }

  lemma MetadataKeysExact(filePath: string, sourceName: string, sourceType: string, chunkIndex: int, now: string)
    ensures CreateMetadata(filePath, sourceName, sourceType, chunkIndex, now).Keys == MetadataKeys
  {
  }

  /**
   * For a path `scan_directory` built, the metadata names the listed file, and
   * its file type is the lower-cased suffix without its dot.
   */
  lemma MetadataFields(root: string, file: string, sourceName: string, sourceType: string, chunkIndex: int, now: string)
    requires file != "" && file != "." && '/' !in file
    ensures var m := CreateMetadata(Join(root, file), sourceName, sourceType, chunkIndex, now);
      && m["filename"] == Str(file)
      && (SuffixOfName(file) == "" ==> m["file_type"] == Str(""))
      && (SuffixOfName(file) != "" ==> m["file_type"] == Str(Lower(SuffixOfName(file))[1..]))
      && '.' !in m["file_type"].s
  {
    var p := Join(root, file);
    MetadataOfPath(p, sourceName, sourceType, chunkIndex, now);
    NameOfJoin(root, file);
    FileTypeIsSuffixTail(p);
  }

  lemma MetadataOfPath(p: string, sourceName: string, sourceType: string, chunkIndex: int, now: string)
    ensures var m := CreateMetadata(p, sourceName, sourceType, chunkIndex, now);
      m["filename"] == Str(Name(p)) && m["file_type"] == Str(FileType(p))
  {
  }

  /** `[create_metadata(file_path, source_name, source_type, i) for i in range(n)]`. */
  function Metadatas(filePath: string, sourceName: string, sourceType: string, n: nat, now: string): (ms: seq<Dict>)
    ensures |ms| == n
  {
    seq(n, i requires 0 <= i < n => CreateMetadata(filePath, sourceName, sourceType, i, now))
  }

  /** Chunk `i` of a file carries index `i` and the file's path. */
  lemma MetadatasIndexed(filePath: string, sourceName: string, sourceType: string, n: nat, now: string)
    ensures forall i :: 0 <= i < n ==>
      var m := Metadatas(filePath, sourceName, sourceType, n, now)[i];
      m.Keys == MetadataKeys && m["chunk_index"] == Int(i) && m["source"] == Str(filePath)
  {
  }
}
