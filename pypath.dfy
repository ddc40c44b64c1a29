/**
 * The parts of `pathlib.PurePosixPath` and `os.path.join` (POSIX flavour) that
 * the ingestion code reads: `Path(p).parts`, `.name`, `.suffix`, and joining a
 * directory with a file name.
 */
module PyPath {
  import opened PyText

  /** The first index at or after `i` that holds a `/`, or `|s|`. */
  function NextSlash(s: string, i: nat): (j: nat)
    requires i <= |s|
    ensures i <= j <= |s|
    ensures j < |s| ==> s[j] == '/'
    decreases |s| - i
  {
    if i == |s| || s[i] == '/' then i else NextSlash(s, i + 1)
  }

  /** NextSlash passes over no slash. */
  lemma {:induction false} NextSlashSkips(s: string, i: nat)
    requires i <= |s|
    ensures forall m :: i <= m < NextSlash(s, i) ==> s[m] != '/'
    decreases |s| - i
  {
    if i < |s| && s[i] != '/' {
      NextSlashSkips(s, i + 1);
    }
  }

  /** `s[i:].split('/')`: the pieces between slashes, empty ones included. */
  function SegmentsFrom(s: string, i: nat): (r: seq<string>)
    requires i <= |s|
    ensures |r| > 0
    decreases |s| - i
  {
    var j := NextSlash(s, i);
    if j == |s| then [s[i..]] else [s[i..j]] + SegmentsFrom(s, j + 1)
  }

  /** No segment holds a slash. */
  lemma {:induction false} SegmentsNoSlash(s: string, i: nat)
    requires i <= |s|
    ensures forall k :: 0 <= k < |SegmentsFrom(s, i)| ==> '/' !in SegmentsFrom(s, i)[k]
    decreases |s| - i
  {
    var j := NextSlash(s, i);
    NextSlashSkips(s, i);
    assert '/' !in s[i..j];
    if j < |s| {
      SegmentsNoSlash(s, j + 1);
    }
  }

  /** One unfolding of SegmentsFrom, with the segment it starts with named. */
  lemma SegmentsFromStep(s: string, i: nat)
    requires i <= |s|
    ensures var j := NextSlash(s, i);
      && (j == |s| ==> SegmentsFrom(s, i) == [s[i..j]])
      && (j < |s| ==> SegmentsFrom(s, i) == [s[i..j]] + SegmentsFrom(s, j + 1))
  {
    assert NextSlash(s, i) == |s| ==> s[i..] == s[i..NextSlash(s, i)];
  }

  function Segments(s: string): seq<string> {
    SegmentsFrom(s, 0)
  }

  /** `'/'.join(xs)`. */
  function JoinSlash(xs: seq<string>): string
    decreases |xs|
  {
    if |xs| == 0 then "" else if |xs| == 1 then xs[0] else xs[0] + "/" + JoinSlash(xs[1..])
  }

  lemma {:induction false} SegmentsFromJoin(s: string, i: nat)
    requires i <= |s|
    ensures JoinSlash(SegmentsFrom(s, i)) == s[i..]
    decreases |s| - i
  {
    var j := NextSlash(s, i);
    if j < |s| {
      SegmentsFromJoin(s, j + 1);
      var rest := SegmentsFrom(s, j + 1);
      assert SegmentsFrom(s, i) == [s[i..j]] + rest;
      assert s[i..] == s[i..j] + "/" + s[j + 1..];
    }
  }

  /** Splitting on `/` and joining again gives back the path string. */
  lemma SegmentsJoin(s: string)
    ensures JoinSlash(Segments(s)) == s
  {
    SegmentsFromJoin(s, 0);
  }

  /** The named components: the segments other than "" and ".", as pathlib normalises them away. */
  function Names(segs: seq<string>): (r: seq<string>)
    ensures forall k :: 0 <= k < |r| ==> r[k] in segs && r[k] != "" && r[k] != "."
    ensures forall x :: x in segs && x != "" && x != "." ==> x in r
  {
    if |segs| == 0 then []
    else (if segs[0] != "" && segs[0] != "." then [segs[0]] else []) + Names(segs[1..])
  }

  /** The anchor of a POSIX path: `/`, or `//` for exactly two leading slashes, or nothing for a relative path. */
  function Anchor(s: string): (r: seq<string>)
    ensures |r| <= 1
    ensures |r| == 1 <==> |s| > 0 && s[0] == '/'
  {
    if |s| > 0 && s[0] == '/' then
      (if |s| >= 2 && s[1] == '/' && (|s| == 2 || s[2] != '/') then ["//"] else ["/"])
    else []
  }

  /** `PurePosixPath(s).parts`. */
  function Parts(s: string): seq<string> {
    Anchor(s) + Names(Segments(s))
  }

  /** `PurePosixPath(s).name`: the last named component, or "" when there is none. */
  function Name(s: string): string {
    var ns := Names(Segments(s));
    if |ns| == 0 then "" else ns[|ns| - 1]
  }

  /** The name of a path is one of its parts and never contains a slash; it is empty only when the path names no component. */
  lemma NameIsPart(s: string)
    ensures Name(s) != "" ==> Name(s) in Parts(s)
    ensures '/' !in Name(s)
    ensures Name(s) == "" <==> Names(Segments(s)) == []
  {
    var ns := Names(Segments(s));
    SegmentsNoSlash(s, 0);
    if |ns| > 0 {
      assert ns[|ns| - 1] in Segments(s);
      assert Parts(s)[|Parts(s)| - 1] == ns[|ns| - 1];
    }
  }

  /** `name.rfind('.')` searching `name[..j]`: the last dot before `j`, or -1. */
  function LastDot(name: string, j: nat): (i: int)
    requires j <= |name|
    ensures -1 <= i < j
    ensures i >= 0 ==> name[i] == '.'
    ensures forall m :: i < m < j ==> name[m] != '.'
    decreases j
  {
    if j == 0 then -1 else if name[j - 1] == '.' then j - 1 else LastDot(name, j - 1)
  }

  /** `PurePosixPath.suffix` computed from the name: from the last dot on, if that dot is neither first nor last. */
  function SuffixOfName(name: string): string {
    var i := LastDot(name, |name|);
    if 0 < i < |name| - 1 then name[i..] else ""
  }

  /**
   * A non-empty suffix is a dot followed by at least one character and no further
   * dot, it ends the name and is shorter than it; the suffix is empty exactly when
   * the last dot, if any, is the first or the last character.
   */
  lemma SuffixShape(name: string)
    ensures var r := SuffixOfName(name);
      && (r != "" ==> |r| >= 2 && |r| < |name| && r[0] == '.' && '.' !in r[1..] && name[|name| - |r|..] == r)
      && (r == "" <==> forall i :: 0 < i < |name| - 1 && name[i] == '.' ==>
                                   exists m :: i < m < |name| && name[m] == '.')
  {
    var i := LastDot(name, |name|);
    var r := SuffixOfName(name);
    if r != "" {
      assert '.' !in r[1..] by {
        forall m | 0 <= m < |r| - 1 ensures r[1..][m] != '.' {
          assert r[1..][m] == name[i + 1 + m];
        }
      }
      assert forall k :: 0 < k < |name| - 1 && name[k] == '.' ==> k <= i;
    } else if i >= 0 && i != 0 {
      forall k | 0 < k < |name| - 1 && name[k] == '.' ensures exists m :: k < m < |name| && name[m] == '.' {
        assert k < i;
      }
    }
  }

  function Suffix(s: string): string {
    SuffixOfName(Name(s))
  }

  /** `s.lstrip('.')`. */
  function LStripDots(s: string): (r: string)
    ensures |r| <= |s| && r == s[|s| - |r|..]
    ensures r == "" || r[0] != '.'
    decreases |s|
  {
    if |s| > 0 && s[0] == '.' then LStripDots(s[1..]) else s
  }

  /** `path.suffix.lower().lstrip('.')`: the file-type field of chunk metadata. */
  function FileType(s: string): string {
    LStripDots(Lower(Suffix(s)))
  }

  /** The file type is the lower-cased suffix with just its one dot removed, and never contains a dot. */
  lemma FileTypeIsSuffixTail(s: string)
    ensures var x := Suffix(s);
      && (x == "" ==> FileType(s) == "")
      && (x != "" ==> FileType(s) == Lower(x)[1..])
      && '.' !in FileType(s)
  {
    var x := Suffix(s);
    SuffixShape(Name(s));
    if x != "" {
      var l := Lower(x);
      assert l[0] == '.';
      assert LStripDots(l) == LStripDots(l[1..]);
      forall m | 0 <= m < |l| - 1 ensures l[1..][m] != '.' {
        assert l[1..][m] == LowerChar(x[1..][m]);
      }
      assert l[1..] == [] || l[1..][0] != '.';
    }
  }

  /** `os.path.join(a, b)`: `b` itself when absolute; otherwise `a` and `b` with exactly the slash needed. */
  function Join(a: string, b: string): (r: string)
    ensures |b| > 0 && b[0] == '/' ==> r == b
    ensures !(|b| > 0 && b[0] == '/') ==> a <= r && |b| <= |r| && r[|r| - |b|..] == b
  {
    if |b| > 0 && b[0] == '/' then b
    else if a == "" || a[|a| - 1] == '/' then a + b
    else a + "/" + b
  }

  /** The last `/`-segment of `s[i..]` is what follows its last slash. */
  lemma {:induction false} LastSegment(s: string, i: nat, k: nat)
    requires i <= k <= |s|
    requires k == i || s[k - 1] == '/'
    requires forall m :: k <= m < |s| ==> s[m] != '/'
    ensures var segs := SegmentsFrom(s, i); segs[|segs| - 1] == s[k..]
    decreases |s| - i
  {
    var j := NextSlash(s, i);
    NextSlashSkips(s, i);
    if j < |s| {
      LastSegment(s, j + 1, k);
    }
  }

  /** Dropping empty and "." segments keeps a last segment that is a real name. */
  lemma {:induction false} NamesLast(segs: seq<string>)
    requires |segs| > 0 && segs[|segs| - 1] != "" && segs[|segs| - 1] != "."
    ensures var ns := Names(segs); |ns| > 0 && ns[|ns| - 1] == segs[|segs| - 1]
  {
    if |segs| > 1 {
      NamesLast(segs[1..]);
    }
  }

  /** `Path(os.path.join(root, f)).name == f` for a plain file name `f`, as `os.walk` lists them. */
  lemma NameOfJoin(root: string, f: string)
    requires f != "" && f != "." && '/' !in f
    ensures Name(Join(root, f)) == f
  {
    var s := Join(root, f);
    var k := |s| - |f|;
    assert s[k..] == f;
    LastSegment(s, 0, k);
    NamesLast(Segments(s));
  }

  /** NextSlash shifts with the string it scans. */
  lemma {:induction false} NextSlashShift(p: string, q: string, i: nat, at: nat)
    requires i <= |q| && at == |p| + i
    ensures NextSlash(p + q, at) == |p| + NextSlash(q, i)
    decreases |q| - i
  {
    var s := p + q;
    if i < |q| {
      assert s[at] == q[i];
      if q[i] != '/' {
        NextSlashShift(p, q, i + 1, at + 1);
      }
    }
  }

  /** Splitting ignores what comes before the starting point `at`, which is position `i` of `q`. */
  lemma {:induction false} SegmentsFromShift(p: string, q: string, i: nat, at: nat)
    requires i <= |q| && at == |p| + i
    ensures SegmentsFrom(p + q, at) == SegmentsFrom(q, i)
    decreases |q| - i
  {
    var j := NextSlash(q, i);
    if j < |q| {
      SegmentsFromShift(p, q, j + 1, |p| + j + 1);
      ShiftInnerSegment(p, q, i, at, j);
    } else {
      ShiftLastSegment(p, q, i, at);
    }
  }

  /** `SegmentsFromShift` when no slash of `q` follows `i`. */
  lemma ShiftLastSegment(p: string, q: string, i: nat, at: nat)
    requires i <= |q| && at == |p| + i && NextSlash(q, i) == |q|
    ensures SegmentsFrom(p + q, at) == SegmentsFrom(q, i)
  {
    var s := p + q;
    NextSlashShift(p, q, i, at);
    SegmentsFromStep(s, at);
    SegmentsFromStep(q, i);
    SliceShift(p, q, i, |q|, at, |s|);
  }

  /** `SegmentsFromShift` at `i` from the same just after the slash `j` of `q` that follows `i`. */
  lemma ShiftInnerSegment(p: string, q: string, i: nat, at: nat, j: nat)
    requires i <= |q| && at == |p| + i && j == NextSlash(q, i) < |q|
    requires SegmentsFrom(p + q, |p| + j + 1) == SegmentsFrom(q, j + 1)
    ensures SegmentsFrom(p + q, at) == SegmentsFrom(q, i)
  {
    var s := p + q;
    NextSlashShift(p, q, i, at);
    SegmentsFromStep(s, at);
    SegmentsFromStep(q, i);
    SliceShift(p, q, i, j, at, |p| + j);
  }

  lemma SliceShift(p: string, q: string, i: nat, j: nat, at: nat, e: nat)
    requires i <= j <= |q| && at == |p| + i && e == |p| + j
    ensures (p + q)[at..e] == q[i..j]
  {
  }

  /** Splitting `a + t` from just after the first character of `t` splits the rest of `t`. */
  lemma SegmentsAfterEnd(a: string, t: string, at: nat)
    requires |t| > 0 && at == |a| + 1
    ensures SegmentsFrom(a + t, at) == SegmentsFrom(t, 1)
  {
    SegmentsFromShift(a, t, 1, at);
  }

  /** Splitting `a + t`, where `t` starts with a slash, splits `a` and then what follows that slash. */
  lemma {:induction false} SegmentsFromPrefix(a: string, t: string, i: nat)
    requires i <= |a| && |t| > 0 && t[0] == '/'
    ensures SegmentsFrom(a + t, i) == SegmentsFrom(a, i) + SegmentsFrom(t, 1)
    decreases |a| - i
  {
    var j := NextSlash(a, i);
    if j == |a| {
      PrefixLastSegment(a, t, i);
    } else {
      SegmentsFromPrefix(a, t, j + 1);
      PrefixInnerSegment(a, t, i, j);
    }
  }

  /** `SegmentsFromPrefix` when no slash of `a` follows `i`. */
  lemma PrefixLastSegment(a: string, t: string, i: nat)
    requires i <= |a| && |t| > 0 && t[0] == '/' && NextSlash(a, i) == |a|
    ensures SegmentsFrom(a + t, i) == SegmentsFrom(a, i) + SegmentsFrom(t, 1)
  {
    var s := a + t;
    NextSlashPrefix(a, t, i);
    SlicePrefix(a, t, i, |a|);
    SegmentsFromStep(s, i);
    SegmentsFromStep(a, i);
    SegmentsAfterEnd(a, t, |a| + 1);
  }

  /** `SegmentsFromPrefix` at `i` from the same at the slash `j` of `a` that follows `i`. */
  lemma PrefixInnerSegment(a: string, t: string, i: nat, j: nat)
    requires i <= |a| && |t| > 0 && t[0] == '/' && j == NextSlash(a, i) < |a|
    requires SegmentsFrom(a + t, j + 1) == SegmentsFrom(a, j + 1) + SegmentsFrom(t, 1)
    ensures SegmentsFrom(a + t, i) == SegmentsFrom(a, i) + SegmentsFrom(t, 1)
  {
    var s := a + t;
    NextSlashPrefix(a, t, i);
    SlicePrefix(a, t, i, j);
    SegmentsFromStep(s, i);
    SegmentsFromStep(a, i);
    SharedFront([a[i..j]], SegmentsFrom(s, i), SegmentsFrom(s, j + 1), SegmentsFrom(a, i), SegmentsFrom(a, j + 1), SegmentsFrom(t, 1));
  }

  /** Two sequences with a common front, whose remainders differ by a suffix, differ by that suffix. */
  lemma SharedFront<T>(x: seq<T>, whole: seq<T>, rest: seq<T>, front: seq<T>, tail: seq<T>, suffix: seq<T>)
    requires whole == x + rest && front == x + tail && rest == tail + suffix
    ensures whole == front + suffix
  {
    ConcatAssoc(x, tail, suffix);
  }

  lemma SlicePrefix(a: string, t: string, i: nat, j: nat)
    requires i <= j <= |a|
    ensures (a + t)[i..j] == a[i..j]
  {
  }

  /** Splitting `a + "/" + b` splits `a` and `b` separately. */
  lemma SegmentsConcat(a: string, b: string)
    ensures Segments(a + ("/" + b)) == Segments(a) + Segments(b)
  {
    SegmentsFromPrefix(a, "/" + b, 0);
    SegmentsFromShift("/", b, 0, 1);
  }

  /** Before the end of `a`, NextSlash on `a + t` finds what it finds on `a`, or stops at the end of `a` when `t` starts with a slash. */
  lemma {:induction false} NextSlashPrefix(a: string, t: string, i: nat)
    requires i <= |a| && |t| > 0 && t[0] == '/'
    ensures NextSlash(a + t, i) == NextSlash(a, i)
    decreases |a| - i
  {
    var s := a + t;
    if i < |a| {
      assert s[i] == a[i];
      if a[i] != '/' {
        NextSlashPrefix(a, t, i + 1);
      }
    } else {
      assert s[i] == '/';
    }
  }

  /** Dropping empty and "." segments distributes over concatenation. */
  lemma {:induction false} NamesConcat(x: seq<string>, y: seq<string>)
    ensures Names(x + y) == Names(x) + Names(y)
    decreases |x|
  {
    if |x| == 0 {
      assert x + y == y;
    } else {
      assert (x + y)[1..] == x[1..] + y;
      NamesConcat(x[1..], y);
      var h := if x[0] != "" && x[0] != "." then [x[0]] else [];
      ConcatAssoc(h, Names(x[1..]), Names(y));
    }
  }

  /**
   * Joining a relative name onto a directory keeps the directory's parts and
   * appends the name's: `Path(os.path.join(a, b)).parts == Path(a).parts + Path(b).parts`.
   */
  lemma PartsJoin(a: string, b: string)
    requires !(|b| > 0 && b[0] == '/')
    ensures Parts(Join(a, b)) == Parts(a) + Names(Segments(b))
  {
    if a == "" {
      assert Join(a, b) == b;
      PartsRelative(b);
    } else if a[|a| - 1] == '/' {
      assert Join(a, b) == a + b;
      PartsEndSlash(a, b);
    } else {
      assert Join(a, b) == a + ("/" + b);
      PartsSlash(a, b);
    }
  }

  /** A path that does not start with a slash has the names of its segments as its parts. */
  lemma PartsRelative(b: string)
    requires !(|b| > 0 && b[0] == '/')
    ensures Parts(b) == Parts("") + Names(Segments(b))
  {
    PartsOfEmpty();
    assert Anchor(b) == [];
  }

  /** `PartsJoin` for a directory `a` that ends in a slash. */
  lemma PartsEndSlash(a: string, b: string)
    requires |a| > 0 && a[|a| - 1] == '/'
    requires !(|b| > 0 && b[0] == '/')
    ensures Parts(a + b) == Parts(a) + Names(Segments(b))
  {
    var dir := a[..|a| - 1];
    assert dir + "/" == a;
    PartsJoinAfterSlash(dir, b);
  }

  /** The empty path has no parts. */
  lemma PartsOfEmpty()
    ensures Parts("") == []
  {
    assert Segments("") == [""];
    assert Names([""]) == [];
  }

  /** `PartsJoin` for a non-empty directory `a` that does not end in a slash. */
  lemma PartsSlash(a: string, b: string)
    requires |a| > 0 && a[|a| - 1] != '/'
    ensures Parts(a + ("/" + b)) == Parts(a) + Names(Segments(b))
  {
    NamesSlash(a, b);
    AnchorPrefix(a, "/" + b);
  }

  /** The names of `a + "/" + b` are those of `a` followed by those of `b`. */
  lemma NamesSlash(a: string, b: string)
    ensures Names(Segments(a + ("/" + b))) == Names(Segments(a)) + Names(Segments(b))
  {
    SegmentsConcat(a, b);
    NamesConcat(Segments(a), Segments(b));
  }

  /** `PartsJoin` for a directory `a + "/"` that already ends in a slash. */
  lemma PartsJoinAfterSlash(a: string, b: string)
    requires !(|b| > 0 && b[0] == '/')
    ensures Parts((a + "/") + b) == Parts(a + "/") + Names(Segments(b))
  {
    assert (a + "/") + b == a + ("/" + b);
    assert a + "/" == a + ("/" + "");
    NamesSlash(a, b);
    NamesSlash(a, "");
    assert Segments("") == [""];
    assert Names([""]) == [];
    AnchorPrefix(a + "/", b);
  }

  /** The anchor of `a + t` is the anchor of `a` when `a` is not empty and `t` cannot extend a run of two leading slashes. */
  lemma AnchorPrefix(a: string, t: string)
    requires |a| > 0
    requires |a| >= 3 || a[|a| - 1] != '/' || !(|t| > 0 && t[0] == '/')
    ensures Anchor(a + t) == Anchor(a)
  {
    var s := a + t;
    assert s[0] == a[0];
    if |a| >= 2 {
      assert s[1] == a[1];
    }
    if |a| >= 3 {
      assert s[2] == a[2];
    }
  }

  /** A plain name, with no slash in it, is its own single segment. */
  lemma SegmentsOfName(x: string)
    requires '/' !in x
    ensures Segments(x) == [x]
  {
    assert x[0..] == x;
  }

  /** The directory names under `a` include a plain name joined onto it. */
  lemma JoinedNameIsPart(a: string, x: string)
    requires x != "" && x != "." && '/' !in x
    ensures Parts(Join(a, x)) == Parts(a) + [x]
  {
    SegmentsOfName(x);
    assert Names([x]) == [x] + Names([]);
    PartsJoin(a, x);
  }
}
