/**
 * The two `os.path` operations (POSIX flavour) that the object names are built with:
 * `splitext`, which splits off a file extension, and the two-argument `join`.
 */
module PosixPath {
  import opened Text

  /** The result of `os.path.splitext`: `(root, ext)` with `root + ext` the original path. */
  datatype Split = Split(root: string, ext: string)

  /** `str.rfind`: the index of the last occurrence of `c` in `s`, or -1 when there is none. */
  function RFind(s: string, c: char): (i: int)
    ensures -1 <= i < |s|
    ensures i >= 0 ==> s[i] == c
    ensures forall j :: i < j < |s| ==> s[j] != c
  {
    if s == [] then -1
    else if s[|s| - 1] == c then |s| - 1
    else RFind(s[..|s| - 1], c)
  }

  /** Whether `p[lo..hi]` consists of dots only: the loop that skips a file name's leading dots. */
  predicate OnlyDots(p: string, lo: int, hi: int)
    requires 0 <= lo <= hi <= |p|
    ensures OnlyDots(p, lo, hi) <==> forall j :: lo <= j < hi ==> p[j] == '.'
    decreases hi - lo
  {
    lo == hi || (p[lo] == '.' && OnlyDots(p, lo + 1, hi))
  }

  /**
   * `posixpath.splitext`: split at the last '.' that comes after the last '/', unless every
   * character of the file name before that '.' is itself a '.' (so ".mov", "..mov" and
   * "dir/.bashrc" have no extension); without such a split the extension is empty.
   */
  function SplitExt(p: string): (r: Split)
    ensures r.root + r.ext == p
    ensures r.ext == [] || r.ext[0] == '.'
  {
    var sep := RFind(p, '/');
    var dot := RFind(p, '.');
    if sep < dot && !OnlyDots(p, sep + 1, dot) then
      Split(p[..dot], p[dot..])
    else
      Split(p, [])
  }

  /**
   * Reference definition of a split point: `p[i]` is a '.', nothing after it is a '.' or a '/',
   * and some character before it, in the same path component, is not a '.'.
   */
  ghost predicate ExtensionAt(p: string, i: int)
  {
    0 <= i < |p| && p[i] == '.' &&
    (forall j :: i < j < |p| ==> p[j] != '.' && p[j] != '/') &&
    exists k :: 0 <= k < i && p[k] != '.' && forall j :: k <= j < i ==> p[j] != '/'
  }

  /** `SplitExt` splits exactly at the reference split point, and splits iff there is one. */
  lemma {:induction false} SplitExtMatchesReference(p: string)
    ensures SplitExt(p).ext != [] <==> exists i :: ExtensionAt(p, i)
    ensures forall i :: ExtensionAt(p, i) ==> SplitExt(p) == Split(p[..i], p[i..])
  {
    var sep := RFind(p, '/');
    var dot := RFind(p, '.');
    forall i | ExtensionAt(p, i)
      ensures i == dot && sep < dot && !OnlyDots(p, sep + 1, dot)
    {
      var k :| 0 <= k < i && p[k] != '.' && forall j :: k <= j < i ==> p[j] != '/';
    }
    if sep < dot && !OnlyDots(p, sep + 1, dot) {
      assert ExtensionAt(p, dot);
    }
  }

  /** A split point of `dir + x` lies in `x` and is a split point of `x`, when `dir` ends in '/'. */
  lemma ExtensionAtBelowDirectory(dir: string, x: string, i: int)
    requires |dir| > 0 && dir[|dir| - 1] == '/'
    requires ExtensionAt(dir + x, i)
    ensures i >= |dir| && ExtensionAt(x, i - |dir|)
  {
    var p, n := dir + x, |dir|;
    var k :| 0 <= k < i && p[k] != '.' && forall j :: k <= j < i ==> p[j] != '/';
    assert p[n - 1] == '/';
    assert k >= n;
    assert x[k - n] == p[k];
    forall j | i - n < j < |x| ensures x[j] != '.' && x[j] != '/' {
      assert x[j] == p[j + n];
    }
    forall j | k - n <= j < i - n ensures x[j] != '/' {
      assert x[j] == p[j + n];
    }
    assert x[i - n] == p[i];
  }

  /** A split point of `x` is a split point of `dir + x`, shifted by the directory's length. */
  lemma ExtensionAtAboveDirectory(dir: string, x: string, i: int)
    requires ExtensionAt(x, i)
    ensures ExtensionAt(dir + x, i + |dir|)
  {
    var p, n := dir + x, |dir|;
    var k :| 0 <= k < i && x[k] != '.' && forall j :: k <= j < i ==> x[j] != '/';
    assert p[k + n] == x[k];
    forall j | i + n < j < |p| ensures p[j] != '.' && p[j] != '/' {
      assert p[j] == x[j - n];
    }
    forall j | k + n <= j < i + n ensures p[j] != '/' {
      assert p[j] == x[j - n];
    }
    assert p[i + n] == x[i];
  }

  /**
   * The extension of a path below a directory is the extension of the part below it:
   * `splitext(dir + x) == (dir + splitext(x)[0], splitext(x)[1])` whenever `dir` ends in '/'.
   */
  lemma SplitExtUnderDirectory(dir: string, x: string)
    requires |dir| > 0 && dir[|dir| - 1] == '/'
    ensures SplitExt(dir + x) == Split(dir + SplitExt(x).root, SplitExt(x).ext)
  {
    var p, n := dir + x, |dir|;
    SplitExtMatchesReference(p);
    SplitExtMatchesReference(x);
    if i :| ExtensionAt(x, i) {
      ExtensionAtAboveDirectory(dir, x, i);
      SliceOfConcat(dir, x, i);
    } else {
      forall i | ExtensionAt(p, i) ensures false {
        ExtensionAtBelowDirectory(dir, x, i);
      }
    }
  }

  /**
   * `posixpath.join(a, b)` for two components: an absolute `b` replaces `a`; otherwise the
   * result is `a`, then at most one '/', then `b`, and the '/' is added exactly when `a` is
   * not empty and does not already end in '/'.
   */
  function Join(a: string, b: string): (r: string)
    ensures |b| > 0 && b[0] == '/' ==> r == b
    ensures !(|b| > 0 && b[0] == '/') ==>
      && |r| == |a| + |b| + (if a != [] && a[|a| - 1] != '/' then 1 else 0)
      && r[..|a|] == a
      && r[|r| - |b|..] == b
      && (a != [] && a[|a| - 1] != '/' ==> r[|a|] == '/')
  {
    if |b| > 0 && b[0] == '/' then b
    else if a == [] || a[|a| - 1] == '/' then a + b
    else a + "/" + b
  }
}
