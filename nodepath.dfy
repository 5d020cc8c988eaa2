/** Node's POSIX `path.extname` and `path.parse(p).name`, the two calls the
    upload code uses to split a file name into stem and extension.

    Node scans the last path segment (trailing '/' ignored) for its last
    '.': there is no extension when the segment has no '.', when that '.'
    is its first character (".env"), or when the segment is exactly "..";
    otherwise the extension runs from that '.' to the end ("a.tar.gz" has
    ".gz", "a." has "."). */
module NodePath {
  import opened Text

  function TrimTrailingSlashes(p: string): string {
    if |p| > 0 && p[|p| - 1] == '/' then TrimTrailingSlashes(p[..|p| - 1]) else p
  }

  /** The last segment of a path: `path.basename(p)`. */
  function Basename(p: string): (b: string)
    ensures '/' !in b
  {
    AfterLast(TrimTrailingSlashes(p), '/')
  }

  /** The extension of a segment that holds no '/': a tail of it. */
  function SegmentExt(b: string): (e: string)
    ensures |e| <= |b| && b[|b| - |e|..] == e
  {
    var i := LastIndexOf(b, '.');
    if i <= 0 || b == ".." then "" else b[i..]
  }

  /** `path.extname(p)` */
  function Extname(p: string): string {
    SegmentExt(Basename(p))
  }

  /** `path.parse(p).name`: the last segment without its extension. */
  function ParseName(p: string): string {
    var b := Basename(p);
    b[..|b| - |SegmentExt(b)|]
  }

  /** What an extension can look like: empty, or a '.' followed by
      characters that are neither '.' nor '/'. */
  predicate ExtShaped(e: string) {
    e == [] || (e[0] == '.' && '/' !in e && forall k :: 1 <= k < |e| ==> e[k] != '.')
  }

  lemma SegmentExtShaped(b: string)
    requires '/' !in b
    ensures ExtShaped(SegmentExt(b))
  {
    var i := LastIndexOf(b, '.');
    if 0 < i && b != ".." {
      var e := b[i..];
      assert e[0] == '.';
      forall k | 0 <= k < |e| ensures e[k] != '/' && (k >= 1 ==> e[k] != '.') {
        assert e[k] == b[i + k];
      }
    }
  }

  lemma SplitAt(b: string, n: nat)
    requires n <= |b|
    ensures b[..n] + b[n..] == b
  {
  }

  /** Every extension Node reports has that shape, and the stem and the
      extension `path.parse` reports put the last segment back together. */
  lemma ExtnameShape(p: string)
    ensures ExtShaped(Extname(p))
    ensures |Extname(p)| <= |Basename(p)|
    ensures ParseName(p) + Extname(p) == Basename(p)
  {
    var b := Basename(p);
    var e := SegmentExt(b);
    assert Extname(p) == e;
    assert ParseName(p) == b[..|b| - |e|];
    SegmentExtShaped(b);
    SplitAt(b, |b| - |e|);
  }

  lemma NoSlashInside(stem: string, ext: string)
    requires '/' !in stem && '/' !in ext
    ensures '/' !in stem + ext
  {
    var s := stem + ext;
    forall k | 0 <= k < |s| ensures s[k] != '/' {
      if k < |stem| { assert s[k] == stem[k]; } else { assert s[k] == ext[k - |stem|]; }
    }
  }

  /** A non-empty name without '/' is its own last segment. */
  lemma OwnBasename(s: string)
    requires |s| > 0 && '/' !in s
    ensures Basename(s) == s
  {
    assert s[|s| - 1] != '/';
    assert TrimTrailingSlashes(s) == s;
  }

  lemma NoLastIndex(s: string, c: char)
    requires c !in s
    ensures LastIndexOf(s, c) == -1
  {
  }

  /** The extension of a stem without '.' followed by an extension-shaped tail. */
  lemma SegmentExtOf(stem: string, ext: string)
    requires |stem| > 0 && '.' !in stem
    requires ExtShaped(ext)
    ensures SegmentExt(stem + ext) == ext
  {
    var s := stem + ext;
    if ext == [] {
      assert s == stem;
      NoLastIndex(s, '.');
    } else {
      assert s[|stem|] == '.';
      forall k | |stem| < k < |s| ensures s[k] != '.' {
        assert s[k] == ext[k - |stem|];
      }
      LastIndexFrom(s, '.', |stem|);
      assert s[0] == stem[0];
      assert s[|stem|..] == ext;
    }
  }

  /** A name made of a non-empty stem without '.' or '/' followed by an
      extension-shaped tail has exactly that tail as its extension and that
      stem as its `path.parse` name. */
  lemma StemAndExt(stem: string, ext: string)
    requires |stem| > 0 && '.' !in stem && '/' !in stem
    requires ExtShaped(ext)
    ensures Basename(stem + ext) == stem + ext
    ensures Extname(stem + ext) == ext
    ensures ParseName(stem + ext) == stem
  {
    var s := stem + ext;
    NoSlashInside(stem, ext);
    OwnBasename(s);
    SegmentExtOf(stem, ext);
    assert s[..|s| - |ext|] == stem;
  }
}
