/**
 * File-name helpers used by the image routes: POSIX path.basename and path.extname, the
 * caption rewrite `file.replace(/\.[^/.]+$/, '').replace(/[-_]/g, ' ')`, and the image
 * extension filter.
 */
module FileNames {
  import opened Strings
  import opened Sequences

  /** Index of the last occurrence of `c` in `s`, or -1. */
  function LastIndexOf(s: string, c: char): (r: int)
    ensures -1 <= r < |s|
    ensures r >= 0 ==> s[r] == c
    ensures forall i :: r < i < |s| ==> s[i] != c
  {
    if s == [] then -1
    else if s[|s| - 1] == c then |s| - 1
    else LastIndexOf(s[..|s| - 1], c)
  }

  function StripTrailingSlashes(p: string): (r: string)
    ensures |r| <= |p| && r == p[..|r|]
    ensures r == [] || r[|r| - 1] != '/'
  {
    if p != [] && p[|p| - 1] == '/' then StripTrailingSlashes(p[..|p| - 1]) else p
  }

  /** path.basename: the last path segment, ignoring trailing slashes. */
  function BaseName(p: string): (b: string)
    ensures '/' !in b
  {
    var q := StripTrailingSlashes(p);
    var slash := LastIndexOf(q, '/');
    var b := q[slash + 1..];
    assert forall i :: 0 <= i < |b| ==> b[i] == q[slash + 1 + i];
    b
  }

  /** A name is its own basename exactly when it holds no slash. */
  lemma BaseNameOfPlainName(p: string)
    requires '/' !in p
    ensures BaseName(p) == p
  {
    assert StripTrailingSlashes(p) == p;
    assert LastIndexOf(p, '/') == -1;
  }

  /** path.extname of one path segment. */
  function SegmentExt(b: string): (e: string)
    ensures e == [] || (e[0] == '.' && '.' !in e[1..])
    ensures e != [] ==> |e| < |b| && b[|b| - |e|..] == e
  {
    var d := LastIndexOf(b, '.');
    if d <= 0 || b == ".." then [] else b[d..]
  }

  /** path.extname: from the last '.' of the last segment, unless that dot leads the name. */
  function ExtName(p: string): string {
    SegmentExt(BaseName(p))
  }

  /** The regular expression /\.[^/.]+$/ removed from the end of `f`, when it matches. */
  function StripFinalExtension(f: string): (r: string)
    ensures r == f || (|r| < |f| && f[..|r|] == r)
  {
    var d := LastIndexOf(f, '.');
    if 0 <= d < |f| - 1 && '/' !in f[d + 1..] then f[..d] else f
  }

  function SpaceForSeparator(c: char): char {
    if c == '-' || c == '_' then ' ' else c
  }

  /** The caption both image routes derive from a file name. */
  function Caption(f: string): (r: string)
    ensures '-' !in r && '_' !in r
  {
    var base := StripFinalExtension(f);
    seq(|base|, i requires 0 <= i < |base| => SpaceForSeparator(base[i]))
  }

  const ImageExtensions: seq<string> := [".jpg", ".jpeg", ".png", ".gif", ".webp"]

  /** The filter both listing routes apply: lower-cased extension among the five. */
  predicate IsImageFile(f: string) {
    ToLower(ExtName(f)) in ImageExtensions
  }

  /** The files both listing routes keep, in directory order. */
  function ImageFiles(files: seq<string>): (r: seq<string>)
    ensures forall f :: f in r <==> f in files && IsImageFile(f)
  {
    Filter(files, IsImageFile)
  }

  /**
   * For a kept image file the caption regex removes exactly the extension path.extname
   * reports, so name == stripped name + extension.
   */
  lemma ImageNameSplits(f: string)
    requires '/' !in f && IsImageFile(f)
    ensures StripFinalExtension(f) + ExtName(f) == f
  {
    BaseNameOfPlainName(f);
    var e := ExtName(f);
    ImageExtensionLength(ToLower(e));
    var d := LastIndexOf(f, '.');
    assert e == f[d..];
    assert f == f[..d + 1] + f[d + 1..];
    assert StripFinalExtension(f) == f[..d];
  }

  /** Every image extension is a dot and at least three letters. */
  lemma ImageExtensionLength(e: string)
    requires e in ImageExtensions
    ensures |e| >= 4
  {
  }
}
