/**
 * Path helpers: `PathUtils.NormalizePath` (and its verbatim copy,
 * `FileSystemUtils.NormalizePath`, in the older Android client), plus the
 * two `System.IO.Path` queries the pipelines and samples rely on,
 * `GetExtension` and `GetFileName`.
 *
 * `Path.DirectorySeparatorChar` is the parameter `sep`; the set of
 * characters a platform treats as directory separators is `seps`
 * ('/' alone on Android, iOS and Mac Catalyst; '\' and '/' on Windows).
 */
module PathUtils {
  import opened Text

  predicate IsSlash(c: char) {
    c == '\\' || c == '/'
  }

  /** `filename.Replace('\\', sep).Replace('/', sep)`. */
  function NormalizePath(filename: string, sep: char): (r: string)
    ensures |r| == |filename|
    ensures forall i :: 0 <= i < |r| ==> r[i] == (if IsSlash(filename[i]) then sep else filename[i])
  {
    ReplaceChar(ReplaceChar(filename, '\\', sep), '/', sep)
  }

  /** The only slash a normalized path can contain is the separator itself. */
  lemma NormalizeLeavesOnlySeparator(filename: string, sep: char)
    ensures forall i :: 0 <= i < |filename| && IsSlash(NormalizePath(filename, sep)[i]) ==>
              NormalizePath(filename, sep)[i] == sep
  {
  }

  /** Normalizing twice is normalizing once. */
  lemma NormalizeIdempotent(filename: string, sep: char)
    ensures NormalizePath(NormalizePath(filename, sep), sep) == NormalizePath(filename, sep)
  {
    var once := NormalizePath(filename, sep);
    var twice := NormalizePath(once, sep);
    assert forall i :: 0 <= i < |once| ==> twice[i] == once[i];
  }

  /** Paths that differ only in which slash they use normalize to the same text. */
  lemma NormalizeIgnoresSlashKind(a: string, b: string, sep: char)
    requires |a| == |b|
    requires forall i :: 0 <= i < |a| ==> a[i] == b[i] || (IsSlash(a[i]) && IsSlash(b[i]))
    ensures NormalizePath(a, sep) == NormalizePath(b, sep)
  {
    var na, nb := NormalizePath(a, sep), NormalizePath(b, sep);
    assert forall i :: 0 <= i < |a| ==> na[i] == nb[i];
  }

  /** The scan of `Path.GetExtension`: walk back from position `i` to a '.' or a separator. */
  function ExtensionScan(path: string, seps: set<char>, i: nat): (r: string)
    requires i <= |path|
    ensures r == [] || (|r| >= 2 && r[0] == '.' && |r| <= |path| && path[|path| - |r|..] == r)
    decreases i
  {
    if i == 0 then []
    else if path[i - 1] == '.' then (if i != |path| then path[i - 1..] else [])
    else if path[i - 1] in seps then []
    else ExtensionScan(path, seps, i - 1)
  }

  /** `Path.GetExtension`: the final '.'-suffix of the last path component, "" if none. */
  function GetExtension(path: string, seps: set<char>): (r: string)
    ensures r == [] || (|r| >= 2 && r[0] == '.' && |r| <= |path| && path[|path| - |r|..] == r)
  {
    ExtensionScan(path, seps, |path|)
  }

  /** A '.' followed by at least one character, none of them a '.' or separator, is the extension. */
  lemma {:induction false} ExtensionScanFinds(path: string, seps: set<char>, i: nat, k: nat)
    requires k < |path| - 1 && k < i <= |path|
    requires path[k] == '.'
    requires forall j :: k < j < |path| ==> path[j] != '.' && path[j] !in seps
    ensures ExtensionScan(path, seps, i) == path[k..]
    decreases i
  {
    if i - 1 != k {
      ExtensionScanFinds(path, seps, i - 1, k);
    }
  }

  /** A path ending in `ext` (a '.' and then no '.' or separator) has extension `ext`. */
  lemma ExtensionOfSuffix(path: string, seps: set<char>, ext: string)
    requires |ext| >= 2 && ext[0] == '.' && |ext| <= |path| && path[|path| - |ext|..] == ext
    requires forall j :: 1 <= j < |ext| ==> ext[j] != '.' && ext[j] !in seps
    ensures GetExtension(path, seps) == ext
  {
    var k := |path| - |ext|;
    forall j | k < j < |path| ensures path[j] != '.' && path[j] !in seps {
      assert path[j] == ext[j - k];
    }
    ExtensionScanFinds(path, seps, |path|, k);
  }

  /** A path whose last character is '.' has no extension. */
  lemma ExtensionOfTrailingDot(path: string, seps: set<char>)
    requires |path| > 0 && path[|path| - 1] == '.'
    ensures GetExtension(path, seps) == []
  {
  }

  /** The scan of `Path.GetFileName`: walk back from position `i` to a separator. */
  function FileNameScan(path: string, seps: set<char>, i: nat): (r: string)
    requires i <= |path|
    requires forall j :: i <= j < |path| ==> path[j] !in seps
    ensures |r| <= |path| && path[|path| - |r|..] == r
    ensures forall j :: 0 <= j < |r| ==> r[j] !in seps
    ensures |r| < |path| ==> path[|path| - |r| - 1] in seps
    ensures |r| >= |path| - i
    decreases i
  {
    if i == 0 then path
    else if path[i - 1] in seps then path[i..]
    else FileNameScan(path, seps, i - 1)
  }

  /**
   * `Path.GetFileName`: the text after the last separator. It is a suffix of
   * the path, holds no separator, and is preceded by a separator unless it is
   * the whole path.
   */
  function GetFileName(path: string, seps: set<char>): (r: string)
    ensures |r| <= |path| && path[|path| - |r|..] == r
    ensures forall j :: 0 <= j < |r| ==> r[j] !in seps
    ensures |r| < |path| ==> path[|path| - |r| - 1] in seps
  {
    FileNameScan(path, seps, |path|)
  }

  predicate IsAsciiLetter(c: char) {
    ('A' <= c <= 'Z') || ('a' <= c <= 'z')
  }

  /** `Path.IsPathRooted`: a leading separator, or, where `drives` holds (Windows), a drive letter and ':'. */
  predicate IsPathRooted(path: string, seps: set<char>, drives: bool) {
    (|path| >= 1 && path[0] in seps) || (drives && |path| >= 2 && IsAsciiLetter(path[0]) && path[1] == ':')
  }

  /**
   * `Path.Combine(a, b)`: `a` when `b` is empty; `b` when `a` is empty or `b`
   * is rooted; otherwise `a` and `b` with one separator between them unless
   * either side already has one there.
   */
  function Combine(a: string, b: string, seps: set<char>, sep: char, drives: bool): (r: string)
    requires sep in seps
    ensures b == [] ==> r == a
    ensures b != [] ==> EndsWith(r, b)
    ensures b != [] && a != [] && !IsPathRooted(b, seps, drives) ==>
              StartsWith(r, a) && (|r| == |a| + |b| || (|r| == |a| + 1 + |b| && r[|a|] == sep))
  {
    if b == [] then a
    else if a == [] || IsPathRooted(b, seps, drives) then b
    else if a[|a| - 1] in seps || b[0] in seps then a + b
    else a + [sep] + b
  }

  predicate EndsWith(s: string, suffix: string) {
    |suffix| <= |s| && s[|s| - |suffix|..] == suffix
  }

  /** Scanning back from `i` stops just after the separator at `k - 1`, or at the start. */
  lemma {:induction false} FileNameScanStops(path: string, seps: set<char>, k: nat, i: nat)
    requires k <= i <= |path|
    requires k == 0 || path[k - 1] in seps
    requires forall j :: k <= j < |path| ==> path[j] !in seps
    ensures FileNameScan(path, seps, i) == path[k..]
    decreases i
  {
    if i > k {
      FileNameScanStops(path, seps, k, i - 1);
    }
  }

  /** A name preceded by nothing or by a separator is the path's file name. */
  lemma FileNameAfterSeparator(prefix: string, name: string, seps: set<char>)
    requires forall j :: 0 <= j < |name| ==> name[j] !in seps
    requires prefix == [] || prefix[|prefix| - 1] in seps
    ensures GetFileName(prefix + name, seps) == name
  {
    var path := prefix + name;
    assert forall j :: |prefix| <= j < |path| ==> path[j] == name[j - |prefix|];
    assert path[|prefix|..] == name;
    FileNameScanStops(path, seps, |prefix|, |path|);
  }

  /** Combining a directory with a bare file name keeps that file name. */
  lemma CombineKeepsFileName(dir: string, name: string, seps: set<char>, sep: char, drives: bool)
    requires sep in seps
    requires name != [] && forall j :: 0 <= j < |name| ==> name[j] !in seps
    requires !drives || |name| < 2 || name[1] != ':'
    ensures GetFileName(Combine(dir, name, seps, sep, drives), seps) == name
  {
    assert !IsPathRooted(name, seps, drives);
    if dir == [] {
      assert Combine(dir, name, seps, sep, drives) == name;
      FileNameAfterSeparator([], name, seps);
    } else if dir[|dir| - 1] in seps {
      assert Combine(dir, name, seps, sep, drives) == dir + name;
      FileNameAfterSeparator(dir, name, seps);
    } else {
      assert Combine(dir, name, seps, sep, drives) == (dir + [sep]) + name;
      FileNameAfterSeparator(dir + [sep], name, seps);
    }
  }
}
