/**
 * The parts of Python's `os.path` (Windows flavour, `ntpath`, as of Python 3.12) that
 * the tool uses to name its output files and folders: `splitroot`, `basename`, the
 * root half of `splitext`, and `join` of two parts. Both `\` and `/` separate path
 * components.
 */
module Paths {
  import opened Wrappers
  import opened Text

  predicate IsSep(c: char) {
    c == '\\' || c == '/'
  }

  // ---------------------------------------------------------------------------
  // splitroot

  /** Where a path is cut into its drive (`C:`, or `\\\\server\\share` for a UNC path), its
      root (one separator, or nothing for a relative path) and the rest: the drive is
      `p[..driveEnd]` and the root `p[driveEnd..rootEnd]`. */
  datatype Cut = Cut(driveEnd: nat, rootEnd: nat)

  /** `p.find(sep, from)` for either separator: the first separator at or after `from`. */
  function FindSep(p: string, from: nat): (r: Option<nat>)
    ensures r.Some? ==> from <= r.value < |p| && IsSep(p[r.value])
    ensures r.None? ==> forall i :: from <= i < |p| ==> !IsSep(p[i])
    decreases |p| - from
  {
    if from >= |p| then None
    else if IsSep(p[from]) then Some(from)
    else FindSep(p, from + 1)
  }

  /** The first eight characters are `\\?\UNC\`, compared after `upper()`. */
  predicate LongUncPrefix(p: string) {
    && |p| >= 8 && IsSep(p[0]) && IsSep(p[1]) && p[2] == '?' && IsSep(p[3])
    && UpperChar(p[4]) == 'U' && UpperChar(p[5]) == 'N' && UpperChar(p[6]) == 'C'
    && IsSep(p[7])
  }

  /** `ntpath.splitroot` of a path that starts with two separators: the drive runs up to
      the separator after the server and share names (counted after `\\?\UNC\` when the
      path starts with it) and that separator is the root; without such a separator the
      whole path is the drive. */
  function SplitUnc(p: string): (c: Cut)
    requires |p| >= 2 && IsSep(p[0]) && IsSep(p[1])
    ensures 2 <= c.driveEnd <= c.rootEnd <= |p| && c.rootEnd <= c.driveEnd + 1
    ensures c.rootEnd == c.driveEnd + 1 ==> IsSep(p[c.driveEnd])
    ensures c.rootEnd == c.driveEnd ==> c.driveEnd == |p|
  {
    var start := if LongUncPrefix(p) then 8 else 2;
    match FindSep(p, start)
    case None => Cut(|p|, |p|)
    case Some(i) =>
      match FindSep(p, i + 1)
      case None => Cut(|p|, |p|)
      case Some(j) => Cut(j, j + 1)
  }

  /** `ntpath.splitroot(p)`. The root is empty or one separator. A path has neither drive
      nor root exactly when it does not start with a separator and has no colon second. A
      drive without a root is followed by more text only when it is a drive letter. */
  function SplitRoot(p: string): (c: Cut)
    ensures c.driveEnd <= c.rootEnd <= |p| && c.rootEnd <= c.driveEnd + 1
    ensures c.rootEnd == c.driveEnd + 1 ==> IsSep(p[c.driveEnd])
    ensures c.rootEnd == 0 <==> !(|p| >= 1 && IsSep(p[0])) && !(|p| >= 2 && p[1] == ':')
    ensures 0 < c.driveEnd == c.rootEnd < |p| ==> c.driveEnd == 2 && p[1] == ':'
  {
    if |p| >= 1 && IsSep(p[0]) then
      if |p| >= 2 && IsSep(p[1]) then SplitUnc(p) else Cut(0, 1)
    else if |p| >= 2 && p[1] == ':' then
      if |p| >= 3 && IsSep(p[2]) then Cut(2, 3) else Cut(2, 2)
    else Cut(0, 0)
  }

  /** The drive of `p`, and what follows its drive and root. */
  function Drive(p: string): string {
    p[..SplitRoot(p).driveEnd]
  }

  function Rest(p: string): string {
    p[SplitRoot(p).rootEnd..]
  }

  // ---------------------------------------------------------------------------
  // basename

  /** The last separator of `p` at an index in `[lo, hi)`, if there is one. */
  function LastSepIn(p: string, lo: nat, hi: nat): (r: Option<nat>)
    requires hi <= |p|
    ensures r.None? ==> forall i :: lo <= i < hi ==> !IsSep(p[i])
    ensures r.Some? ==> lo <= r.value < hi && IsSep(p[r.value])
    ensures r.Some? ==> forall i :: r.value < i < hi ==> !IsSep(p[i])
  {
    if hi <= lo then None
    else if IsSep(p[hi - 1]) then Some(hi - 1)
    else LastSepIn(p, lo, hi - 1)
  }

  /** `os.path.basename(p)`: what follows the last separator of the path after its
      drive and root. */
  function Basename(p: string): string {
    p[BaseStart(p)..]
  }

  /** Where the base name starts: after the drive, right after it or right after a
      separator, with no separator from there on. */
  function BaseStart(p: string): (k: nat)
    ensures SplitRoot(p).driveEnd <= k <= |p|
    ensures forall i :: k <= i < |p| ==> !IsSep(p[i])
    ensures k == SplitRoot(p).driveEnd || IsSep(p[k - 1])
  {
    var c := SplitRoot(p);
    match LastSepIn(p, c.rootEnd, |p|)
    case None => c.rootEnd
    case Some(i) => i + 1
  }

  /** A separator with none after it, at or past the end of the drive, ends the path
      before the base name. */
  lemma BasenameAfter(p: string, k: nat)
    requires k < |p| && IsSep(p[k]) && SplitRoot(p).driveEnd <= k
    requires forall i :: k < i < |p| ==> !IsSep(p[i])
    ensures Basename(p) == p[k + 1..]
  {
  }

  // ---------------------------------------------------------------------------
  // splitext

  /** The index of the last dot in `p`, if there is one. */
  function LastDot(p: string): (r: Option<nat>)
    ensures r.Some? ==> r.value < |p|
  {
    if p == [] then None
    else if p[|p| - 1] == '.' then Some(|p| - 1)
    else LastDot(p[..|p| - 1])
  }

  /** LastDot finds the last dot, and None means there is none. */
  lemma {:induction false} LastDotSpec(p: string)
    ensures LastDot(p).None? ==> forall i :: 0 <= i < |p| ==> p[i] != '.'
    ensures LastDot(p).Some? ==> p[LastDot(p).value] == '.'
    ensures LastDot(p).Some? ==> forall i :: LastDot(p).value < i < |p| ==> p[i] != '.'
  {
    if p != [] && p[|p| - 1] != '.' {
      LastDotSpec(p[..|p| - 1]);
    }
  }

  /** A dot with none after it is the one LastDot finds. */
  lemma {:induction false} LastDotAt(p: string, k: nat)
    requires k < |p| && p[k] == '.'
    requires forall i :: k < i < |p| ==> p[i] != '.'
    ensures LastDot(p) == Some(k)
    decreases |p|
  {
    if k < |p| - 1 {
      LastDotAt(p[..|p| - 1], k);
    }
  }

  /** `os.path.splitext(name)[0]` for a name without separators: cut at the last dot,
      unless everything before that dot is dots (a hidden file such as `.obj`). The
      result is a prefix of the name. The name is cut exactly when some dot has a
      character other than a dot before it, and then the cut is at a dot with no dot
      after it. */
  function Stem(name: string): (r: string)
    ensures |r| <= |name| && r == name[..|r|]
    ensures r != name <==> exists d, i :: 0 <= i < d < |name| && name[i] != '.' && name[d] == '.'
    ensures r != name ==> name[|r|] == '.' && forall i :: |r| < i < |name| ==> name[i] != '.'
  {
    LastDotSpec(name);
    match LastDot(name)
    case None => name
    case Some(d) =>
      if exists i :: 0 <= i < d && name[i] != '.' then
        var i :| 0 <= i < d && name[i] != '.';
        assert name[i] != '.' && name[d] == '.';
        name[..d]
      else
        name
  }

  /** Removing a file's extension: the stem of `x + ".obj"` is `x` whenever `x` has a
      character other than a dot; a name made only of dots keeps its extension. */
  lemma StemOfObj(x: string)
    ensures Stem(x + ".obj") == (if exists i :: 0 <= i < |x| && x[i] != '.' then x else x + ".obj")
  {
    var p := x + ".obj";
    LastDotAt(p, |x|);
    assert p[..|x|] == x;
    if exists i :: 0 <= i < |x| && x[i] != '.' {
      var i :| 0 <= i < |x| && x[i] != '.';
      assert p[i] != '.';
    }
  }

  /** The output subfolder of `dir/x.obj` is named `x`, for a file name `x` without
      separators and with a character other than a dot, when the folder part holds the
      whole drive of the path (anything but a bare `\\server` UNC prefix does). */
  lemma StemOfBasename(dir: string, x: string)
    requires forall i :: 0 <= i < |x| ==> !IsSep(x[i])
    requires exists i :: 0 <= i < |x| && x[i] != '.'
    requires SplitRoot(dir + "/" + x + ".obj").driveEnd <= |dir|
    ensures Stem(Basename(dir + "/" + x + ".obj")) == x
  {
    var p := dir + "/" + x + ".obj";
    forall i | |dir| < i < |p| ensures !IsSep(p[i]) {
      if i <= |dir| + |x| { assert p[i] == x[i - |dir| - 1]; }
    }
    BasenameAfter(p, |dir|);
    assert p[|dir| + 1..] == x + ".obj";
    StemOfObj(x);
  }

  // ---------------------------------------------------------------------------
  // join

  /** `str.lower()` on one character, for ASCII letters. */
  function LowerChar(c: char): char {
    if 'A' <= c <= 'Z' then (c as int + 32) as char else c
  }

  /** `s.lower()`, used to compare drives. */
  function Lower(s: string): (r: string)
    ensures |r| == |s|
  {
    if s == [] then [] else [LowerChar(s[0])] + Lower(s[1..])
  }

  /** The end of `ntpath.join`: drive, root and path, with a separator added between a
      UNC drive without a root and a path. */
  function Assemble(drive: string, root: string, path: string): string {
    if path != [] && root == [] && drive != [] && drive[|drive| - 1] != ':' && !IsSep(drive[|drive| - 1])
    then drive + "\\" + path
    else drive + root + path
  }

  /** The path of the first part, with a separator added unless it is empty or already
      ends in one. */
  function RelativePath(p: string): string {
    if p != [] && !IsSep(p[|p| - 1]) then p + "\\" else p
  }

  /** `os.path.join(a, b)` of two parts, following the drive and root of each; the
      lemmas below give the result case by case. */
  function Join(a: string, b: string): string {
    var x := SplitRoot(a);
    var y := SplitRoot(b);
    if y.driveEnd < y.rootEnd then
      Assemble(if 0 < y.driveEnd || x.driveEnd == 0 then Drive(b) else Drive(a), b[y.driveEnd..y.rootEnd], Rest(b))
    else if 0 < y.driveEnd && Lower(Drive(b)) != Lower(Drive(a)) then
      Assemble(Drive(b), [], Rest(b))
    else
      Assemble(if 0 < y.driveEnd then Drive(b) else Drive(a), a[x.driveEnd..x.rootEnd], RelativePath(Rest(a)) + Rest(b))
  }

  /** A path is its drive, its root and the rest, in that order. */
  lemma CutParts(p: string)
    ensures p == Drive(p) + p[SplitRoot(p).driveEnd..SplitRoot(p).rootEnd] + Rest(p)
  {
  }

  /** The last case of `Join`: `b` has no root, and no drive or the drive of `a`. */
  lemma JoinUnfoldRelative(a: string, b: string)
    requires SplitRoot(b).driveEnd == SplitRoot(b).rootEnd
    requires SplitRoot(b).driveEnd == 0 || Lower(Drive(b)) == Lower(Drive(a))
    ensures Join(a, b) == Assemble(if 0 < SplitRoot(b).driveEnd then Drive(b) else Drive(a),
      a[SplitRoot(a).driveEnd..SplitRoot(a).rootEnd], RelativePath(Rest(a)) + Rest(b))
  {
  }

  /** Appending a relative path to the parts of a path: a separator goes in unless the
      path is empty, ends in a separator, or has nothing after its drive and root while
      the appended path is empty or the drive ends in a colon. */
  lemma AssembleRelative(a: string, d: string, root: string, q: string, b: string)
    requires a == d + root + q
    requires root == [] || (|root| == 1 && IsSep(root[0]))
    requires d != [] && root == [] && q != [] ==> d[|d| - 1] == ':'
    ensures Assemble(d, root, RelativePath(q) + b) ==
      (if a == [] || IsSep(a[|a| - 1]) || (q == [] && (b == [] || a[|a| - 1] == ':'))
       then a + b else a + "\\" + b)
  {
    var path := RelativePath(q) + b;
    if q != [] {
      assert a[|a| - 1] == q[|q| - 1];
      assert Assemble(d, root, path) == d + root + path;
      if IsSep(q[|q| - 1]) {
        assert d + root + (q + b) == a + b;
      } else {
        assert d + root + (q + "\\" + b) == a + "\\" + b;
      }
    } else if root != [] {
      assert a[|a| - 1] == root[0];
      assert Assemble(d, root, b) == a + b;
    } else if d != [] {
      assert a == d;
    }
  }

  /** A relative `b` without a drive is appended to `a`, with a separator in between
      unless `a` is empty, ends in a separator, or has nothing after its drive and root
      while `b` is empty or `a` ends in the colon of a drive. */
  lemma JoinRelative(a: string, b: string)
    requires SplitRoot(b).rootEnd == 0
    ensures Join(a, b) ==
      (if a == [] || IsSep(a[|a| - 1]) || (Rest(a) == [] && (b == [] || a[|a| - 1] == ':'))
       then a + b else a + "\\" + b)
  {
    var x := SplitRoot(a);
    var d, root, q := Drive(a), a[x.driveEnd..x.rootEnd], Rest(a);
    JoinUnfoldRelative(a, b);
    assert Rest(b) == b;
    CutParts(a);
    AssembleRelative(a, d, root, q, b);
  }

  /** A rooted `b` replaces `a`, keeping only the drive of `a` when `b` has none. */
  lemma JoinRooted(a: string, b: string)
    requires SplitRoot(b).driveEnd < SplitRoot(b).rootEnd
    ensures Join(a, b) == (if 0 < SplitRoot(b).driveEnd then b else Drive(a) + b)
  {
    var y := SplitRoot(b);
    assert b == Drive(b) + b[y.driveEnd..y.rootEnd] + Rest(b);
  }

  /** A drive-relative `b` on another drive replaces `a` entirely. */
  lemma JoinOtherDrive(a: string, b: string)
    requires 0 < SplitRoot(b).driveEnd == SplitRoot(b).rootEnd
    requires Lower(Drive(b)) != Lower(Drive(a))
    ensures Join(a, b) == b
  {
    assert b == Drive(b) + Rest(b);
  }

  /** After a drive that ends in a colon, nothing is inserted: the root and the path,
      with its separator, follow the drive. */
  lemma AssembleAfterColon(d: string, s: string, root: string, q: string, rb: string)
    requires d != [] && d[|d| - 1] == ':'
    requires s == root + q
    ensures Assemble(d, root, RelativePath(q) + rb)
      == d + s + (if q != [] && !IsSep(s[|s| - 1]) then "\\" else "") + rb
  {
    if q != [] {
      assert s[|s| - 1] == q[|q| - 1];
    }
  }

  /** A drive-relative `b` on the same drive letter, in either case, puts its own drive
      in place of the drive of `a` and continues the path of `a`. */
  lemma JoinSameDrive(a: string, b: string)
    requires SplitRoot(b).driveEnd == SplitRoot(b).rootEnd == 2 && b[1] == ':'
    requires Lower(Drive(b)) == Lower(Drive(a))
    ensures Join(a, b) == Drive(b) + a[SplitRoot(a).driveEnd..]
      + (if Rest(a) != [] && !IsSep(a[|a| - 1]) then "\\" else "") + Rest(b)
  {
    var x := SplitRoot(a);
    var s, root, q := a[x.driveEnd..], a[x.driveEnd..x.rootEnd], Rest(a);
    JoinUnfoldRelative(a, b);
    assert s == root + q;
    assert s != [] ==> s[|s| - 1] == a[|a| - 1];
    AssembleAfterColon(Drive(b), s, root, q, Rest(b));
  }
}
