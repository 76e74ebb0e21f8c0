/**
 * The string and path primitives both views resolve names with: PHP's
 * `rtrim`/`ltrim` with a single character, `basename` as `pathinfo` computes
 * it, `pathinfo($name, PATHINFO_EXTENSION)`, and the `strpos($name, '..')`
 * test.
 */
module Paths {

  /** `rtrim(s, c)`: the longest prefix of `s` that does not end in `c` and is followed only by `c`. */
  function TrimEnd(s: string, c: char): (r: string)
    ensures |r| <= |s| && r == s[..|r|]
    ensures r == [] || r[|r| - 1] != c
    ensures forall i :: |r| <= i < |s| ==> s[i] == c
  {
    if |s| > 0 && s[|s| - 1] == c then TrimEnd(s[..|s| - 1], c) else s
  }

  /** `ltrim(s, c)`: the longest suffix of `s` that does not start with `c` and is preceded only by `c`. */
  function TrimStart(s: string, c: char): (r: string)
    ensures |r| <= |s| && r == s[|s| - |r|..]
    ensures r == [] || r[0] != c
    ensures forall i :: 0 <= i < |s| - |r| ==> s[i] == c
  {
    if |s| > 0 && s[0] == c then TrimStart(s[1..], c) else s
  }

  /**
   * The text after the last `c` in `s`, or all of `s` when it holds no `c`:
   * the longest suffix free of `c`.
   */
  function AfterLast(s: string, c: char): (r: string)
    ensures |r| <= |s| && r == s[|s| - |r|..]
    ensures c !in r
    ensures |r| < |s| ==> s[|s| - |r| - 1] == c
  {
    if s == [] || s[|s| - 1] == c then [] else AfterLast(s[..|s| - 1], c) + [s[|s| - 1]]
  }

  /** The last path segment once trailing slashes are stripped (PHP's `basename`, as used by `pathinfo`). */
  function Basename(path: string): (b: string)
    ensures '/' !in b
    ensures TrimEnd(path, '/') == [] || |b| > 0
  {
    AfterLast(TrimEnd(path, '/'), '/')
  }

  /** `pathinfo(path, PATHINFO_EXTENSION)`: what follows the last dot of the basename, "" without a dot. */
  function Extension(path: string): (e: string)
    ensures '.' !in e && '/' !in e
  {
    var b := Basename(path);
    if '.' in b then AfterLast(b, '.') else ""
  }

  /** Does `s` hold ".." starting at index `i`? */
  predicate DotDotAt(s: string, i: int)
  {
    0 <= i && i + 1 < |s| && s[i] == '.' && s[i + 1] == '.'
  }

  /** `strpos(s, '..') !== false` */
  predicate ContainsDotDot(s: string)
  {
    exists i :: 0 <= i < |s| && DotDotAt(s, i)
  }

  /** Is the ".." at `i` a whole path segment, i.e. a reference to the parent directory? */
  predicate ParentSegmentAt(s: string, i: int)
  {
    DotDotAt(s, i) && (i == 0 || s[i - 1] == '/') && (i + 2 == |s| || s[i + 2] == '/')
  }

  /** Does the path `s` step up to a parent directory anywhere? */
  predicate HasParentSegment(s: string)
  {
    exists i :: 0 <= i < |s| && ParentSegmentAt(s, i)
  }

  /** The three properties in AfterLast's contract determine its result. */
  lemma AfterLastUnique(s: string, c: char, r: string)
    requires |r| <= |s| && r == s[|s| - |r|..]
    requires c !in r
    requires |r| < |s| ==> s[|s| - |r| - 1] == c
    ensures r == AfterLast(s, c)
  {
  }

  /** A string not ending in `c` keeps its last character in the part after its last `c`. */
  lemma AfterLastKeepsLast(s: string, c: char)
    requires |s| > 0 && s[|s| - 1] != c
    ensures var r := AfterLast(s, c); |r| > 0 && r[|r| - 1] == s[|s| - 1]
  {
  }

  /** Appending text free of `c` extends the part after the last `c`. */
  lemma AfterLastAppendFree(s: string, t: string, c: char)
    requires c !in t
    ensures AfterLast(s + t, c) == AfterLast(s, c) + t
  {
    var a := AfterLast(s, c);
    var st := s + t;
    var r := a + t;
    assert st[|st| - |r|..] == s[|s| - |a|..] + t;
    if |r| < |st| {
      assert st[|st| - |r| - 1] == s[|s| - |a| - 1];
    }
    AfterLastUnique(st, c, r);
  }

  /** Appending text that holds a `c` makes the part after the last `c` come from that text alone. */
  lemma AfterLastAppendHit(s: string, t: string, c: char)
    requires c in t
    ensures AfterLast(s + t, c) == AfterLast(t, c)
  {
    var r := AfterLast(t, c);
    var st := s + t;
    assert st[|st| - |r|..] == t[|t| - |r|..];
    assert st[|st| - |r| - 1] == t[|t| - |r| - 1];
    AfterLastUnique(st, c, r);
  }

  /**
   * Appending a suffix that has a dot but no slash fixes the extension: it is
   * what follows the suffix's last dot, whatever the name before it was.
   */
  lemma ExtensionOfAppended(s: string, t: string)
    requires '/' !in t && '.' in t
    ensures Extension(s + t) == AfterLast(t, '.')
  {
    var st := s + t;
    assert st[|st| - 1] == t[|t| - 1];
    assert TrimEnd(st, '/') == st;
    AfterLastAppendFree(s, t, '/');
    var b := AfterLast(s, '/') + t;
    assert Basename(st) == b;
    assert '.' in b by { assert b[|b| - |t|..] == t; }
    AfterLastAppendHit(AfterLast(s, '/'), t, '.');
  }

  /** A parent-directory segment left after stripping leading slashes was already one before. */
  lemma TrimStartParentSegment(s: string, i: int)
    requires ParentSegmentAt(TrimStart(s, '/'), i)
    ensures ParentSegmentAt(s, |s| - |TrimStart(s, '/')| + i)
  {
    var t := TrimStart(s, '/');
    var k := |s| - |t|;
    assert t == s[k..];
    assert k > 0 ==> s[k - 1] == '/';
    ParentSegmentInSuffix(s, k, i);
  }

  /** A parent-directory segment of a suffix that starts a path segment is one of the whole path. */
  lemma ParentSegmentInSuffix(s: string, k: int, i: int)
    requires 0 <= k <= |s| && (k == 0 || s[k - 1] == '/')
    requires ParentSegmentAt(s[k..], i)
    ensures ParentSegmentAt(s, k + i)
  {
    var t := s[k..];
    assert s[k + i] == t[i] && s[k + i + 1] == t[i + 1];
    if i > 0 {
      assert s[k + i - 1] == t[i - 1];
    }
    if i + 2 < |t| {
      assert s[k + i + 2] == t[i + 2];
    }
  }

  /** Stripping leading slashes never creates a parent-directory segment. */
  lemma TrimStartKeepsSegments(s: string)
    ensures HasParentSegment(TrimStart(s, '/')) ==> HasParentSegment(s)
  {
    var t := TrimStart(s, '/');
    if HasParentSegment(t) {
      var i :| 0 <= i < |t| && ParentSegmentAt(t, i);
      TrimStartParentSegment(s, i);
    }
  }

  /** A name without any dot has no extension. */
  lemma NoDotNoExtension(s: string)
    requires '.' !in s
    ensures Extension(s) == ""
  {
    var t := TrimEnd(s, '/');
    var b := AfterLast(t, '/');
    assert b == s[|t| - |b|..|t|];
    NoDotInSlice(s, |t| - |b|, |t|);
  }

  /** A slice of a dot-free string is dot-free. */
  lemma NoDotInSlice(s: string, lo: int, hi: int)
    requires '.' !in s && 0 <= lo <= hi <= |s|
    ensures '.' !in s[lo..hi]
  {
    var u := s[lo..hi];
    forall j | 0 <= j < |u|
      ensures u[j] != '.'
    {
      assert u[j] == s[lo + j];
    }
  }

  /** `pathinfo` ignores a trailing slash: "foo.bar/" has the extension "bar". */
  lemma ExtensionIgnoresTrailingSlash(s: string)
    ensures Extension(s + "/") == Extension(s)
  {
    var u := s + "/";
    assert u[|u| - 1] == '/' && u[..|u| - 1] == s;
    assert TrimEnd(u, '/') == TrimEnd(s, '/');
    assert Basename(u) == Basename(s);
  }

  /** A dot-free directory name has no extension, even with its trailing slash. */
  lemma DirectoryHasNoExtension(dir: string)
    requires '.' !in dir
    ensures Extension(dir + "/") == ""
  {
    NoDotNoExtension(dir);
    ExtensionIgnoresTrailingSlash(dir);
  }

  /** A dot followed by text without dots or slashes: that text is the extension of the suffix. */
  lemma DotSuffix(e: string)
    requires '.' !in e && '/' !in e
    ensures '.' in "." + e && '/' !in "." + e && AfterLast("." + e, '.') == e
  {
    assert ("." + e)[0] == '.';
    AfterLastAppendFree(".", e, '.');
    assert AfterLast(".", '.') == [];
  }
}
