/** The parts of Node's `path` module the scripts rely on, for POSIX paths
    built from plain directory-entry names: `basename`, `extname`, `join` of a
    directory and one name, and `relative` for a path under its base. */
module Paths {
  import opened Ascii

  /** Index of the last occurrence of `c` in `s`, or -1. */
  function LastIndex(s: string, c: char): (k: int)
    ensures -1 <= k < |s|
    ensures k >= 0 ==> s[k] == c
    ensures forall j :: k < j < |s| ==> s[j] != c
  {
    if s == [] then -1
    else if s[|s| - 1] == c then |s| - 1
    else LastIndex(s[..|s| - 1], c)
  }

  /** `p` with every trailing `/` removed. */
  function TrimTrailingSlashes(p: string): (t: string)
    ensures t <= p
    ensures t == [] || t[|t| - 1] != '/'
    ensures forall j :: |t| <= j < |p| ==> p[j] == '/'
  {
    if p != [] && p[|p| - 1] == '/' then TrimTrailingSlashes(p[..|p| - 1]) else p
  }

  /** `path.basename(p)`: the last component, trailing separators ignored. */
  function BaseName(p: string): (b: string)
    ensures '/' !in b
    ensures b == [] || b[|b| - 1] != '/'
  {
    var t := TrimTrailingSlashes(p);
    t[LastIndex(t, '/') + 1..]
  }

  /** `path.extname` of a single component: from its last `.` to its end;
      empty when there is no `.`, when the only `.` that counts is the first
      character (a hidden file such as `.png`), or for the component `..`. */
  function ExtOfBase(b: string): (e: string)
  {
    var k := LastIndex(b, '.');
    if k <= 0 || b == ".." then "" else b[k..]
  }

  /** `path.extname(p)`. */
  function ExtName(p: string): (e: string)
    ensures e == [] || (e[0] == '.' && '.' !in e[1..] && '/' !in e)
    ensures |e| <= |BaseName(p)| && e == BaseName(p)[|BaseName(p)| - |e|..]
  {
    var b := BaseName(p);
    var e := ExtOfBase(b);
    assert e == [] || e == b[LastIndex(b, '.')..];
    e
  }

  /** `path.join(dir, name)` for a single entry name. */
  function Join(dir: string, name: string): string {
    dir + "/" + name
  }

  /** A directory-entry name: non-empty and free of separators. */
  predicate IsEntryName(name: string) {
    name != [] && '/' !in name
  }

  /** Joining a name onto a directory keeps that name as the last component. */
  lemma {:induction false} BaseNameOfJoin(dir: string, name: string)
    requires IsEntryName(name)
    ensures BaseName(Join(dir, name)) == name
    ensures ExtName(Join(dir, name)) == ExtName(name)
  {
    var p := Join(dir, name);
    assert TrimTrailingSlashes(p) == p;
    LastSlashOfJoin(dir, name);
    assert TrimTrailingSlashes(name) == name;
    assert BaseName(name) == name by {
      assert LastIndex(name, '/') == -1 by { NoOccurrence(name, '/'); }
    }
  }

  lemma {:induction false} LastSlashOfJoin(dir: string, name: string)
    requires '/' !in name
    ensures LastIndex(Join(dir, name), '/') == |dir|
  {
    var p := Join(dir, name);
    var k := LastIndex(p, '/');
    assert p[|dir|] == '/';
    assert forall j :: |dir| < j < |p| ==> p[j] == name[j - |dir| - 1];
  }

  lemma {:induction false} NoOccurrence(s: string, c: char)
    requires c !in s
    ensures LastIndex(s, c) == -1
  {
  }

  /** A component without `/` is its own base name. */
  lemma {:induction false} BaseNameOfName(name: string)
    requires IsEntryName(name)
    ensures BaseName(name) == name
  {
    assert TrimTrailingSlashes(name) == name;
    NoOccurrence(name, '/');
  }

  /** The extension of a stem that holds no `.` followed by an extension is
      that extension, provided the stem is not empty. */
  lemma {:induction false} ExtOfStemAndExt(stem: string, ext: string)
    requires stem != [] && '.' !in stem && '/' !in stem
    requires ext != [] && ext[0] == '.' && '.' !in ext[1..] && '/' !in ext
    ensures ExtName(stem + ext) == ext
  {
    var n := stem + ext;
    assert '/' !in n by {
      forall j | 0 <= j < |n| ensures n[j] != '/' {
        if j < |stem| { assert n[j] == stem[j]; } else { assert n[j] == ext[j - |stem|]; }
      }
    }
    BaseNameOfName(n);
    var k := LastIndex(n, '.');
    assert n[|stem|] == '.';
    assert forall j :: |stem| < j < |n| ==> n[j] == ext[1..][j - |stem| - 1];
    assert k == |stem|;
    assert n != ".." by { assert n[0] != '.' by { assert n[0] == stem[0]; } }
    assert n[k..] == ext;
  }

  /** With an empty stem the file is a hidden file and has no extension. */
  lemma {:induction false} ExtOfBareExt(ext: string)
    requires ext != [] && ext[0] == '.' && '.' !in ext[1..] && '/' !in ext
    ensures ExtName(ext) == ""
  {
    BaseNameOfName(ext);
    var k := LastIndex(ext, '.');
    assert forall j :: 0 < j < |ext| ==> ext[j] == ext[1..][j - 1];
  }

  /** The extension is insensitive to lower-casing: lower-casing a name and
      then taking its extension is taking the extension and lower-casing it. */
  lemma {:induction false} ExtNameOfLower(p: string)
    ensures ExtName(Lower(p)) == Lower(ExtName(p))
  {
    LowerBaseName(p);
    LowerExtOfBase(BaseName(p));
  }

  lemma {:induction false} LowerBaseName(p: string)
    ensures BaseName(Lower(p)) == Lower(BaseName(p))
  {
    var t := TrimTrailingSlashes(p);
    var lt := Lower(t);
    assert TrimTrailingSlashes(Lower(p)) == lt by { LowerTrim(p); }
    var k := LastIndex(t, '/');
    assert LastIndex(lt, '/') == k by { LowerLastIndex(t, '/'); }
    assert BaseName(Lower(p)) == lt[k + 1..];
    assert lt[k + 1..] == Lower(t[k + 1..]);
  }

  lemma {:induction false} LowerExtOfBase(b: string)
    ensures ExtOfBase(Lower(b)) == Lower(ExtOfBase(b))
  {
    LowerLastIndex(b, '.');
    assert (Lower(b) == "..") == (b == "..") by {
      if Lower(b) == ".." {
        ToLowerKeepsClasses(b[0]);
        ToLowerKeepsClasses(b[1]);
      }
    }
    var j := LastIndex(b, '.');
    if j > 0 && b != ".." {
      assert Lower(b)[j..] == Lower(b[j..]);
    }
  }

  lemma {:induction false} LowerTrim(p: string)
    ensures TrimTrailingSlashes(Lower(p)) == Lower(TrimTrailingSlashes(p))
  {
    if p != [] && p[|p| - 1] == '/' {
      assert Lower(p)[..|p| - 1] == Lower(p[..|p| - 1]);
      LowerTrim(p[..|p| - 1]);
    } else if p != [] {
      ToLowerKeepsClasses(p[|p| - 1]);
    }
  }

  lemma {:induction false} LowerLastIndex(s: string, c: char)
    requires c == '/' || c == '.'
    ensures LastIndex(Lower(s), c) == LastIndex(s, c)
  {
    if s != [] {
      ToLowerKeepsClasses(s[|s| - 1]);
      assert Lower(s)[..|s| - 1] == Lower(s[..|s| - 1]);
      LowerLastIndex(s[..|s| - 1], c);
    }
  }

  /** `path.relative(base, p)` for a path `p` lying under `base`: the part
      after `base` and its separator. */
  function RelativeUnder(base: string, p: string): (r: string)
    requires base + "/" <= p
    ensures base + "/" + r == p
  {
    p[|base| + 1..]
  }

  /** `path.posix.join(dir, rel)` for a relative path that needs no
      normalisation. */
  function PosixJoin(dir: string, rel: string): string {
    dir + "/" + rel
  }
}
