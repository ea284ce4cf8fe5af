/** The parts of `pathlib.PurePosixPath` the pipeline reads: `name`,
    `suffix`, `stem` and `/`. Paths are plain strings with `/` as the
    separator. */
module Paths {
  import opened Text

  /** Python's `s.rfind(c)`: the last index holding `c`, or -1. */
  function LastIndexOf(s: string, c: char): (r: int)
    ensures -1 <= r < |s|
    ensures r >= 0 ==> s[r] == c
    decreases |s|
  {
    if s == [] then -1
    else if s[|s| - 1] == c then |s| - 1
    else LastIndexOf(s[..|s| - 1], c)
  }

  /** Nothing after the index `rfind` returns holds the character. */
  lemma {:induction false} LastIndexOfIsLast(s: string, c: char)
    ensures forall i :: LastIndexOf(s, c) < i < |s| ==> s[i] != c
    decreases |s|
  {
    if s != [] && s[|s| - 1] != c {
      LastIndexOfIsLast(s[..|s| - 1], c);
    }
  }

  /** The path without the trailing separators and `.` components that
      `pathlib` drops when it parses it: `a/b/`, `a/b/.` and `a/b/./`
      all become `a/b`, and `.` alone becomes empty. */
  function DropTrailing(p: string): (t: string)
    ensures |t| <= |p| && t == p[..|t|]
    ensures t != [] ==> t[|t| - 1] != '/'
    ensures t != "." && !EndsWith(t, "/.")
    decreases |p|
  {
    if p == [] then p
    else if p[|p| - 1] == '/' then DropTrailing(p[..|p| - 1])
    else if p == "." || EndsWith(p, "/.") then DropTrailing(p[..|p| - 1])
    else p
  }

  /** `Path(p).name`: the last component once trailing separators and
      `.` components are dropped; empty for the root and for `.`. */
  function Name(p: string): (r: string)
    ensures '/' !in r && r != "."
  {
    var t := DropTrailing(p);
    LastComponent(t);
    t[LastIndexOf(t, '/') + 1..]
  }

  /** The text after the last separator holds none, and it is not `.`
      when the path does not end in a `.` component. */
  lemma LastComponent(t: string)
    requires t != "." && !EndsWith(t, "/.")
    ensures var r := t[LastIndexOf(t, '/') + 1..]; '/' !in r && r != "."
  {
    AfterLastSeparator(t);
    var i := LastIndexOf(t, '/');
    if i < 0 {
      assert t[i + 1..] == t;
    } else if |t| - i == 2 {
      assert t[|t| - 2..] == [t[i]] + t[i + 1..];
    }
  }

  lemma AfterLastSeparator(t: string)
    ensures '/' !in t[LastIndexOf(t, '/') + 1..]
  {
    var i := LastIndexOf(t, '/');
    var r := t[i + 1..];
    LastIndexOfIsLast(t, '/');
    forall k | 0 <= k < |r| ensures r[k] != '/' {
      assert r[k] == t[i + 1 + k];
    }
  }

  /** A trailing separator or `.` component does not change the name. */
  lemma NameIgnoresTrailing(p: string)
    ensures Name(p + "/") == Name(p)
    ensures Name(p + "/.") == Name(p)
    ensures Name(p + "/./") == Name(p)
  {
    TrailingLiterals();
    DropSlash(p);
    SameName(p + "/", p);
    DropDot(p + "/");
    Regroup(p, "/", ".", "/.");
    SameName(p + "/.", p);
    DropSlash(p + "/.");
    Regroup(p, "/.", "/", "/./");
    SameName(p + "/./", p);
  }

  lemma TrailingLiterals()
    ensures "/" + "." == "/." && "/." + "/" == "/./"
  {
  }

  lemma Regroup(p: string, a: string, b: string, ab: string)
    requires a + b == ab
    ensures p + ab == (p + a) + b
  {
  }

  /** The name depends only on the path with its trailing parts dropped. */
  lemma SameName(p: string, q: string)
    requires DropTrailing(p) == DropTrailing(q)
    ensures Name(p) == Name(q)
  {
  }

  lemma DropSlash(p: string)
    ensures DropTrailing(p + "/") == DropTrailing(p)
  {
    assert (p + "/")[..|p|] == p;
  }

  lemma DropDot(p: string)
    requires EndsWith(p, "/")
    ensures DropTrailing(p + ".") == DropTrailing(p)
  {
    var q := p + ".";
    assert q[..|p|] == p;
    assert q[|q| - 2..] == "/.";
    DropSlash(p[..|p| - 1]);
    assert p[..|p| - 1] + "/" == p;
  }

  /** `Path(p).suffix`: from the last dot of the name, provided that dot
      is neither the name's first nor its last character. */
  function Suffix(p: string): (r: string)
    ensures r == [] || (2 <= |r| <= |Name(p)| && r[0] == '.' && r == Name(p)[|Name(p)| - |r|..])
  {
    var n := Name(p);
    var i := LastIndexOf(n, '.');
    if 0 < i < |n| - 1 then
      assert |n| - |n[i..]| == i;
      n[i..]
    else ""
  }

  /** `Path(p).stem`: the name without its suffix. */
  function Stem(p: string): (r: string)
    ensures |r| <= |Name(p)| && r == Name(p)[..|r|] && (r == [] <==> Name(p) == [])
  {
    var n := Name(p);
    var i := LastIndexOf(n, '.');
    if 0 < i < |n| - 1 then n[..i] else n
  }

  /** The suffix and the stem are read from the name, so a trailing
      separator or `.` component changes neither. */
  lemma SuffixIgnoresTrailing(p: string)
    ensures Suffix(p + "/") == Suffix(p) && Stem(p + "/") == Stem(p)
    ensures Suffix(p + "/.") == Suffix(p) && Stem(p + "/.") == Stem(p)
  {
    NameIgnoresTrailing(p);
  }

  /** `Path(dir) / name`. */
  function Join(dir: string, name: string): string {
    dir + "/" + name
  }

  /** The stem and the suffix put together give the name back. */
  lemma StemSuffix(p: string)
    ensures Stem(p) + Suffix(p) == Name(p)
  {
    var n := Name(p);
    var i := LastIndexOf(n, '.');
    if 0 < i < |n| - 1 {
      assert n[..i] + n[i..] == n;
    } else {
      assert n + "" == n;
    }
  }

  /** Joining a separator-free name under a directory gives a path whose
      name is that name. */
  lemma NameOfJoin(dir: string, name: string)
    requires '/' !in name && name != "" && name != "."
    ensures Name(Join(dir, name)) == name
  {
    var p := Join(dir, name);
    assert !EndsWith(p, "/.") by {
      if |name| == 1 {
        assert name == [name[0]] && p[|p| - 1] == name[0];
      } else {
        assert p[|p| - 2] == name[|name| - 2];
      }
    }
    assert p[|p| - 1] == name[|name| - 1];
    assert DropTrailing(p) == p;
    assert p[|dir|] == '/';
    assert forall k :: |dir| < k < |p| ==> p[k] == name[k - |dir| - 1];
    assert LastIndexOf(p, '/') == |dir| by {
      LastIndexOfIsLast(p, '/');
    }
    assert p[|dir| + 1..] == name;
  }
}
