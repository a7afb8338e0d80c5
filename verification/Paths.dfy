/** Normalized absolute paths: as component sequences, and as the strings the supervisor holds. */
module Paths {
  import opened Results

  /** A path component: non-empty, no separator. */
  type Name = s: string | s != "" && '/' !in s witness "a"

  type Path = seq<Name>

  function Parent(p: Path): Path { if p == [] then [] else p[..|p| - 1] }

  /** The proper prefixes of a path. */
  function Ancestors(p: Path): set<Path> { set k | 0 <= k < |p| :: p[..k] }

  predicate Below(dir: Path, p: Path) { dir < p }

  /** Every component preceded by a separator; the root is "/". */
  function Join(p: Path): string {
    if p == [] then "" else Join(p[..|p| - 1]) + "/" + p[|p| - 1]
  }

  function Render(p: Path): string { if p == [] then "/" else Join(p) }

  /** Index of the last separator, or -1. */
  function LastSlash(s: string): (i: int)
    ensures -1 <= i < |s|
    ensures i >= 0 ==> s[i] == '/'
    ensures forall k :: i < k < |s| ==> s[k] != '/'
  {
    if s == "" then -1
    else if s[|s| - 1] == '/' then |s| - 1
    else LastSlash(s[..|s| - 1])
  }

  lemma JoinLastSlash(p: Path)
    requires p != []
    ensures LastSlash(Join(p)) == |Join(p[..|p| - 1])|
  {
    var (s, stem, last) := (Join(p), Join(p[..|p| - 1]), p[|p| - 1]);
    assert s[|stem|] == '/';
    forall k | |stem| < k < |s| ensures s[k] != '/' {
      assert s[k] == last[k - |stem| - 1];
    }
  }

  lemma {:induction false} JoinInjective(p: Path, q: Path)
    requires Join(p) == Join(q)
    ensures p == q
    decreases |p|
  {
    if p != [] && q != [] {
      JoinLastSlash(p);
      JoinLastSlash(q);
      var k := LastSlash(Join(p));
      assert Join(p)[..k] == Join(p[..|p| - 1]) && Join(q)[..k] == Join(q[..|q| - 1]);
      assert Join(p)[k + 1..] == p[|p| - 1] && Join(q)[k + 1..] == q[|q| - 1];
      JoinInjective(p[..|p| - 1], q[..|q| - 1]);
      assert p == p[..|p| - 1] + [p[|p| - 1]] && q == q[..|q| - 1] + [q[|q| - 1]];
    } else if p != [] {
      JoinLastSlash(p);
    } else if q != [] {
      JoinLastSlash(q);
    }
  }

  lemma RenderInjective(p: Path, q: Path)
    requires Render(p) == Render(q)
    ensures p == q
  {
    RootRendersAlone(p);
    RootRendersAlone(q);
    if p != [] && q != [] { JoinInjective(p, q); }
  }

  lemma RootRendersAlone(p: Path)
    ensures p != [] ==> Render(p) != "/" && |Render(p)| >= 2 && Render(p)[0] == '/' && Render(p)[|Render(p)| - 1] != '/'
    decreases |p|
  {
    if p != [] {
      RootRendersAlone(p[..|p| - 1]);
      if |p| > 1 { assert Render(p)[0] == Join(p[..|p| - 1])[0]; }
      assert Render(p)[|Render(p)| - 1] == p[|p| - 1][|p[|p| - 1]| - 1];
    }
  }

  /** dirname on an absolute path string. */
  function Dirname(path: string): Option<string> {
    var trimmed := if path != "" && path[|path| - 1] == '/' then path[..|path| - 1] else path;
    var i := LastSlash(trimmed);
    if i < 0 then None else if i == 0 then Some("/") else Some(trimmed[..i])
  }

  /** dirname of a rendered path is its parent, and the root has none. */
  lemma DirnameIsParent(p: Path)
    ensures Dirname(Render(p)) == if p == [] then None else Some(Render(p[..|p| - 1]))
  {
    if p != [] {
      RootRendersAlone(p);
      JoinLastSlash(p);
      var stem := p[..|p| - 1];
      if stem != [] { RootRendersAlone(stem); }
      assert Join(p)[..|Join(stem)|] == Join(stem);
    }
  }

  /** The string prefix that remove_children matches. */
  function ChildPrefix(dir: string): string { if dir == "/" then "/" else dir + "/" }

  lemma PrefixAtSlash(dir: Path, stem: Path, last: Name)
    requires dir != [] && Join(dir) + "/" < Join(stem) + "/" + last
    ensures Join(dir) + "/" < Join(stem) || (dir == stem)
  {
    var (d, t) := (Join(dir), Join(stem));
    var s := t + "/" + last;
    assert s[|d|] == '/' && s[..|d|] == d;
    if |d| < |t| {
      assert t[|d|] == '/' && t[..|d|] == s[..|d|];
    } else if |d| == |t| {
      assert s[..|t|] == t;
      JoinInjective(dir, stem);
    }
  }

  lemma PrefixByStem(dir: Path, stem: Path, last: Name)
    requires dir != []
    ensures Join(dir) + "/" < Join(stem) + "/" + last <==> dir == stem || Join(dir) + "/" < Join(stem)
  {
    if Join(dir) + "/" < Join(stem) + "/" + last { PrefixAtSlash(dir, stem, last); }
    if Join(dir) + "/" < Join(stem) {
      assert Join(stem) < Join(stem) + "/" + last;
    } else if dir == stem {
      assert Join(stem) + "/" < Join(stem) + "/" + last;
    }
  }

  /** Matching on `dir/` as a string is exactly being strictly below dir as a path. */
  lemma {:induction false} PrefixIsBelow(dir: Path, p: Path)
    ensures ChildPrefix(Render(dir)) < Render(p) <==> Below(dir, p)
    decreases |p|
  {
    RootRendersAlone(dir);
    RootRendersAlone(p);
    if p != [] && dir != [] {
      var stem := p[..|p| - 1];
      PrefixIsBelow(dir, stem);
      RootRendersAlone(stem);
      PrefixByStem(dir, stem, p[|p| - 1]);
    }
  }
}
