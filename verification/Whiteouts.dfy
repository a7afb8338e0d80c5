/** The whiteout set: strings in the program, paths to the reader. */
module Whiteouts {
  import opened Results
  import opened Paths

  /** The paths left after dropping everything strictly below dir. */
  function WithoutBelow(tombs: set<Path>, dir: Path): set<Path> {
    set p | p in tombs && !Below(dir, p)
  }

  /** Some proper ancestor of p is tombstoned. */
  predicate AncestorIn(tombs: set<Path>, p: Path) {
    exists k :: 0 <= k < |p| && p[..k] in tombs
  }

  /** No ancestor of p with k or more components is tombstoned. */
  predicate ClearFrom(tombs: set<Path>, p: Path, k: nat) {
    forall i :: k <= i < |p| ==> p[..i] !in tombs
  }

  lemma ClearStep(tombs: set<Path>, p: Path, k: nat)
    requires k < |p|
    ensures p[..k] in tombs ==> AncestorIn(tombs, p)
    ensures p[..k] !in tombs && ClearFrom(tombs, p, k + 1) ==> ClearFrom(tombs, p, k)
    ensures ClearFrom(tombs, p, 0) <==> !AncestorIn(tombs, p)
  {
  }

  class Tombstones {
    var strings: set<string>
    ghost var view: set<Path>

    ghost predicate Valid()
      reads this
    {
      strings == set p | p in view :: Render(p)
    }

    constructor ()
      ensures Valid() && view == {}
    {
      strings, view := {}, {};
    }

    lemma Holds(p: Path)
      requires Valid()
      ensures Render(p) in strings <==> p in view
    {
      if Render(p) in strings {
        var q :| q in view && Render(q) == Render(p);
        RenderInjective(p, q);
      }
    }

    method Add(path: string, ghost p: Path)
      requires Valid() && path == Render(p)
      modifies this
      ensures Valid() && view == old(view) + {p}
    {
      strings := strings + {path};
      view := view + {p};
    }

    method Remove(path: string, ghost p: Path)
      requires Valid() && path == Render(p)
      modifies this
      ensures Valid() && view == old(view) - {p}
    {
      strings := strings - {path};
      ghost var was := view;
      view := view - {p};
      forall q | q in was ensures Render(q) == path <==> q == p {
        if Render(q) == path { RenderInjective(q, p); }
      }
    }

    /** Drop every tombstone strictly below a directory. */
    method RemoveChildren(dir: string, ghost d: Path)
      requires Valid() && dir == Render(d)
      modifies this
      ensures Valid() && view == WithoutBelow(old(view), d)
      ensures forall q :: q in view <==> q in old(view) && !(d < q)
    {
      var prefix := ChildPrefix(dir);
      strings := set s | s in strings && !(prefix < s);
      ghost var was := view;
      view := WithoutBelow(view, d);
      forall q | q in was ensures prefix < Render(q) <==> Below(d, q) {
        PrefixIsBelow(d, q);
      }
    }

    method IsTombstoned(path: string, ghost p: Path) returns (yes: bool)
      requires Valid() && path == Render(p)
      ensures yes == (p in view)
    {
      Holds(p);
      yes := path in strings;
    }

    /** What the walk finds at the ancestor of length k. */
    lemma AtAncestor(p: Path, k: nat)
      requires Valid() && k <= |p|
      ensures Render(p[..k]) in strings <==> p[..k] in view
      ensures Dirname(Render(p[..k])) == ParentString(p, k)
      ensures Render(p[..k]) == "/" <==> k == 0
    {
      Holds(p[..k]);
      DirnameUp(p, k);
    }

    /** Walk up by dirname until a tombstone or the root. */
    method IsAncestorTombstoned(path: string, ghost p: Path) returns (yes: bool)
      requires Valid() && path == Render(p)
      ensures yes == AncestorIn(view, p)
    {
      ghost var k := |p|;
      assert p[..k] == p;
      AtAncestor(p, k);
      var parent := Dirname(path);
      while parent.Some?
        invariant 0 <= k <= |p| && parent == ParentString(p, k)
        invariant ClearFrom(view, p, k)
        decreases k
      {
        k := k - 1;
        AtAncestor(p, k);
        ClearStep(view, p, k);
        if parent.value in strings { return true; }
        if parent.value == "/" { return false; }
        parent := Dirname(parent.value);
      }
      return false;
    }
  }

  function ParentString(p: Path, k: nat): Option<string>
    requires k <= |p|
  {
    if k == 0 then None else Some(Render(p[..k - 1]))
  }

  lemma DirnameUp(p: Path, k: nat)
    requires k <= |p|
    ensures Dirname(Render(p[..k])) == ParentString(p, k)
    ensures Render(p[..k]) == "/" <==> k == 0
  {
    RootRendersAlone(p[..k]);
    DirnameIsParent(p[..k]);
    if k > 0 { assert p[..k][..k - 1] == p[..k - 1]; }
  }
}
