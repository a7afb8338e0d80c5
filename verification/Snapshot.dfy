/** Snapshots on a flat disk map: the recursive tree copy, the snapshot calls, and whole runs. */
module Snapshot {
  import opened FileData
  import opened Results
  import opened Paths

  datatype Node = File(bytes: seq<Byte>) | Dir | Link(target: seq<Byte>)

  /** A disk, or a tree cut out of one and keyed by path relative to its root; no key, no tree. */
  type Disk = map<Path, Node>

  // ---------------------------------------------------------------- prefixes

  predicate Apart(p: Path, q: Path) { !(p <= q) && !(q <= p) }

  lemma PrefixesCompare(a: Path, b: Path, q: Path)
    ensures a <= q && b <= q && |a| <= |b| ==> a <= b
    ensures a <= b && b <= q ==> a <= q
  {
    if a <= q && b <= q { assert q[..|a|] == a && q[..|b|] == b; }
  }

  lemma Rejoin(p: Path, q: Path)
    requires p <= q
    ensures p + q[|p|..] == q
  {
  }

  lemma Tail(p: Path, r: Path)
    ensures p <= p + r && (p + r)[|p|..] == r
  {
  }

  /** Being below p, seen from the parent. */
  lemma ParentPrefix(p: Path, q: Path)
    requires q != []
    ensures p <= Parent(q) <==> p <= q && p != q
    ensures p <= q && p != q ==> q[|p|..] != [] && Parent(q)[|p|..] == Parent(q[|p|..])
  {
    if p <= q { assert q[..|p|] == p; }
  }

  // ---------------------------------------------------------------- trees

  /** The tree at p. */
  function Sub(d: Disk, p: Path): Disk {
    map r | r in (set q | q in d && p <= q :: q[|p|..]) && p + r in d :: d[p + r]
  }

  lemma SubAt(d: Disk, p: Path, r: Path)
    ensures r in Sub(d, p) <==> p + r in d
    ensures r in Sub(d, p) ==> Sub(d, p)[r] == d[p + r]
  {
    Tail(p, r);
  }

  /** The disk with everything at and below dst replaced by the tree t. */
  function Graft(d: Disk, dst: Path, t: Disk): Disk {
    map q | q in d.Keys + (set r | r in t :: dst + r) && (if dst <= q then q[|dst|..] in t else q in d)
      :: if dst <= q then t[q[|dst|..]] else d[q]
  }

  lemma GraftAt(d: Disk, dst: Path, t: Disk, q: Path)
    ensures q in Graft(d, dst, t) <==> if dst <= q then q[|dst|..] in t else q in d
    ensures q in Graft(d, dst, t) ==> Graft(d, dst, t)[q] == if dst <= q then t[q[|dst|..]] else d[q]
  {
    if dst <= q { Rejoin(dst, q); }
  }

  /** The tree planted is the tree found. */
  lemma GraftThere(d: Disk, dst: Path, t: Disk)
    ensures Sub(Graft(d, dst, t), dst) == t
  {
    forall r ensures (r in Sub(Graft(d, dst, t), dst) <==> r in t) && (r in t ==> Sub(Graft(d, dst, t), dst)[r] == t[r]) {
      SubAt(Graft(d, dst, t), dst, r);
      GraftAt(d, dst, t, dst + r);
      Tail(dst, r);
    }
  }

  /** Replacing the tree at dst leaves every tree apart from dst alone. */
  lemma GraftElsewhere(d: Disk, dst: Path, t: Disk, p: Path)
    requires Apart(p, dst)
    ensures Sub(Graft(d, dst, t), p) == Sub(d, p)
  {
    var g := Graft(d, dst, t);
    forall r ensures (r in Sub(g, p) <==> r in Sub(d, p)) && (r in Sub(d, p) ==> Sub(g, p)[r] == Sub(d, p)[r]) {
      SubAt(g, p, r);
      SubAt(d, p, r);
      GraftAt(d, dst, t, p + r);
      PrefixesCompare(p, dst, p + r);
      PrefixesCompare(dst, p, p + r);
    }
  }

  ghost predicate TreeShaped(d: Disk) {
    forall q :: q in d && q != [] ==> Parent(q) in d && d[Parent(q)].Dir?
  }

  lemma {:induction false} AncestorsAreDirs(d: Disk, p: Path, q: Path)
    requires TreeShaped(d) && q in d && p <= q
    ensures p in d && (p != q ==> d[p].Dir?)
    decreases |q|
  {
    if p != q {
      ParentPrefix(p, q);
      AncestorsAreDirs(d, p, Parent(q));
    }
  }

  lemma SubShape(d: Disk, p: Path)
    requires TreeShaped(d)
    ensures TreeShaped(Sub(d, p))
    ensures p in d <==> Sub(d, p) != map[]
    ensures p in d ==> [] in Sub(d, p) && Sub(d, p)[[]] == d[p]
  {
    var t := Sub(d, p);
    assert p + [] == p;
    SubAt(d, p, []);
    forall r | r in t ensures p in d && (r != [] ==> Parent(r) in t && t[Parent(r)].Dir?) {
      SubAt(d, p, r);
      AncestorsAreDirs(d, p, p + r);
      if r != [] {
        assert Parent(p + r) == p + Parent(r);
        SubAt(d, p, Parent(r));
      }
    }
    assert p !in d ==> t.Keys == {};
  }

  /** The root of a planted tree has a directory above it. */
  predicate Supported(d: Disk, dst: Path) { dst == [] || (Parent(dst) in d && d[Parent(dst)].Dir?) }

  lemma GraftShape(d: Disk, dst: Path, t: Disk)
    requires TreeShaped(d) && TreeShaped(t)
    requires t != map[] ==> Supported(d, dst)
    ensures TreeShaped(Graft(d, dst, t))
  {
    var g := Graft(d, dst, t);
    forall q | q in g && q != [] ensures Parent(q) in g && g[Parent(q)].Dir? {
      GraftAt(d, dst, t, q);
      GraftAt(d, dst, t, Parent(q));
      ParentPrefix(dst, q);
    }
  }

  // ---------------------------------------------------------------- create_dir_all, remove_dir_all

  predicate CanMakeDirs(d: Disk, p: Path) { forall q :: q in d && q <= p ==> d[q].Dir? }

  /** p and its missing ancestors become directories. */
  function WithDirs(d: Disk, p: Path): Disk {
    d + map a | a in (set k | 0 <= k <= |p| :: p[..k]) && a !in d :: Dir
  }

  lemma WithDirsAt(d: Disk, p: Path, q: Path)
    ensures q in WithDirs(d, p) <==> q in d || q <= p
    ensures q in d ==> WithDirs(d, p)[q] == d[q]
    ensures q <= p && q !in d ==> WithDirs(d, p)[q] == Dir
  {
    if q <= p { assert q == p[..|q|]; }
  }

  lemma WithDirsShape(d: Disk, p: Path)
    requires TreeShaped(d) && CanMakeDirs(d, p)
    ensures TreeShaped(WithDirs(d, p)) && p in WithDirs(d, p) && WithDirs(d, p)[p].Dir?
  {
    var w := WithDirs(d, p);
    WithDirsAt(d, p, p);
    forall q | q in w && q != [] ensures Parent(q) in w && w[Parent(q)].Dir? {
      WithDirsAt(d, p, q);
      WithDirsAt(d, p, Parent(q));
      PrefixesCompare(Parent(q), q, p);
    }
  }

  lemma WithDirsThere(d: Disk, p: Path)
    requires TreeShaped(d) && p in d && d[p].Dir?
    ensures CanMakeDirs(d, p) && WithDirs(d, p) == d
  {
    forall q | q <= p ensures q in d && d[q].Dir? { AncestorsAreDirs(d, q, p); }
    forall q ensures q in WithDirs(d, p) <==> q in d { WithDirsAt(d, p, q); }
    forall q | q in d ensures WithDirs(d, p)[q] == d[q] { WithDirsAt(d, p, q); }
  }

  /** New directories above p do not show in a tree that is not above p. */
  lemma WithDirsElsewhere(d: Disk, p: Path, q: Path)
    requires !(q <= p)
    ensures Sub(WithDirs(d, p), q) == Sub(d, q)
  {
    var w := WithDirs(d, p);
    forall r ensures (r in Sub(w, q) <==> r in Sub(d, q)) && (r in Sub(d, q) ==> Sub(w, q)[r] == Sub(d, q)[r]) {
      SubAt(w, q, r);
      SubAt(d, q, r);
      WithDirsAt(d, p, q + r);
      PrefixesCompare(q, q + r, p);
    }
  }

  /** The parents of dst are made, then the tree t lands at dst. */
  function Planted(d: Disk, dst: Path, t: Disk): Disk
    requires dst != []
  {
    Graft(WithDirs(d, Parent(dst)), dst, t)
  }

  lemma PlantedShape(d: Disk, dst: Path, t: Disk)
    requires dst != [] && TreeShaped(d) && TreeShaped(t) && CanMakeDirs(d, Parent(dst))
    ensures TreeShaped(Planted(d, dst, t)) && Sub(Planted(d, dst, t), dst) == t
  {
    WithDirsShape(d, Parent(dst));
    GraftShape(WithDirs(d, Parent(dst)), dst, t);
    GraftThere(WithDirs(d, Parent(dst)), dst, t);
  }

  lemma PlantedElsewhere(d: Disk, dst: Path, t: Disk, p: Path)
    requires dst != [] && Apart(p, dst)
    ensures Sub(Planted(d, dst, t), p) == Sub(d, p)
  {
    PrefixesCompare(p, Parent(dst), dst);
    WithDirsElsewhere(d, Parent(dst), p);
    GraftElsewhere(WithDirs(d, Parent(dst)), dst, t, p);
  }

  /** Planting overwrites: what was planted before at the same place does not matter. */
  lemma PlantedTwice(d: Disk, dst: Path, t: Disk, u: Disk)
    requires dst != []
    ensures Planted(Graft(d, dst, t), dst, u) == Planted(d, dst, u)
  {
    var up := Parent(dst);
    var e := Graft(d, dst, t);
    var (g, h) := (Planted(e, dst, u), Planted(d, dst, u));
    forall q ensures (q in g <==> q in h) && (q in g ==> g[q] == h[q]) {
      GraftAt(d, dst, t, q);
      GraftAt(WithDirs(e, up), dst, u, q);
      GraftAt(WithDirs(d, up), dst, u, q);
      WithDirsAt(e, up, q);
      WithDirsAt(d, up, q);
    }
  }

  // ---------------------------------------------------------------- copy_tree, one child at a time

  /** The part of a tree under the children already handled. */
  function Part(t: Disk, done: set<Name>): Disk {
    map r | r in t && (r == [] || r[0] in done) :: t[r]
  }

  /** Names of the entries a directory lists. */
  function Children(t: Disk): set<Name> { set r | r in t && |r| == 1 :: r[0] }

  lemma PartShape(t: Disk, done: set<Name>)
    requires TreeShaped(t)
    ensures TreeShaped(Part(t, done))
  {
    forall r | r in Part(t, done) && r != [] ensures Parent(r) in Part(t, done) && Part(t, done)[Parent(r)].Dir? {
      if |r| > 1 { assert Parent(r)[0] == r[0]; }
    }
  }

  lemma PartStepAt(d: Disk, dst: Path, t: Disk, done: set<Name>, n: Name, q: Path)
    ensures var h := Graft(Graft(d, dst, Part(t, done)), dst + [n], Sub(t, [n]));
            var e := Graft(d, dst, Part(t, done + {n}));
            (q in h <==> q in e) && (q in h ==> h[q] == e[q])
  {
    GraftAt(Graft(d, dst, Part(t, done)), dst + [n], Sub(t, [n]), q);
    GraftAt(d, dst, Part(t, done), q);
    GraftAt(d, dst, Part(t, done + {n}), q);
    UnderChild(dst, n, q);
    if dst + [n] <= q { SubAt(t, [n], q[|dst| + 1..]); }
  }

  /** Handling one more child extends the part. */
  lemma PartStep(d: Disk, dst: Path, t: Disk, done: set<Name>, n: Name)
    ensures Graft(Graft(d, dst, Part(t, done)), dst + [n], Sub(t, [n])) == Graft(d, dst, Part(t, done + {n}))
  {
    var h := Graft(Graft(d, dst, Part(t, done)), dst + [n], Sub(t, [n]));
    var e := Graft(d, dst, Part(t, done + {n}));
    forall q ensures (q in h <==> q in e) && (q in h ==> h[q] == e[q]) { PartStepAt(d, dst, t, done, n, q); }
  }

  lemma UnderChild(dst: Path, n: Name, q: Path)
    ensures dst + [n] <= q <==> dst <= q && q[|dst|..] != [] && q[|dst|..][0] == n
    ensures dst + [n] <= q ==> q[|dst|..] == [n] + q[|dst| + 1..]
  {
    if dst + [n] <= q {
      assert q[..|dst| + 1] == dst + [n];
      assert q[..|dst|] == dst && q[|dst|] == n;
    }
    if dst <= q && q[|dst|..] != [] && q[|dst|..][0] == n {
      assert q[..|dst|] == dst && q[|dst|] == n;
      assert q[..|dst| + 1] == dst + [n];
    }
  }

  /** All children handled is the whole tree. */
  lemma PartWhole(t: Disk)
    requires TreeShaped(t)
    ensures Part(t, Children(t)) == t
  {
    forall r | r in t && r != [] ensures r[0] in Children(t) {
      var c := r[..1];
      AncestorsAreDirs(t, c, r);
      assert |c| == 1 && c[0] == r[0];
    }
  }

  lemma PartNone(t: Disk)
    requires [] in t
    ensures Part(t, {}) == map[[] := t[[]]]
  {
  }

  lemma ChildOf(p: Path, n: Name, r: Path)
    ensures p + [n] + r == p + ([n] + r)
  {
  }

  lemma SubSub(d: Disk, p: Path, n: Name)
    ensures Sub(d, p + [n]) == Sub(Sub(d, p), [n])
  {
    var t := Sub(d, p);
    forall r: Path
      ensures r in Sub(d, p + [n]) <==> r in Sub(t, [n])
      ensures r in Sub(t, [n]) ==> Sub(d, p + [n])[r] == Sub(t, [n])[r]
    {
      SubAt(d, p + [n], r);
      ChildOf(p, n, r);
      SubAt(d, p, [n] + r);
      SubAt(t, [n], r);
    }
  }

  /** The paths of the subtree at p; the measure of the recursion. */
  function Within(d: Disk, p: Path): set<Path> { set q | q in d && p <= q }

  lemma WithinShrinks(d: Disk, src: Path, dst: Path, u: Disk, n: Name)
    requires Apart(src, dst) && src in d
    ensures Within(Graft(d, dst, u), src + [n]) < Within(d, src)
  {
    var (small, big) := (Within(Graft(d, dst, u), src + [n]), Within(d, src));
    forall q | q in small ensures q in big {
      GraftAt(d, dst, u, q);
      PrefixesCompare(src, src + [n], q);
      PrefixesCompare(dst, src, q);
      PrefixesCompare(src, dst, q);
    }
    assert src in big && src !in small;
  }

  /** What copy_tree answers and leaves when the destination is absent. */
  function Copied(d: Disk, src: Path, dst: Path): (Disk, Result<()>)
    requires dst != []
  {
    if src !in d then (d, Err(NOENT))
    else if d[src].Link? && Parent(dst) !in d then (d, Err(NOENT))
    else (Planted(d, dst, Sub(d, src)), Ok(()))
  }

  lemma LeafTree(d: Disk, p: Path)
    requires TreeShaped(d) && p in d && !d[p].Dir?
    ensures Sub(d, p) == map[[] := d[p]]
  {
    assert p + [] == p;
    SubAt(d, p, []);
    forall r | r in Sub(d, p) ensures r == [] {
      SubAt(d, p, r);
      AncestorsAreDirs(d, p, p + r);
    }
  }

  lemma PutLeaf(d: Disk, dst: Path, n: Node)
    requires TreeShaped(d) && dst !in d
    ensures d[dst := n] == Graft(d, dst, map[[] := n])
  {
    forall q ensures (q in d[dst := n] <==> q in Graft(d, dst, map[[] := n]))
                     && (q in d[dst := n] ==> d[dst := n][q] == Graft(d, dst, map[[] := n])[q])
    {
      GraftAt(d, dst, map[[] := n], q);
      if dst <= q {
        if q in d { AncestorsAreDirs(d, dst, q); }
        Rejoin(dst, q);
        assert dst + [] == dst;
      }
    }
  }

  lemma MakeDirAtDst(d: Disk, dst: Path)
    requires dst != [] && TreeShaped(d) && dst !in d
    ensures WithDirs(d, dst) == Planted(d, dst, map[[] := Dir])
  {
    var (g, h) := (WithDirs(d, dst), Planted(d, dst, map[[] := Dir]));
    forall q ensures (q in g <==> q in h) && (q in g ==> g[q] == h[q]) {
      WithDirsAt(d, dst, q);
      WithDirsAt(d, Parent(dst), q);
      GraftAt(WithDirs(d, Parent(dst)), dst, map[[] := Dir], q);
      PrefixesCompare(q, Parent(dst), dst);
      if dst <= q {
        if q in d { AncestorsAreDirs(d, dst, q); }
        Rejoin(dst, q);
      }
    }
  }

  lemma WithinElsewhere(d: Disk, p: Path, q: Path)
    requires !(q <= p)
    ensures Within(WithDirs(d, p), q) == Within(d, q)
  {
    forall x | q <= x ensures x in WithDirs(d, p) <==> x in d {
      WithDirsAt(d, p, x);
      PrefixesCompare(q, x, p);
    }
  }

  /** The disk before the loop over src's entries: dst's parents are there, and src is as it was. */
  lemma LoopStarts(d: Disk, src: Path, dst: Path)
    requires dst != [] && TreeShaped(d) && Apart(src, dst) && dst !in d && CanMakeDirs(d, Parent(dst))
    ensures var m := WithDirs(d, Parent(dst));
            && TreeShaped(m) && Supported(m, dst)
            && Sub(m, src) == Sub(d, src) && Within(m, src) == Within(d, src)
            && (src in m <==> src in d)
            && CanMakeDirs(d, dst) && WithDirs(d, dst) == Graft(m, dst, map[[] := Dir])
  {
    WithDirsShape(d, Parent(dst));
    PrefixesCompare(src, Parent(dst), dst);
    WithDirsElsewhere(d, Parent(dst), src);
    WithinElsewhere(d, Parent(dst), src);
    WithDirsAt(d, Parent(dst), src);
    MakeDirAtDst(d, dst);
    forall q | q in d && q <= dst ensures d[q].Dir? { ParentPrefix(q, dst); }
  }

  lemma ApartBelow(p: Path, q: Path, n: Name)
    requires Apart(p, q)
    ensures Apart(p + [n], q + [n])
  {
    PrefixesCompare(p, p + [n], q + [n]);
    PrefixesCompare(p, q, q + [n]);
    PrefixesCompare(q, p, q + [n]);
    PrefixesCompare(q, q + [n], p + [n]);
    PrefixesCompare(q, p, p + [n]);
    PrefixesCompare(p, q, p + [n]);
  }

  lemma GraftRoot(d: Disk, dst: Path, t: Disk)
    requires [] in t
    ensures dst in Graft(d, dst, t) && Graft(d, dst, t)[dst] == t[[]]
  {
    GraftAt(d, dst, t, dst);
    assert dst <= dst && dst[|dst|..] == [];
  }

  /** With some children handled, the next one can be copied. */
  lemma ChildReady(m: Disk, src: Path, dst: Path, t: Disk, done: set<Name>, n: Name)
    requires TreeShaped(m) && TreeShaped(t) && [] in t && t[[]].Dir?
    requires Supported(m, dst) && Apart(src, dst) && src in m && n !in done
    ensures var g := Graft(m, dst, Part(t, done));
            && TreeShaped(g) && Apart(src + [n], dst + [n]) && dst + [n] !in g
            && dst in g && CanMakeDirs(g, dst) && WithDirs(g, dst) == g
            && Within(g, src + [n]) < Within(m, src)
  {
    var u := Part(t, done);
    PartShape(t, done);
    GraftShape(m, dst, u);
    GraftRoot(m, dst, u);
    WithDirsThere(Graft(m, dst, u), dst);
    WithinShrinks(m, src, dst, u, n);
    ApartBelow(src, dst, n);
  }

  /** The names read_dir lists at src. */
  function Entries(d: Disk, src: Path): set<Name> {
    set q | q in d && |q| == |src| + 1 && src <= q :: q[|src|]
  }

  lemma EntriesAreChildren(d: Disk, src: Path)
    ensures Entries(d, src) == Children(Sub(d, src))
  {
    var t := Sub(d, src);
    forall n ensures n in Entries(d, src) <==> n in Children(t) {
      SubAt(d, src, [n]);
      if n in Entries(d, src) {
        var q :| q in d && |q| == |src| + 1 && src <= q && q[|src|] == n;
        assert q == src + [n];
      }
      if n in Children(t) {
        var r :| r in t && |r| == 1 && r[0] == n;
        assert r == [n];
      }
      if src + [n] in d { assert (src + [n])[|src|] == n; }
    }
  }

  lemma ListedExists(g: Disk, src: Path, t: Disk, n: Name)
    requires n in Children(t) && Sub(g, src + [n]) == Sub(t, [n])
    ensures src + [n] in g
  {
    var r :| r in t && |r| == 1 && r[0] == n;
    assert r == [n] && [n] + [] == [n] && src + [n] + [] == src + [n];
    SubAt(t, [n], []);
    SubAt(g, src + [n], []);
  }

  /** Copying the next child extends the copied part by it. */
  lemma ChildCopied(m: Disk, src: Path, dst: Path, t: Disk, done: set<Name>, n: Name)
    requires TreeShaped(m) && TreeShaped(t) && [] in t && t[[]].Dir? && t == Sub(m, src)
    requires Supported(m, dst) && Apart(src, dst) && src in m && n !in done && n in Children(t)
    ensures Copied(Graft(m, dst, Part(t, done)), src + [n], dst + [n]) == (Graft(m, dst, Part(t, done + {n})), Ok(()))
  {
    var g := Graft(m, dst, Part(t, done));
    ChildReady(m, src, dst, t, done, n);
    GraftElsewhere(m, dst, Part(t, done), src);
    SubSub(g, src, n);
    ListedExists(g, src, t, n);
    PartStep(m, dst, t, done, n);
    assert Parent(dst + [n]) == dst;
  }

  /** The disk once the children in `done` have been copied. */
  function Progress(d: Disk, src: Path, dst: Path, done: set<Name>): Disk
    requires dst != []
  {
    Graft(WithDirs(d, Parent(dst)), dst, Part(Sub(d, src), done))
  }

  ghost predicate Copyable(d: Disk, src: Path, dst: Path) {
    dst != [] && TreeShaped(d) && Apart(src, dst) && dst !in d && CanMakeDirs(d, Parent(dst))
  }

  function First(names: seq<Name>, i: nat): set<Name>
    requires i <= |names|
  {
    set k | 0 <= k < i :: names[k]
  }

  ghost predicate Lists(d: Disk, src: Path, names: seq<Name>) {
    && (forall n :: n in Entries(d, src) <==> n in names)
    && (forall i, j :: 0 <= i < j < |names| ==> names[i] != names[j])
  }

  /** The new destination does not show in the listing. */
  lemma ListingStands(d: Disk, src: Path, dst: Path, names: seq<Name>)
    requires Copyable(d, src, dst) && Lists(WithDirs(d, dst), src, names)
    ensures Lists(d, src, names)
  {
    LoopStarts(d, src, dst);
    GraftElsewhere(WithDirs(d, Parent(dst)), dst, map[[] := Dir], src);
    EntriesAreChildren(d, src);
    EntriesAreChildren(WithDirs(d, dst), src);
  }

  lemma AllListed(d: Disk, src: Path, names: seq<Name>)
    requires Lists(d, src, names)
    ensures First(names, |names|) == Children(Sub(d, src))
  {
    EntriesAreChildren(d, src);
  }

  /** The loop over a directory's entries starts with nothing copied. */
  lemma LoopBegins(d: Disk, src: Path, dst: Path, names: seq<Name>)
    requires Copyable(d, src, dst) && src in d && d[src].Dir?
    ensures WithDirs(d, dst) == Progress(d, src, dst, First(names, 0))
  {
    LoopStarts(d, src, dst);
    SubShape(d, src);
    PartNone(Sub(d, src));
    assert First(names, 0) == {};
  }

  /** It ends with the whole tree copied. */
  lemma LoopEnds(d: Disk, src: Path, dst: Path, names: seq<Name>)
    requires Copyable(d, src, dst) && src in d && d[src].Dir? && Lists(d, src, names)
    ensures Copied(d, src, dst) == (Progress(d, src, dst, First(names, |names|)), Ok(()))
  {
    SubShape(d, src);
    PartWhole(Sub(d, src));
    AllListed(d, src, names);
  }

  lemma LoopStep(d: Disk, src: Path, dst: Path, done: set<Name>, n: Name)
    requires Copyable(d, src, dst) && src in d && d[src].Dir?
    requires n in Children(Sub(d, src)) && n !in done
    ensures var g := Progress(d, src, dst, done);
            && Copyable(g, src + [n], dst + [n])
            && Within(g, src + [n]) < Within(d, src)
            && Copied(g, src + [n], dst + [n]) == (Progress(d, src, dst, done + {n}), Ok(()))
  {
    var (m, t) := (WithDirs(d, Parent(dst)), Sub(d, src));
    LoopStarts(d, src, dst);
    SubShape(d, src);
    ChildReady(m, src, dst, t, done, n);
    ChildCopied(m, src, dst, t, done, n);
    assert Parent(dst + [n]) == dst;
  }

  lemma NextEntry(d: Disk, src: Path, names: seq<Name>, i: nat)
    requires Lists(d, src, names) && i < |names|
    ensures names[i] in Children(Sub(d, src)) && names[i] !in First(names, i)
    ensures First(names, i + 1) == First(names, i) + {names[i]}
  {
    EntriesAreChildren(d, src);
    assert names[i] in names;
  }

  lemma EntryStep(d: Disk, src: Path, dst: Path, names: seq<Name>, i: nat)
    requires Copyable(d, src, dst) && src in d && d[src].Dir?
    requires Lists(d, src, names) && i < |names|
    ensures var g := Progress(d, src, dst, First(names, i));
            && Copyable(g, src + [names[i]], dst + [names[i]])
            && Within(g, src + [names[i]]) < Within(d, src)
            && Copied(g, src + [names[i]], dst + [names[i]]) == (Progress(d, src, dst, First(names, i + 1)), Ok(()))
  {
    NextEntry(d, src, names, i);
    LoopStep(d, src, dst, First(names, i), names[i]);
  }

  // ---------------------------------------------------------------- dir_size

  function Weight(n: Node): nat {
    match n
    case File(bytes) => |bytes|
    case Link(target) => |target|
    case Dir => 0
  }

  ghost function Total(d: Disk, s: set<Path>): nat
    requires s <= d.Keys
  {
    if s == {} then 0 else var q :| q in s; Weight(d[q]) + Total(d, s - {q})
  }

  lemma {:induction false} TotalPick(d: Disk, s: set<Path>, q: Path)
    requires s <= d.Keys && q in s
    ensures Total(d, s) == Weight(d[q]) + Total(d, s - {q})
    decreases s
  {
    var x :| x in s && Total(d, s) == Weight(d[x]) + Total(d, s - {x});
    if x != q {
      TotalPick(d, s - {x}, q);
      TotalPick(d, s - {q}, x);
      assert s - {x} - {q} == s - {q} - {x};
    }
  }

  lemma {:induction false} TotalUnion(d: Disk, a: set<Path>, b: set<Path>)
    requires a + b <= d.Keys && a !! b
    ensures Total(d, a + b) == Total(d, a) + Total(d, b)
    decreases a
  {
    if a == {} {
      assert a + b == b;
    } else {
      var q :| q in a;
      TotalPick(d, a, q);
      TotalPick(d, a + b, q);
      assert a + b - {q} == (a - {q}) + b;
      TotalUnion(d, a - {q}, b);
    }
  }

  /** The bytes of everything strictly below p. */
  ghost function BytesBelow(d: Disk, p: Path): nat { Total(d, Within(d, p) - {p}) }

  /** The paths below p that lie under one of its first i entries. */
  ghost function Handled(d: Disk, p: Path, names: seq<Name>, i: nat): set<Path>
    requires i <= |names|
  {
    set q | q in d && p < q && q[|p|] in names[..i]
  }

  lemma ListedChild(d: Disk, p: Path, names: seq<Name>, i: nat)
    requires Lists(d, p, names) && i < |names|
    ensures p + [names[i]] in d
  {
    assert names[i] in Entries(d, p);
    var q :| q in d && |q| == |p| + 1 && p <= q && q[|p|] == names[i];
    assert q == p + [names[i]];
  }

  /** Handling one more entry adds exactly what lies within it. */
  lemma HandledStep(d: Disk, p: Path, names: seq<Name>, i: nat)
    requires i < |names| && forall j :: 0 <= j < i ==> names[j] != names[i]
    ensures Handled(d, p, names, i) !! Within(d, p + [names[i]])
    ensures Handled(d, p, names, i + 1) == Handled(d, p, names, i) + Within(d, p + [names[i]])
  {
    assert names[..i + 1] == names[..i] + [names[i]] && names[i] !in names[..i];
    forall q
      ensures q in Handled(d, p, names, i + 1) <==> q in Handled(d, p, names, i) || q in Within(d, p + [names[i]])
      ensures !(q in Handled(d, p, names, i) && q in Within(d, p + [names[i]]))
    {
    }
  }

  lemma WithinLeaf(d: Disk, c: Path)
    requires TreeShaped(d) && c in d && !d[c].Dir?
    ensures Within(d, c) == {c}
  {
    forall q | q in Within(d, c) ensures q == c { AncestorsAreDirs(d, c, q); }
  }

  lemma WithinChild(d: Disk, p: Path, n: Name)
    requires p in d
    ensures Within(d, p + [n]) < Within(d, p)
  {
    forall q | q in Within(d, p + [n]) ensures q in Within(d, p) { PrefixesCompare(p, p + [n], q); }
    assert p in Within(d, p) && p !in Within(d, p + [n]);
  }

  lemma NextHandled(d: Disk, p: Path, names: seq<Name>, i: nat)
    requires TreeShaped(d) && Lists(d, p, names) && i < |names| && p in d
    ensures var c := p + [names[i]];
            && c in d && Within(d, c) < Within(d, p)
            && Total(d, Handled(d, p, names, i + 1))
                 == Total(d, Handled(d, p, names, i)) + if d[c].Dir? then BytesBelow(d, c) else Weight(d[c])
  {
    var c := p + [names[i]];
    ListedChild(d, p, names, i);
    WithinChild(d, p, names[i]);
    HandledStep(d, p, names, i);
    TotalUnion(d, Handled(d, p, names, i), Within(d, c));
    TotalPick(d, Within(d, c), c);
    if !d[c].Dir? {
      WithinLeaf(d, c);
      assert {c} - {c} == {};
    }
  }

  lemma EverythingHandled(d: Disk, p: Path, names: seq<Name>)
    requires TreeShaped(d) && Lists(d, p, names)
    ensures Handled(d, p, names, |names|) == Within(d, p) - {p}
  {
    forall q | q in d && p < q ensures q[|p|] in names {
      var c := q[..|p| + 1];
      assert p == c[..|p|];
      AncestorsAreDirs(d, c, q);
      assert q[|p|] == c[|p|] && c in d && |c| == |p| + 1 && p <= c;
      assert c[|p|] in Entries(d, p);
    }
    assert names[..|names|] == names;
    forall q ensures q in Handled(d, p, names, |names|) <==> q in Within(d, p) - {p} {
      if p <= q && q != p { assert p < q; }
    }
  }

  /** A set of relative paths, seen from p. */
  ghost function From(p: Path, a: set<Path>): set<Path> { set r | r in a :: p + r }

  lemma FromMinus(p: Path, a: set<Path>, r: Path)
    requires r in a
    ensures p + r in From(p, a) && From(p, a) - {p + r} == From(p, a - {r})
  {
    forall s | s in a - {r} ensures p + s != p + r { Tail(p, s); Tail(p, r); }
  }

  lemma {:induction false} TotalMoved(d: Disk, p: Path, e: Disk, q: Path, a: set<Path>)
    requires forall r :: r in a ==> p + r in d && q + r in e && d[p + r] == e[q + r]
    ensures From(p, a) <= d.Keys && From(q, a) <= e.Keys
    ensures Total(d, From(p, a)) == Total(e, From(q, a))
    decreases a
  {
    if a != {} {
      var r :| r in a;
      TotalMoved(d, p, e, q, a - {r});
      FromMinus(p, a, r);
      FromMinus(q, a, r);
      TotalPick(d, From(p, a), p + r);
      TotalPick(e, From(q, a), q + r);
    }
  }

  lemma WithinIsSub(d: Disk, p: Path)
    ensures Within(d, p) - {p} == From(p, Sub(d, p).Keys - {[]})
  {
    var rhs := From(p, Sub(d, p).Keys - {[]});
    assert p + [] == p;
    forall q ensures q in Within(d, p) - {p} <==> q in rhs {
      if q in Within(d, p) - {p} {
        Rejoin(p, q);
        SubAt(d, p, q[|p|..]);
      }
      if q in rhs {
        var r :| r in Sub(d, p).Keys - {[]} && q == p + r;
        SubAt(d, p, r);
        Tail(p, r);
      }
    }
  }

  /** Equal trees have equal sizes, wherever they are. */
  lemma SameTreeSameBytes(d: Disk, p: Path, e: Disk, q: Path)
    requires Sub(d, p) == Sub(e, q)
    ensures BytesBelow(d, p) == BytesBelow(e, q)
  {
    var a := Sub(d, p).Keys - {[]};
    WithinIsSub(d, p);
    WithinIsSub(e, q);
    forall r | r in a ensures p + r in d && q + r in e && d[p + r] == e[q + r] {
      SubAt(d, p, r);
      SubAt(e, q, r);
    }
    TotalMoved(d, p, e, q, a);
  }

  /** A node added anywhere below a directory adds its own size: a file's bytes, a link's target. */
  lemma AddedCounts(d: Disk, p: Path, q: Path, n: Node)
    requires p < q && q !in d
    ensures BytesBelow(d[q := n], p) ==
            BytesBelow(d, p) + if n.File? then |n.bytes| else if n.Link? then |n.target| else 0
  {
    var (e, a) := (d[q := n], Within(d, p) - {p});
    assert Within(e, p) - {p} == a + {q} && a + {q} - {q} == a;
    TotalPick(e, a + {q}, q);
    var root: Path := [];
    forall r: Path ensures root + r == r {}
    assert From(root, a) == a;
    TotalMoved(d, root, e, root, a);
  }

  /** A copy fails exactly if there is nothing to copy, or the link to be made has no directory to go into. */
  lemma CopyFails(d: Disk, src: Path, dst: Path)
    requires Copyable(d, src, dst)
    ensures var (g, r) := Copied(d, src, dst);
            && (r.Err? <==> src !in d || (d[src].Link? && Parent(dst) !in d))
            && (r.Err? ==> r == Err(NOENT) && g == d)
  {
  }

  /** A copy has the size of its source. */
  lemma CopySize(d: Disk, src: Path, dst: Path)
    requires Copyable(d, src, dst) && Copied(d, src, dst).1.Ok?
    ensures var g := Copied(d, src, dst).0;
            && Sub(g, dst) == Sub(d, src) && Sub(g, src) == Sub(d, src)
            && BytesBelow(g, dst) == BytesBelow(d, src)
  {
    SubShape(d, src);
    PlantedShape(d, dst, Sub(d, src));
    PlantedElsewhere(d, dst, Sub(d, src), src);
    SameTreeSameBytes(Copied(d, src, dst).0, dst, d, src);
  }

  class Storage {
    var nodes: Disk

    method CreateDirAll(p: Path)
      requires CanMakeDirs(nodes, p)
      modifies this
      ensures nodes == WithDirs(old(nodes), p)
    {
      nodes := WithDirs(nodes, p);
    }

    /** remove_dir_all of a directory, or of nothing. */
    method RemoveDirAll(p: Path)
      modifies this
      ensures nodes == Graft(old(nodes), p, map[])
    {
      nodes := map q | q in nodes && !(p <= q) :: nodes[q];
      forall q ensures (q in nodes <==> q in Graft(old(nodes), p, map[]))
                       && (q in nodes ==> nodes[q] == Graft(old(nodes), p, map[])[q])
      {
        GraftAt(old(nodes), p, map[], q);
      }
    }

    /** copy_tree into an absent destination: the copy is the source's tree, links and empty
        directories included, and nothing else changes but the destination's new parents. */
    method CopyTree(src: Path, dst: Path) returns (r: Result<()>)
      requires Copyable(nodes, src, dst)
      modifies this
      ensures (nodes, r) == Copied(old(nodes), src, dst)
      decreases Within(nodes, src), 2
    {
      if src !in nodes { return Err(NOENT); }
      if nodes[src].Dir? {
        r := CopyEntries(src, dst);
      } else {
        r := CopyLeaf(src, dst);
      }
    }

    /** read_dir: the entries of a directory, each once, in some order. */
    method ReadDir(src: Path) returns (names: seq<Name>)
      ensures Lists(nodes, src, names)
    {
      var left := Entries(nodes, src);
      names := [];
      while left != {}
        invariant forall n :: n in Entries(nodes, src) <==> n in left || n in names
        invariant forall n :: n in left ==> n !in names
        invariant forall i, j :: 0 <= i < j < |names| ==> names[i] != names[j]
        decreases left
      {
        var n :| n in left;
        names, left := names + [n], left - {n};
      }
    }

    /** One turn of the loop over a directory's entries. */
    method CopyEntry(src: Path, dst: Path, names: seq<Name>, i: nat, ghost d: Disk) returns (r: Result<()>)
      requires Copyable(d, src, dst) && src in d && d[src].Dir?
      requires Lists(d, src, names) && i < |names|
      requires nodes == Progress(d, src, dst, First(names, i))
      modifies this
      ensures nodes == Progress(d, src, dst, First(names, i + 1)) && r == Ok(())
      decreases Within(d, src), 0
    {
      EntryStep(d, src, dst, names, i);
      r := CopyTree(src + [names[i]], dst + [names[i]]);
    }

    /** The directory branch of copy_tree. */
    method CopyEntries(src: Path, dst: Path) returns (r: Result<()>)
      requires Copyable(nodes, src, dst)
      requires src in nodes && nodes[src].Dir?
      modifies this
      ensures (nodes, r) == Copied(old(nodes), src, dst)
      decreases Within(nodes, src), 1
    {
      ghost var d := nodes;
      LoopStarts(d, src, dst);
      CreateDirAll(dst);
      var names := ReadDir(src);
      ListingStands(d, src, dst, names);
      LoopBegins(d, src, dst, names);
      LoopEnds(d, src, dst, names);
      r := Ok(());
      for i := 0 to |names|
        invariant nodes == Progress(d, src, dst, First(names, i)) && r == Ok(())
      {
        r := CopyEntry(src, dst, names, i, d);
        if r.Err? { return; }
      }
    }

    /** The symlink and file branches. */
    method CopyLeaf(src: Path, dst: Path) returns (r: Result<()>)
      requires Copyable(nodes, src, dst)
      requires src in nodes && !nodes[src].Dir?
      modifies this
      ensures (nodes, r) == Copied(old(nodes), src, dst)
    {
      LeafTree(nodes, src);
      if nodes[src].Link? {
        if Parent(dst) !in nodes { return Err(NOENT); }
        WithDirsThere(nodes, Parent(dst));
      } else {
        WithDirsShape(nodes, Parent(dst));
        WithDirsAt(nodes, Parent(dst), dst);
        WithDirsAt(nodes, Parent(dst), src);
        CreateDirAll(Parent(dst));
      }
      PutLeaf(nodes, dst, nodes[src]);
      nodes := nodes[dst := nodes[src]];
      r := Ok(());
    }

    /** dir_size: the bytes of every file and link below a directory. */
    method DirSize(p: Path) returns (total: nat)
      requires TreeShaped(nodes)
      ensures total == if p in nodes && nodes[p].Dir? then BytesBelow(nodes, p) else 0
      decreases Within(nodes, p)
    {
      total := 0;
      if p !in nodes || !nodes[p].Dir? { return; }
      var names := ReadDir(p);
      assert Handled(nodes, p, names, 0) == {};
      for i := 0 to |names|
        invariant total == Total(nodes, Handled(nodes, p, names, i))
      {
        var c := p + [names[i]];
        NextHandled(nodes, p, names, i);
        if nodes[c].Dir? {
          var inner := DirSize(c);
          total := total + inner;
        } else {
          total := total + Weight(nodes[c]);
        }
      }
      EverythingHandled(nodes, p, names);
    }
  }
}
