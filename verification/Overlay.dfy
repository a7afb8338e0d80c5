/** The copy-on-write filesystem: a constant host layer, an upper layer that receives every change,
    and the whiteout set.

    `View` is the single-layer file map the guest sees. Each system call is a function on the three
    layers; the theorems say when it acts on `View` as the corresponding call on one plain map. */
module Overlay {
  import opened FileData
  import opened Results
  import opened Paths
  import opened Whiteouts

  datatype Node = File(bytes: seq<Byte>) | Dir | Link(target: string, leads: Leads)

  type Layer = map<Path, Node>

  datatype Fs = Fs(host: Layer, upper: Layer, tombs: set<Path>)

  datatype OpenFlags = OpenFlags(write: bool, creat: bool, excl: bool, trunc: bool)

  // ---------------------------------------------------------------- lookups

  predicate Exists(f: Fs, p: Path) { p in f.upper || p in f.host }

  function NodeAt(f: Fs, p: Path): Node
    requires Exists(f, p)
  {
    if p in f.upper then f.upper[p] else f.host[p]
  }

  /** is_dir follows links. */
  predicate IsDir(n: Node) { n.Dir? || (n.Link? && n.leads.ToDir?) }

  /** A tombstone at p or at one of its ancestors. */
  predicate HiddenBy(tombs: set<Path>, p: Path) { p in tombs || AncestorIn(tombs, p) }

  predicate Hidden(f: Fs, p: Path) { HiddenBy(f.tombs, p) }

  predicate Visible(f: Fs, p: Path) { !Hidden(f, p) && Exists(f, p) }

  /** The file map the guest sees. */
  function View(f: Fs): Layer {
    map p | p in f.upper.Keys + f.host.Keys && Visible(f, p) :: NodeAt(f, p)
  }

  predicate IsFile(n: Node) { n.File? || (n.Link? && n.leads.ToFile?) }

  /** The first component on the way to p that is no directory is a file. */
  predicate ThroughFile(l: Layer, p: Path) {
    exists k :: 0 <= k < |p| && p[..k] in l && IsFile(l[p[..k]])
                && forall j :: 0 <= j < k ==> p[..j] in l && IsDir(l[p[..j]])
  }

  /** What the kernel says of a path that is not there. */
  function Missing(l: Layer, p: Path): Errno { if ThroughFile(l, p) then NOTDIR else NOENT }

  // ---------------------------------------------------------------- building blocks

  /** Every proper ancestor the upper layer holds is a directory, so create_dir_all succeeds. */
  predicate CanMakeParents(upper: Layer, p: Path) {
    forall k :: 0 <= k < |p| ==> p[..k] in upper ==> upper[p[..k]].Dir?
  }

  function WithParents(upper: Layer, p: Path): Layer {
    upper + (map a | a in Ancestors(p) && a !in upper :: Dir)
  }

  /** p gains a node in the upper layer, with its parents, and loses its own tombstone. */
  function Placed(f: Fs, p: Path, n: Node): Fs {
    f.(upper := WithParents(f.upper, p)[p := n], tombs := f.tombs - {p})
  }

  /** The plain file a copy makes of a host node; a link is followed, a directory cannot be read. */
  function Copied(n: Node): Result<Node> {
    match n
    case File(b) => Ok(File(b))
    case Link(_, ToFile(b)) => Ok(File(b))
    case Link(_, Nowhere) => Err(NOENT)
    case _ => Err(ISDIR)
  }

  /** What open reaches at a node, links followed. */
  function Through(n: Node): Option<Node> {
    match n
    case Link(_, ToFile(b)) => Some(File(b))
    case Link(_, ToDir) => Some(Dir)
    case Link(_, Nowhere) => None
    case _ => Some(n)
  }

  /** The node once the file it is, or leads to, is empty. */
  function Emptied(n: Node): Node { if n.Link? then Link(n.target, ToFile([])) else File([]) }

  /** The kernel's open of a node that is there: what becomes of the node, and what is opened. */
  function OpenNode(n: Node, flags: OpenFlags): (Node, Result<Node>) {
    if flags.creat && flags.excl then (n, Err(EXIST))
    else
      match Through(n)
      case None => if flags.creat then (Emptied(n), Ok(File([]))) else (n, Err(NOENT))
      case Some(Dir) => (n, if Mutates(flags) then Err(ISDIR) else Ok(Dir))
      case Some(reached) => if flags.trunc then (Emptied(n), Ok(File([]))) else (n, Ok(reached))
  }

  predicate Mutates(flags: OpenFlags) { flags.write || flags.creat || flags.trunc }

  // ---------------------------------------------------------------- the calls

  /** Opening a path the upper layer already holds. */
  function OpenUpper(f: Fs, p: Path, flags: OpenFlags): (Fs, Result<Node>)
    requires p in f.upper
  {
    var (n, r) := OpenNode(f.upper[p], flags);
    (f.(upper := f.upper[p := n]), r)
  }

  function CowOpen(f: Fs, p: Path, flags: OpenFlags): (Fs, Result<Node>) {
    if p in f.upper then OpenUpper(f, p, flags)
    else if Mutates(flags) then
      if !CanMakeParents(f.upper, p) then (f, Err(IO))
      else
        var g := f.(upper := WithParents(f.upper, p));
        if p in f.host then
          match Copied(f.host[p])
          case Ok(n) => OpenUpper(g.(upper := g.upper[p := n]), p, flags)
          // the copy creates its target before it finds the source unreadable
          case Err(ISDIR) => (g.(upper := g.upper[p := File([])]), Err(ISDIR))
          case Err(e) => (g, Err(e))
        else if !flags.creat then (g, Err(NOENT))
        else (g.(upper := g.upper[p := File([])]), Ok(File([])))
    else if p in f.host then (f, OpenNode(f.host[p], flags).1)
    else (f, Err(Missing(f.host, p)))
  }

  function Openat(f: Fs, p: Path, flags: OpenFlags): (Fs, Result<Node>) {
    if AncestorIn(f.tombs, p) then (f, Err(NOENT))
    else if p in f.tombs then
      if flags.creat then CowOpen(f.(tombs := f.tombs - {p}), p, flags) else (f, Err(NOENT))
    else CowOpen(f, p, flags)
  }

  /** What stat says of a node: the node, or what it leads to. */
  function Looked(n: Node, nofollow: bool): Result<Node> {
    if nofollow then Ok(n)
    else
      match Through(n)
      case Some(reached) => Ok(reached)
      case None => Err(NOENT)
  }

  /** fstatat and statx: the upper layer's copy if there is one, else the host's path. */
  function Stat(f: Fs, p: Path, nofollow: bool): Result<Node> {
    if Hidden(f, p) then Err(NOENT)
    else if p in f.upper then Looked(f.upper[p], nofollow)
    else if p in f.host then Looked(f.host[p], nofollow)
    else Err(Missing(f.host, p))
  }

  /** faccessat: existence is looked up in both layers, permissions on the host's path alone. Permissions
      are not modelled, so a path that can be reached is accessible. */
  function Access(f: Fs, p: Path, existence: bool): Result<()> {
    if Hidden(f, p) || !Exists(f, p) then Err(NOENT) else if existence then Ok(()) else Reachable(f.host, p)
  }

  function Reachable(l: Layer, p: Path): Result<()> {
    if p !in l then Err(Missing(l, p)) else if Through(l[p]).None? then Err(NOENT) else Ok(())
  }

  /** mkdirat and symlinkat: make `n` at p. */
  function Make(f: Fs, p: Path, n: Node): (Fs, Result<()>) {
    if p !in f.tombs && Exists(f, p) then (f, Err(EXIST))
    else
      var g := f.(tombs := f.tombs - {p});
      if !CanMakeParents(f.upper, p) then (g, Err(IO))
      else if p in f.upper then (g.(upper := WithParents(f.upper, p)), Err(EXIST))
      else (Placed(f, p, n), Ok(()))
  }

  /** Physical removal, best effort: rmdir needs an empty upper directory, unlink a non-directory. */
  function Removed(upper: Layer, p: Path, dir: bool): Layer {
    if p == [] || p !in upper then upper
    else if dir then
      if upper[p].Dir? && (forall q :: q in upper ==> !Below(p, q)) then upper - {p} else upper
    else if upper[p].Dir? then upper else upper - {p}
  }

  function Unlinkat(f: Fs, p: Path, removeDir: bool): (Fs, Result<()>) {
    if Hidden(f, p) || !Exists(f, p) then (f, Err(NOENT))
    else if removeDir && !IsDir(NodeAt(f, p)) then (f, Err(NOTDIR))
    else if !removeDir && IsDir(NodeAt(f, p)) then (f, Err(ISDIR))
    else
      var kept := if removeDir then WithoutBelow(f.tombs, p) else f.tombs;
      (f.(tombs := kept + {p}, upper := Removed(f.upper, p, removeDir)), Ok(()))
  }

  /** Bring the source of a rename into the upper layer. */
  function CopyUp(f: Fs, src: Path): (Fs, Result<()>)
    requires Exists(f, src)
  {
    if src in f.upper then (f, Ok(()))
    else if !CanMakeParents(f.upper, src) then (f, Err(IO))
    else
      var g := f.(upper := WithParents(f.upper, src));
      match Copied(f.host[src])
      case Ok(n) => (g.(upper := g.upper[src := n]), Ok(()))
      case Err(_) => (g, Err(IO))
  }

  /** rename(2) inside the upper layer, parents of the target first, then the tombstones. */
  function MoveUpper(f: Fs, src: Path, dst: Path): (Fs, Result<()>)
    requires src in f.upper
  {
    if !CanMakeParents(f.upper, dst) then (f, Err(IO))
    else
      var upper := WithParents(f.upper, dst);
      if dst in upper && upper[dst].Dir? then (f.(upper := upper), Err(ISDIR))
      else
        var moved := if src == dst then upper else upper[dst := upper[src]] - {src};
        (f.(upper := moved, tombs := f.tombs + {src} - {dst}), Ok(()))
  }

  function Renameat(f: Fs, src: Path, dst: Path, noReplace: bool): (Fs, Result<()>) {
    if !Visible(f, src) then (f, Err(NOENT))
    else if IsDir(NodeAt(f, src)) then (f, Err(XDEV))
    else if Visible(f, dst) && noReplace then (f, Err(EXIST))
    else if Visible(f, dst) && IsDir(NodeAt(f, dst)) then (f, Err(XDEV))
    else
      match CopyUp(f, src)
      case (g, Err(e)) => (g, Err(e))
      case (g, Ok(_)) => MoveUpper(g, src, dst)
  }

  /** A write through a descriptor on the upper layer's copy. */
  function WriteUpper(f: Fs, p: Path, bytes: seq<Byte>): Fs {
    if p in f.upper && f.upper[p].File? then f.(upper := f.upper[p := File(bytes)]) else f
  }

  // ---------------------------------------------------------------- well-formed layers

  ghost predicate Tree(l: Layer) {
    forall p :: p in l && p != [] ==> Parent(p) in l && l[Parent(p)].Dir?
  }

  ghost predicate Good(f: Fs) { Tree(f.host) && Tree(f.upper) }

  /** In a tree every proper ancestor of a member is a directory. */
  lemma {:induction false} TreeAncestors(l: Layer, p: Path, k: nat)
    requires Tree(l) && p in l && k < |p|
    ensures p[..k] in l && l[p[..k]].Dir?
    decreases |p|
  {
    var q := Parent(p);
    if k < |q| {
      TreeAncestors(l, q, k);
      assert q[..k] == p[..k];
    } else {
      assert p[..k] == q;
    }
  }

  lemma WithParentsTree(upper: Layer, p: Path)
    requires Tree(upper) && CanMakeParents(upper, p)
    ensures Tree(WithParents(upper, p))
    ensures p != [] ==> Parent(p) in WithParents(upper, p) && WithParents(upper, p)[Parent(p)].Dir?
  {
    var l := WithParents(upper, p);
    forall k | 0 <= k < |p| ensures p[..k] in l && l[p[..k]].Dir? {
      assert p[..k] in Ancestors(p);
    }
    forall q | q in l && q != [] ensures Parent(q) in l && l[Parent(q)].Dir? {
      if q !in upper {
        var k :| 0 <= k < |p| && q == p[..k];
        assert Parent(q) == p[..k - 1];
      }
    }
  }

  lemma PlacedTree(upper: Layer, p: Path, n: Node)
    requires Tree(upper) && CanMakeParents(upper, p)
    requires p in upper ==> !upper[p].Dir? || n.Dir?
    ensures Tree(WithParents(upper, p)[p := n])
  {
    WithParentsTree(upper, p);
    var l := WithParents(upper, p);
    var m := l[p := n];
    forall q | q in m && q != [] ensures Parent(q) in m && m[Parent(q)].Dir? {
    }
  }

  lemma RemovedTree(l: Layer, p: Path)
    requires Tree(l) && p in l && (forall q :: q in l ==> !Below(p, q))
    ensures Tree(l - {p})
  {
    forall q | q in l - {p} && q != [] ensures Parent(q) in l - {p} && (l - {p})[Parent(q)].Dir? {
    }
  }

  lemma LeafHasNothingBelow(l: Layer, p: Path)
    requires Tree(l) && p in l && !l[p].Dir?
    ensures forall q :: q in l ==> !Below(p, q)
  {
    forall q | q in l ensures !Below(p, q) {
      if Below(p, q) {
        assert q[..|p|] == p;
        TreeAncestors(l, q, |p|);
      }
    }
  }

  // ---------------------------------------------------------------- tombstones and the view

  lemma HiddenByPrefix(tombs: set<Path>, p: Path)
    ensures HiddenBy(tombs, p) <==> exists t :: t in tombs && t <= p
  {
    if HiddenBy(tombs, p) {
      if p !in tombs {
        var k :| 0 <= k < |p| && p[..k] in tombs;
        assert p[..k] <= p;
      }
    }
    if t :| t in tombs && t <= p {
      assert p[..|t|] == t;
      if |t| == |p| { assert t == p; }
    }
  }

  /** Removing p's tombstone matters only at p and below. */
  lemma UnhideOnlyBelow(tombs: set<Path>, p: Path, q: Path)
    ensures HiddenBy(tombs - {p}, q) ==> HiddenBy(tombs, q)
    ensures HiddenBy(tombs, q) && !HiddenBy(tombs - {p}, q) ==> p in tombs && p <= q
  {
    HiddenByPrefix(tombs, q);
    HiddenByPrefix(tombs - {p}, q);
  }

  /** Adding p's tombstone hides exactly p and everything below. */
  lemma HideBelow(tombs: set<Path>, p: Path, q: Path)
    ensures HiddenBy(tombs + {p}, q) <==> HiddenBy(tombs, q) || p <= q
    ensures HiddenBy(WithoutBelow(tombs, p) + {p}, q) <==> HiddenBy(tombs, q) || p <= q
  {
    HiddenByPrefix(tombs, q);
    HiddenByPrefix(tombs + {p}, q);
    HiddenByPrefix(WithoutBelow(tombs, p) + {p}, q);
    if t :| t in tombs && t <= q && Below(p, t) {
      assert p <= q;
    }
  }

  // ---------------------------------------------------------------- stat, faccessat

  /** A visible path's stat is that of the node in view, a link's that of what it leads to; any other
      path's is the error. */
  lemma StatIsView(f: Fs, p: Path, nofollow: bool)
    ensures Stat(f, p, nofollow) ==
            if p !in View(f) then Err(if Hidden(f, p) then NOENT else Missing(f.host, p))
            else if nofollow || !View(f)[p].Link? then Ok(View(f)[p])
            else match View(f)[p].leads case ToFile(b) => Ok(File(b)) case ToDir => Ok(Dir) case Nowhere => Err(NOENT)
  {
  }

  /** Existence is being in view. Any other mode needs the host to have the path too, leading somewhere: a
      file made in the sandbox is not accessible. */
  lemma AccessIsView(f: Fs, p: Path)
    ensures Access(f, p, true) == if p in View(f) then Ok(()) else Err(NOENT)
    ensures Access(f, p, false).Ok? <==>
            p in View(f) && p in f.host && !(f.host[p].Link? && f.host[p].leads.Nowhere?)
    ensures p in View(f) && p !in f.host ==> Access(f, p, false) == Err(Missing(f.host, p))
    ensures p !in View(f) || (p in f.host && Access(f, p, false).Err?) ==> Access(f, p, false) == Err(NOENT)
  {
  }

  /** In a tree a missing path is ENOTDIR exactly below a file, or below a link to one. */
  lemma MissingExact(l: Layer, p: Path)
    requires Tree(l)
    ensures Missing(l, p) == NOTDIR <==>
            exists k :: 0 <= k < |p| && p[..k] in l && (l[p[..k]].File? || (l[p[..k]].Link? && l[p[..k]].leads.ToFile?))
    ensures Missing(l, p) == NOTDIR || Missing(l, p) == NOENT
  {
    if k :| 0 <= k < |p| && p[..k] in l && IsFile(l[p[..k]]) {
      forall j | 0 <= j < k ensures p[..j] in l && IsDir(l[p[..j]]) {
        TreeAncestors(l, p[..k], j);
        assert p[..k][..j] == p[..j];
      }
    }
  }

  // ---------------------------------------------------------------- what an open does to a node

  /** The bytes behind a file or a link to one. */
  function BytesOf(n: Node): Option<seq<Byte>> {
    if n.File? then Some(n.bytes) else if n.Link? && n.leads.ToFile? then Some(n.leads.bytes) else None
  }

  /** open(2) on a node: an exclusive creation fails; a directory opens for reading only; a dangling link is
      made to lead to an empty file if it may be; a file gives its bytes, or none once truncated, and keeps
      what it gives. The node stays a file, a directory, or a link with its target. */
  lemma OpenNodeExact(n: Node, flags: OpenFlags)
    ensures var ((m, r), makes) := (OpenNode(n, flags), flags.creat && flags.excl);
            && (r == Err(EXIST) <==> makes)
            && (r.Err? ==> m == n)
            && (!makes && (n.Dir? || (n.Link? && n.leads.ToDir?)) ==>
                  m == n && r == if flags.write || flags.creat || flags.trunc then Err(ISDIR) else Ok(Dir))
            && (!makes && n.Link? && n.leads.Nowhere? ==> (r == if flags.creat then Ok(File([])) else Err(NOENT))
                                                          && (flags.creat ==> m == Link(n.target, ToFile([]))))
            && (!makes && BytesOf(n).Some? ==>
                  r == Ok(File(if flags.trunc then [] else BytesOf(n).value)) && BytesOf(m) == Some(r.value.bytes))
            && (m.Link? <==> n.Link?) && (m.Dir? <==> n.Dir?) && (n.Link? ==> m.target == n.target)
  {
  }

  /** The single-layer map without p and everything below it. */
  function Minus(v: Layer, p: Path): Layer { map q | q in v && !(p <= q) :: v[q] }

  ghost predicate ParentsVisible(f: Fs, p: Path) {
    forall a :: a in Ancestors(p) ==> Visible(f, a) && NodeAt(f, a) == Dir
  }

  /** Clearing p's tombstone brings nothing below p back into sight. */
  ghost predicate NothingResurfaces(f: Fs, p: Path) {
    p in f.tombs ==> forall q :: Below(p, q) && Exists(f, q) ==> HiddenBy(f.tombs - {p}, q)
  }

  /** What placing a node does at each path. */
  lemma PlacedAt(f: Fs, p: Path, n: Node, q: Path)
    requires CanMakeParents(f.upper, p)
    ensures var g := Placed(f, p, n);
            && (q == p ==> Exists(g, q) && NodeAt(g, q) == n && (Hidden(g, q) <==> AncestorIn(f.tombs, p)))
            && (q in Ancestors(p) ==>
                  Hidden(g, q) == Hidden(f, q) && Exists(g, q) && NodeAt(g, q) == Dir)
            && (q != p && q !in Ancestors(p) ==>
                  Exists(g, q) == Exists(f, q) && (Exists(f, q) ==> NodeAt(g, q) == NodeAt(f, q)))
            && (!(p <= q) ==> Hidden(g, q) == Hidden(f, q))
  {
    UnhideOnlyBelow(f.tombs, p, q);
    if q == p {
      forall k | 0 <= k < |p| ensures p[..k] in f.tombs - {p} <==> p[..k] in f.tombs {
        assert p[..k] != p;
      }
    }
    if q in Ancestors(p) {
      var k :| 0 <= k < |p| && q == p[..k];
      assert !(p <= q);
    }
  }

  /** Placing a node is a plain map update exactly when every ancestor was a visible directory
      and clearing the tombstone resurfaces nothing. */
  lemma PlacedRefines(f: Fs, p: Path, n: Node)
    requires CanMakeParents(f.upper, p)
    ensures View(Placed(f, p, n)) == View(f)[p := n] <==> ParentsVisible(f, p) && NothingResurfaces(f, p)
  {
    var g := Placed(f, p, n);
    if ParentsVisible(f, p) && NothingResurfaces(f, p) {
      forall q ensures (q in View(g) <==> q in View(f)[p := n]) && (q in View(g) ==> View(g)[q] == View(f)[p := n][q]) {
        PlacedAt(f, p, n, q);
        UnhideOnlyBelow(f.tombs, p, q);
        if q == p { NoAncestorHidden(f, p); }
      }
    }
    if View(g) == View(f)[p := n] {
      PlacedAt(f, p, n, p);
      assert p in View(g);
      forall q | Below(p, q) && q in View(g) ensures q in View(f) { assert q != p; }
      ParentsNeeded(f, p, n);
      NothingElseNeeded(f, p, n);
    }
  }

  lemma ParentsNeeded(f: Fs, p: Path, n: Node)
    requires CanMakeParents(f.upper, p)
    requires p in View(Placed(f, p, n))
    requires forall a :: a in Ancestors(p) && a in View(Placed(f, p, n)) ==>
               a in View(f) && View(f)[a] == View(Placed(f, p, n))[a]
    ensures ParentsVisible(f, p)
  {
    var g := Placed(f, p, n);
    forall a | a in Ancestors(p) ensures Visible(f, a) && NodeAt(f, a) == Dir {
      PlacedAt(f, p, n, a);
      var k :| 0 <= k < |p| && a == p[..k];
      PrefixOfUnhidden(g.tombs, p, k);
      assert a in View(g);
    }
  }

  lemma NothingElseNeeded(f: Fs, p: Path, n: Node)
    requires CanMakeParents(f.upper, p)
    requires forall q :: Below(p, q) && q in View(Placed(f, p, n)) ==> q in View(f)
    ensures NothingResurfaces(f, p)
  {
    var g := Placed(f, p, n);
    forall q | p in f.tombs && Below(p, q) && Exists(f, q) ensures HiddenBy(f.tombs - {p}, q) {
      PlacedAt(f, p, n, q);
      HideBelow(f.tombs, p, q);
      assert f.tombs + {p} == f.tombs;
      assert q !in View(f) && q !in View(g);
    }
  }

  lemma NoAncestorHidden(f: Fs, p: Path)
    requires ParentsVisible(f, p)
    ensures !AncestorIn(f.tombs, p)
  {
    if AncestorIn(f.tombs, p) {
      var k :| 0 <= k < |p| && p[..k] in f.tombs;
      assert p[..k] in Ancestors(p);
      assert Hidden(f, p[..k]);
    }
  }

  lemma PrefixOfUnhidden(tombs: set<Path>, p: Path, k: nat)
    requires k <= |p| && !HiddenBy(tombs, p)
    ensures !HiddenBy(tombs, p[..k])
  {
    HiddenByPrefix(tombs, p);
    HiddenByPrefix(tombs, p[..k]);
    forall t | t in tombs && t <= p[..k] ensures t <= p {}
  }

  // ---------------------------------------------------------------- mkdirat, symlinkat

  /** A successful mkdirat or symlinkat is the plain update exactly under those two conditions. */
  lemma MakeRefines(f: Fs, p: Path, n: Node)
    requires Make(f, p, n).1.Ok?
    ensures View(Make(f, p, n).0) == View(f)[p := n] <==> ParentsVisible(f, p) && NothingResurfaces(f, p)
  {
    PlacedRefines(f, p, n);
  }

  /** A failing one changes the view exactly when it had already cleared a tombstone and something came back. */
  lemma FailedMakeExact(f: Fs, p: Path, n: Node)
    requires Good(f) && Make(f, p, n).1.Err?
    ensures View(Make(f, p, n).0) == View(f) <==>
            (p in f.tombs ==> forall q :: p <= q && Exists(f, q) ==> HiddenBy(f.tombs - {p}, q))
  {
    var g := Make(f, p, n).0;
    if p !in f.tombs {
      assert f.tombs - {p} == f.tombs;
      assert g.upper == f.upper by { if p in f.upper { ParentsThere(f.upper, p); } }
      assert g == f || p in f.upper;
    } else {
      if p in f.upper { ParentsThere(f.upper, p); }
      assert g.upper == f.upper && g.tombs == f.tombs - {p};
      forall q ensures q in View(f) ==> q in View(g) && View(g)[q] == View(f)[q] {
        UnhideOnlyBelow(f.tombs, p, q);
      }
      forall q | p <= q ensures Hidden(f, q) {
        HideBelow(f.tombs, p, q);
        assert f.tombs + {p} == f.tombs;
      }
      if View(g) == View(f) {
        forall q | p <= q && Exists(f, q) ensures HiddenBy(f.tombs - {p}, q) {
          assert q !in View(f);
        }
      } else {
        var q :| q in View(g) && q !in View(f);
        UnhideOnlyBelow(f.tombs, p, q);
      }
    }
  }

  /** The upper layer already holds the parents of each of its members. */
  lemma ParentsThere(upper: Layer, p: Path)
    requires Tree(upper) && p in upper
    ensures CanMakeParents(upper, p) && WithParents(upper, p) == upper
  {
    forall k | 0 <= k < |p| ensures p[..k] in upper && upper[p[..k]].Dir? {
      TreeAncestors(upper, p, k);
    }
  }

  // ---------------------------------------------------------------- unlinkat

  /** A successful unlink or rmdir removes exactly p and everything below it; a failing one nothing. */
  lemma UnlinkRefines(f: Fs, p: Path, removeDir: bool)
    requires Good(f)
    ensures var (g, r) := Unlinkat(f, p, removeDir);
            View(g) == if r.Ok? then Minus(View(f), p) else View(f)
  {
    var (g, r) := Unlinkat(f, p, removeDir);
    if r.Ok? {
      forall q ensures (q in View(g) <==> q in Minus(View(f), p)) && (q in View(g) ==> View(g)[q] == View(f)[q]) {
        HideBelow(f.tombs, p, q);
      }
    }
  }

  // ---------------------------------------------------------------- renameat

  /** Moving one key of a single-layer map. */
  function Move(v: Layer, src: Path, dst: Path): Layer
    requires src in v
  {
    if src == dst then v else (v - {src})[dst := v[src]]
  }

  /** The copy-up keeps the node: the upper layer has it already, or the host has a plain file. */
  predicate KeepsNode(f: Fs, src: Path)
    requires Exists(f, src)
  {
    src in f.upper || f.host[src].File?
  }

  lemma CopyUpAt(f: Fs, src: Path)
    requires Good(f) && Exists(f, src) && !IsDir(NodeAt(f, src))
    ensures var (g, r) := CopyUp(f, src);
            && Good(g) && g.host == f.host && g.tombs == f.tombs
            && (forall q :: Exists(g, q) == Exists(f, q))
            && (forall q :: Exists(f, q) && q != src ==> NodeAt(g, q) == NodeAt(f, q))
            && (NodeAt(g, src) == NodeAt(f, src) <==> KeepsNode(f, src) || src !in g.upper)
            && (r.Ok? ==> src in g.upper && !IsDir(g.upper[src]))
            && (f.upper.Keys <= g.upper.Keys)
  {
    var (g, r) := CopyUp(f, src);
    if src !in f.upper && CanMakeParents(f.upper, src) {
      forall a | a in Ancestors(src) ensures a in f.host && f.host[a] == Dir {
        var k :| 0 <= k < |src| && a == src[..k];
        TreeAncestors(f.host, src, k);
      }
      WithParentsTree(f.upper, src);
      PlacedTree(f.upper, src, File([]));
      if r.Ok? { PlacedTree(f.upper, src, g.upper[src]); }
    }
  }

  /** Two states with the same tombstones and the same nodes show the same view. */
  lemma SameView(f: Fs, g: Fs)
    requires g.tombs == f.tombs && g.host == f.host
    requires forall q :: Exists(g, q) == Exists(f, q)
    requires forall q :: Exists(f, q) ==> NodeAt(g, q) == NodeAt(f, q)
    ensures View(g) == View(f)
  {
    forall q ensures (q in View(g) <==> q in View(f)) && (q in View(g) ==> View(g)[q] == View(f)[q]) {
      assert Exists(g, q) == Exists(f, q);
    }
  }

  lemma CopyUpView(f: Fs, src: Path)
    requires Good(f) && Visible(f, src) && !IsDir(NodeAt(f, src))
    ensures View(CopyUp(f, src).0) == View(f) <==> KeepsNode(f, src) || src !in CopyUp(f, src).0.upper
  {
    CopyUpAt(f, src);
    var g := CopyUp(f, src).0;
    if NodeAt(g, src) == NodeAt(f, src) {
      SameView(f, g);
    } else {
      assert Exists(g, src);
      assert View(g)[src] != View(f)[src];
    }
  }

  lemma PrefixIsTake(a: Path, b: Path)
    ensures a < b ==> exists k :: 0 <= k < |b| && b[..k] == a
  {
    if a < b { assert b[..|a|] == a; }
  }

  /** In a successful move to another name, neither path is below the other. */
  lemma MoveApart(f: Fs, src: Path, dst: Path)
    requires Good(f) && src in f.upper && !f.upper[src].Dir? && src != dst && MoveUpper(f, src, dst).1.Ok?
    ensures !(src <= dst) && !(dst <= src)
  {
    PrefixIsTake(src, dst);
    if dst <= src {
      assert src[..|dst|] == dst;
      TreeAncestors(f.upper, src, |dst|);
    }
  }

  /** Place the node at dst, then hide src. */
  function PlacedThenHidden(f: Fs, src: Path, dst: Path): Fs
    requires src in f.upper
  {
    var g := Placed(f, dst, f.upper[src]);
    g.(upper := g.upper - {src}, tombs := g.tombs + {src})
  }

  lemma MoveSteps(f: Fs, src: Path, dst: Path)
    requires src in f.upper && src != dst && MoveUpper(f, src, dst).1.Ok?
    ensures MoveUpper(f, src, dst).0 == PlacedThenHidden(f, src, dst)
  {
    assert f.tombs + {src} - {dst} == f.tombs - {dst} + {src};
    assert WithParents(f.upper, dst)[src] == f.upper[src];
  }

  lemma HideView(g: Fs, src: Path)
    ensures View(g.(upper := g.upper - {src}, tombs := g.tombs + {src})) == Minus(View(g), src)
  {
    var h := g.(upper := g.upper - {src}, tombs := g.tombs + {src});
    forall q ensures (q in View(h) <==> q in Minus(View(g), src)) && (q in View(h) ==> View(h)[q] == View(g)[q]) {
      HideBelow(g.tombs, src, q);
    }
  }

  /** A successful move to another name is exactly that. */
  lemma MoveIsPlaceThenHide(f: Fs, src: Path, dst: Path)
    requires Good(f) && src in f.upper && !f.upper[src].Dir? && src != dst && MoveUpper(f, src, dst).1.Ok?
    ensures View(MoveUpper(f, src, dst).0) == Minus(View(Placed(f, dst, f.upper[src])), src)
  {
    MoveSteps(f, src, dst);
    HideView(Placed(f, dst, f.upper[src]), src);
  }

  /** The exact condition for a successful rename to act on the view as moving one key. */
  ghost predicate Clean(f: Fs, src: Path, dst: Path)
    requires Exists(f, src)
  {
    && KeepsNode(f, src)
    && (src != dst ==>
          && ParentsVisible(f, dst)
          && NothingResurfaces(f, dst)
          && forall q :: Below(src, q) ==> !Visible(f, q))
  }

  lemma SameConditions(f: Fs, g: Fs, src: Path, dst: Path)
    requires g.tombs == f.tombs && src !in Ancestors(dst)
    requires forall q :: Exists(g, q) == Exists(f, q)
    requires forall q :: Exists(f, q) && q != src ==> NodeAt(g, q) == NodeAt(f, q)
    ensures ParentsVisible(g, dst) == ParentsVisible(f, dst)
    ensures NothingResurfaces(g, dst) == NothingResurfaces(f, dst)
  {
    forall a | a in Ancestors(dst)
      ensures (Visible(g, a) && NodeAt(g, a) == Dir) == (Visible(f, a) && NodeAt(f, a) == Dir)
    {
      assert Exists(g, a) == Exists(f, a);
    }
    forall q ensures Exists(g, q) == Exists(f, q) {}
  }

  lemma MinusIsMove(v: Layer, n: Node, src: Path, dst: Path)
    requires src in v && v[src] == n && src != dst && !(src <= dst)
    requires forall q :: q in v && src <= q ==> q == src
    ensures Minus(v[dst := n], src) == Move(v, src, dst)
  {
  }

  lemma MoveRefines(f: Fs, src: Path, dst: Path)
    requires Good(f) && Visible(f, src) && src in f.upper && !f.upper[src].Dir? && src != dst
    requires MoveUpper(f, src, dst).1.Ok?
    requires ParentsVisible(f, dst) && NothingResurfaces(f, dst)
    requires forall q :: Below(src, q) ==> !Visible(f, q)
    ensures View(MoveUpper(f, src, dst).0) == Move(View(f), src, dst)
  {
    MoveApart(f, src, dst);
    MoveIsPlaceThenHide(f, src, dst);
    PlacedRefines(f, dst, f.upper[src]);
    assert src in View(f);
    forall q | q in View(f) && src <= q ensures q == src { assert !Below(src, q); }
    MinusIsMove(View(f), f.upper[src], src, dst);
  }

  /** u and v hold the same paths, and the same nodes but perhaps at src. */
  ghost predicate AlikeBut(u: Layer, v: Layer, src: Path) {
    && (forall q :: q in u <==> q in v)
    && (forall q :: q in u && q != src ==> u[q] == v[q])
  }

  /** When hiding src in w moves one key of v, w adds nothing to v but dst, and v had nothing below src. */
  lemma MovedKey(w: Layer, v: Layer, src: Path, dst: Path, q: Path)
    requires src in v && src != dst && Minus(w, src) == Move(v, src, dst)
    requires q != src && q != dst
    ensures !(src <= q) && q in w ==> q in v && v[q] == w[q]
    ensures Below(src, q) ==> q !in v
  {
    var m := Minus(w, src);
    assert q in m <==> q in v;
    if q in m { assert m[q] == w[q] && m[q] == v[q]; }
  }

  lemma MoveNeedsParents(f: Fs, n: Node, v: Layer, src: Path, dst: Path)
    requires CanMakeParents(f.upper, dst) && !(src <= dst) && src in v && AlikeBut(v, View(f), src)
    requires Minus(View(Placed(f, dst, n)), src) == Move(v, src, dst)
    ensures ParentsVisible(f, dst)
  {
    var w := View(Placed(f, dst, n));
    assert dst in Minus(w, src);
    forall a | a in Ancestors(dst) && a in w ensures a in View(f) && View(f)[a] == w[a] {
      var k :| 0 <= k < |dst| && a == dst[..k];
      assert a <= dst && a != dst;
      MovedKey(w, v, src, dst, a);
    }
    ParentsNeeded(f, dst, n);
  }

  lemma MoveNeedsQuiet(f: Fs, n: Node, v: Layer, src: Path, dst: Path)
    requires CanMakeParents(f.upper, dst) && !(dst <= src) && !(src <= dst) && src in v && AlikeBut(v, View(f), src)
    requires Minus(View(Placed(f, dst, n)), src) == Move(v, src, dst)
    ensures NothingResurfaces(f, dst)
  {
    var w := View(Placed(f, dst, n));
    forall q | Below(dst, q) && q in w ensures q in View(f) {
      MovedKey(w, v, src, dst, q);
    }
    NothingElseNeeded(f, dst, n);
  }

  lemma MoveNeeds(f: Fs, src: Path, dst: Path, v: Layer)
    requires Good(f) && Visible(f, src) && src in f.upper && !f.upper[src].Dir? && src != dst
    requires MoveUpper(f, src, dst).1.Ok?
    requires src in v && View(MoveUpper(f, src, dst).0) == Move(v, src, dst) && AlikeBut(v, View(f), src)
    ensures ParentsVisible(f, dst) && NothingResurfaces(f, dst) && v[src] == f.upper[src]
    ensures forall q :: Below(src, q) ==> !Visible(f, q)
  {
    MoveApart(f, src, dst);
    MoveIsPlaceThenHide(f, src, dst);
    var n := f.upper[src];
    var w := View(Placed(f, dst, n));
    MoveNeedsParents(f, n, v, src, dst);
    MoveNeedsQuiet(f, n, v, src, dst);
    assert v[src] == n by {
      PlacedAt(f, dst, n, dst);
      assert dst in Minus(w, src) && Minus(w, src)[dst] == v[src];
    }
    forall q | Below(src, q) ensures !Visible(f, q) {
      MovedKey(w, v, src, dst, q);
    }
  }

  /** A successful rename moves one key of the view exactly when the source is a plain file (or
      already in the upper layer), dst's ancestors are visible directories, and neither the cleared
      tombstone nor the new one disturbs what lies below dst and src. */
  lemma RenameExact(f: Fs, src: Path, dst: Path, noReplace: bool)
    requires Good(f) && Renameat(f, src, dst, noReplace).1.Ok?
    ensures src in View(f)
    ensures View(Renameat(f, src, dst, noReplace).0) == Move(View(f), src, dst) <==> Clean(f, src, dst)
  {
    CopyUpAt(f, src);
    CopyUpView(f, src);
    var g := CopyUp(f, src).0;
    assert src in View(f);
    if src == dst {
      ParentsThere(g.upper, dst);
      assert g.tombs + {src} - {src} == g.tombs;
    } else {
      MoveApart(g, src, dst);
      SameConditions(f, g, src, dst);
      forall q ensures Visible(g, q) == Visible(f, q) { assert Exists(g, q) == Exists(f, q); }
      if Clean(f, src, dst) {
        MoveRefines(g, src, dst);
      }
      if View(MoveUpper(g, src, dst).0) == Move(View(f), src, dst) {
        MoveNeeds(g, src, dst, View(f));
      }
    }
  }

  /** A failing rename leaves the view alone, except that a host link already copied up stays a file. */
  lemma FailedRenameExact(f: Fs, src: Path, dst: Path, noReplace: bool)
    requires Good(f) && Renameat(f, src, dst, noReplace).1.Err?
    ensures var g := Renameat(f, src, dst, noReplace).0;
            View(g) == View(f) <==> !(src !in f.upper && src in g.upper && src in f.host && f.host[src].Link?)
  {
    var g := Renameat(f, src, dst, noReplace).0;
    if Visible(f, src) && !IsDir(NodeAt(f, src)) && g != f {
      CopyUpAt(f, src);
      CopyUpView(f, src);
      var c := CopyUp(f, src).0;
      if CopyUp(f, src).1.Ok? {
        if dst in c.upper { ParentsThere(c.upper, dst); }
        assert g == c;
      }
    }
  }

  lemma ParentVisibleSuffices(f: Fs, p: Path)
    requires Good(f) && CanMakeParents(f.upper, p)
    requires p != [] && Visible(f, Parent(p)) && NodeAt(f, Parent(p)).Dir?
    ensures ParentsVisible(f, p)
  {
    forall a | a in Ancestors(p) ensures Visible(f, a) && NodeAt(f, a) == Dir {
      var k :| 0 <= k < |p| && a == p[..k];
      var d := Parent(p);
      assert a == d[..k];
      PrefixOfUnhidden(f.tombs, d, k);
      if k < |d| {
        if d in f.upper { TreeAncestors(f.upper, d, k); } else { TreeAncestors(f.host, d, k); }
      } else {
        assert a == d;
      }
    }
  }

  /** A successful move into a visible directory, path by path. */
  lemma MoveAt(f: Fs, src: Path, dst: Path, q: Path)
    requires Good(f) && Visible(f, src) && src in f.upper && !f.upper[src].Dir? && src != dst
    requires MoveUpper(f, src, dst).1.Ok?
    requires dst != [] && Visible(f, Parent(dst)) && NodeAt(f, Parent(dst)).Dir?
    ensures var v := View(MoveUpper(f, src, dst).0);
            && (q == dst ==> q in v && v[q] == f.upper[src])
            && (q == src ==> q !in v)
            && (q != src && q != dst && !Below(src, q) && !Below(dst, q) ==>
                 (q in v <==> q in View(f)) && (q in v ==> v[q] == View(f)[q]))
  {
    MoveApart(f, src, dst);
    MoveIsPlaceThenHide(f, src, dst);
    ParentVisibleSuffices(f, dst);
    NoAncestorHidden(f, dst);
    PlacedAt(f, dst, f.upper[src], q);
  }

  lemma CopiedParent(f: Fs, src: Path, dst: Path)
    requires Good(f) && Visible(f, src) && !IsDir(NodeAt(f, src)) && KeepsNode(f, src)
    requires Visible(f, dst) && NodeAt(f, dst).Dir?
    ensures var g := CopyUp(f, src).0;
            View(g) == View(f) && Visible(g, src) && Visible(g, dst) && NodeAt(g, dst).Dir?
  {
    CopyUpAt(f, src);
    CopyUpView(f, src);
    var g := CopyUp(f, src).0;
    assert Exists(g, src) && Exists(g, dst);
  }

  /** The rename a guest expects: into a visible directory, from a plain file. dst then has src's
      content, src is gone, and no path outside what lies below the two changes. */
  lemma RenameMovesOneKey(f: Fs, src: Path, dst: Path, noReplace: bool)
    requires Good(f) && Renameat(f, src, dst, noReplace).1.Ok?
    requires KeepsNode(f, src)
    requires dst != [] && Visible(f, Parent(dst)) && NodeAt(f, Parent(dst)).Dir?
    ensures var v := View(Renameat(f, src, dst, noReplace).0);
            && src in View(f) && dst in v && v[dst] == View(f)[src]
            && (src in v <==> src == dst)
            && (src == dst ==> v == View(f))
            && forall q :: q != src && q != dst && !Below(src, q) && !Below(dst, q) ==>
                 (q in v <==> q in View(f)) && (q in v ==> v[q] == View(f)[q])
  {
    assert src in View(f);
    if src == dst {
      RenameExact(f, src, dst, noReplace);
    } else {
      CopyUpAt(f, src);
      CopiedParent(f, src, Parent(dst));
      var g := CopyUp(f, src).0;
      var v := View(MoveUpper(g, src, dst).0);
      MoveAt(g, src, dst, src);
      MoveAt(g, src, dst, dst);
      forall q | q != src && q != dst && !Below(src, q) && !Below(dst, q)
        ensures (q in v <==> q in View(f)) && (q in v ==> v[q] == View(f)[q])
      {
        MoveAt(g, src, dst, q);
      }
      assert View(g)[src] == g.upper[src];
    }
  }

  // ---------------------------------------------------------------- openat

  /** A path whose directory is there, so that something can be made at it. */
  predicate Rooted(v: Layer, p: Path) { p == [] || (Parent(p) in v && v[Parent(p)].Dir?) }

  /** open(2) on one plain file map. */
  function NativeOpen(v: Layer, p: Path, flags: OpenFlags): (Layer, Result<Node>) {
    if p in v then
      var (n, r) := OpenNode(v[p], flags);
      (v[p := n], r)
    else if flags.creat && Rooted(v, p) then (v[p := File([])], Ok(File([])))
    else (v, Err(Missing(v, p)))
  }

  /** A node put in the upper layer at a visible path changes the view there and nowhere else. */
  lemma PutUpperView(f: Fs, p: Path, n: Node)
    requires Visible(f, p) && p in f.upper
    ensures View(f.(upper := f.upper[p := n])) == View(f)[p := n]
  {
    assert f.upper.Keys + f.host.Keys == f.upper[p := n].Keys + f.host.Keys;
  }

  lemma HostParents(f: Fs, p: Path)
    requires Tree(f.host) && p in f.host
    ensures forall a :: a in Ancestors(p) ==> a in f.host && f.host[a] == Dir
  {
    forall a | a in Ancestors(p) ensures a in f.host && f.host[a] == Dir {
      var k :| 0 <= k < |p| && a == p[..k];
      TreeAncestors(f.host, p, k);
    }
  }

  /** Making parents that were visible directories anyway does not show. */
  lemma ParentsUnseen(f: Fs, p: Path)
    requires ParentsVisible(f, p) && CanMakeParents(f.upper, p)
    ensures View(f.(upper := WithParents(f.upper, p))) == View(f)
  {
    var g := f.(upper := WithParents(f.upper, p));
    forall q ensures Exists(g, q) == Exists(f, q) && (Exists(f, q) ==> NodeAt(g, q) == NodeAt(f, q)) {
      if q in Ancestors(p) { assert Visible(f, q); }
    }
    SameView(f, g);
  }

  lemma HostParentsVisible(f: Fs, p: Path)
    requires Good(f) && Visible(f, p) && p !in f.upper && CanMakeParents(f.upper, p)
    ensures ParentsVisible(f, p)
  {
    HostParents(f, p);
    forall a | a in Ancestors(p) ensures Visible(f, a) && NodeAt(f, a) == Dir {
      var k :| 0 <= k < |p| && a == p[..k];
      PrefixOfUnhidden(f.tombs, p, k);
    }
  }

  /** The upper layer gains p, with its parents. */
  function Copying(f: Fs, p: Path, n: Node): Fs { f.(upper := WithParents(f.upper, p)[p := n]) }

  /** A copy-up of a visible host path changes the view there and nowhere else. */
  lemma CopyForOpenView(f: Fs, p: Path, n: Node)
    requires Good(f) && Visible(f, p) && p !in f.upper && CanMakeParents(f.upper, p)
    ensures View(Copying(f, p, n)) == View(f)[p := n]
  {
    HostParentsVisible(f, p);
    assert f.tombs - {p} == f.tombs;
    PlacedRefines(f, p, n);
  }

  lemma OpenUpperView(f: Fs, p: Path, flags: OpenFlags)
    requires Visible(f, p) && p in f.upper
    ensures var (g, r) := OpenUpper(f, p, flags);
            (View(g), r) == NativeOpen(View(f), p, flags)
  {
    PutUpperView(f, p, OpenNode(f.upper[p], flags).0);
  }

  lemma OpenHostCopied(f: Fs, p: Path, flags: OpenFlags)
    requires Good(f) && Visible(f, p) && p !in f.upper && Mutates(flags) && CanMakeParents(f.upper, p)
    requires Copied(f.host[p]).Ok?
    ensures var (g, r) := CowOpen(f, p, flags);
            (View(g), r) == NativeOpen(View(f)[p := Copied(f.host[p]).value], p, flags)
  {
    var n := Copied(f.host[p]).value;
    CopyForOpenView(f, p, n);
    OpenUpperView(Copying(f, p, n), p, flags);
  }

  /** A plain open never turns a link into a file or a file into a link. */
  lemma NativeKeepsKind(v: Layer, p: Path, flags: OpenFlags)
    requires p in v
    ensures p in NativeOpen(v, p, flags).0
    ensures v[p].File? <==> NativeOpen(v, p, flags).0[p].File?
  {
  }

  /** The copy-on-write open shows and answers what open(2) does on the plain map. */
  ghost predicate OpensAlike(f: Fs, p: Path, flags: OpenFlags) {
    (View(CowOpen(f, p, flags).0), CowOpen(f, p, flags).1) == NativeOpen(View(f), p, flags)
  }

  lemma OpenHostFile(f: Fs, p: Path, flags: OpenFlags)
    requires Good(f) && Visible(f, p) && p !in f.upper && Mutates(flags) && CanMakeParents(f.upper, p)
    requires f.host[p].File?
    ensures OpensAlike(f, p, flags)
  {
    assert p in View(f) && View(f)[p] == f.host[p];
    assert View(f)[p := f.host[p]] == View(f);
    OpenHostCopied(f, p, flags);
  }

  /** A link to a file becomes a file. */
  lemma OpenHostLink(f: Fs, p: Path, flags: OpenFlags)
    requires Good(f) && Visible(f, p) && p !in f.upper && Mutates(flags) && CanMakeParents(f.upper, p)
    requires f.host[p].Link? && f.host[p].leads.ToFile?
    ensures !OpensAlike(f, p, flags)
  {
    var (v, n) := (View(f), Copied(f.host[p]).value);
    assert p in v && v[p] == f.host[p];
    OpenHostCopied(f, p, flags);
    NativeKeepsKind(v, p, flags);
    NativeKeepsKind(v[p := n], p, flags);
  }

  /** A directory, or a link to one, whose copy fails halfway leaves an empty file in its place. */
  lemma OpenHostDirectory(f: Fs, p: Path, flags: OpenFlags)
    requires Good(f) && Visible(f, p) && p !in f.upper && Mutates(flags) && CanMakeParents(f.upper, p)
    requires Copied(f.host[p]) == Err(ISDIR)
    ensures !OpensAlike(f, p, flags)
  {
    CopyForOpenView(f, p, File([]));
    assert p in View(f) && View(f)[p] == f.host[p];
    NativeKeepsKind(View(f), p, flags);
  }

  /** A dangling host link cannot be copied, and the parents made for it do not show; open(2) answers
      NOENT there too, unless it may create. */
  lemma OpenHostDangling(f: Fs, p: Path, flags: OpenFlags)
    requires Good(f) && Visible(f, p) && p !in f.upper && Mutates(flags) && CanMakeParents(f.upper, p)
    requires Copied(f.host[p]) == Err(NOENT)
    ensures OpensAlike(f, p, flags) <==> !flags.creat
  {
    HostParentsVisible(f, p);
    ParentsUnseen(f, p);
    assert CowOpen(f, p, flags) == (f.(upper := WithParents(f.upper, p)), Err(NOENT));
    assert p in View(f) && View(f)[p] == f.host[p];
    NativeDangling(View(f), p, flags);
  }

  lemma NativeDangling(v: Layer, p: Path, flags: OpenFlags)
    requires p in v && v[p].Link? && v[p].leads.Nowhere?
    ensures NativeOpen(v, p, flags) == (v, Err(NOENT)) <==> !flags.creat
  {
    assert v[p := v[p]] == v;
  }

  /** Reading, or failing to make the parents of, a host path. */
  lemma OpenHostOtherwise(f: Fs, p: Path, flags: OpenFlags)
    requires Visible(f, p) && p !in f.upper && (Mutates(flags) ==> !CanMakeParents(f.upper, p))
    ensures OpensAlike(f, p, flags) <==> !Mutates(flags)
  {
    assert p in View(f) && View(f)[p] == f.host[p];
    assert View(f)[p := f.host[p]] == View(f);
  }

  predicate OpensPlainly(f: Fs, p: Path, flags: OpenFlags)
    requires Exists(f, p)
  {
    p in f.upper || !Mutates(flags)
    || (CanMakeParents(f.upper, p)
        && (f.host[p].File? || (f.host[p].Link? && f.host[p].leads.Nowhere? && !flags.creat)))
  }

  lemma OpenHostExact(f: Fs, p: Path, flags: OpenFlags)
    requires Good(f) && Visible(f, p) && p !in f.upper && Mutates(flags) && CanMakeParents(f.upper, p)
    ensures OpensAlike(f, p, flags) <==>
            f.host[p].File? || (f.host[p].Link? && f.host[p].leads.Nowhere? && !flags.creat)
  {
    match f.host[p]
    case File(_) => OpenHostFile(f, p, flags);
    case Dir => OpenHostDirectory(f, p, flags);
    case Link(_, ToFile(_)) => OpenHostLink(f, p, flags);
    case Link(_, ToDir) => OpenHostDirectory(f, p, flags);
    case Link(_, Nowhere) => OpenHostDangling(f, p, flags);
  }

  /** On a visible path, open acts as open(2) on the plain map exactly when no copy-up is needed, or it
      can be made and the host has a plain file there, or a dangling link that must not be created through. */
  lemma OpenVisibleExact(f: Fs, p: Path, flags: OpenFlags)
    requires Good(f) && Visible(f, p)
    ensures var (g, r) := Openat(f, p, flags);
            (View(g), r) == NativeOpen(View(f), p, flags) <==> OpensPlainly(f, p, flags)
  {
    assert Openat(f, p, flags) == CowOpen(f, p, flags);
    if p in f.upper {
      OpenUpperView(f, p, flags);
    } else if Mutates(flags) && CanMakeParents(f.upper, p) {
      OpenHostExact(f, p, flags);
    } else {
      OpenHostOtherwise(f, p, flags);
    }
  }

  /** The node a creating open leaves at a path the guest could not see. */
  function Reopened(f: Fs, p: Path, flags: OpenFlags): Node {
    if p in f.upper then OpenNode(f.upper[p], flags).0
    else if p in f.host && Copied(f.host[p]).Ok? then OpenNode(Copied(f.host[p]).value, flags).0
    else File([])
  }

  /** A successful open of an invisible path creates it. It is a plain creation of an empty file
      exactly when the layers hold no old content there (or O_TRUNC drops it), the ancestors are
      visible directories, and nothing below resurfaces. */
  lemma OpenCreatesExact(f: Fs, p: Path, flags: OpenFlags)
    requires Good(f) && !Visible(f, p) && Openat(f, p, flags).1.Ok?
    ensures flags.creat && Openat(f, p, flags).0 == Placed(f, p, Reopened(f, p, flags))
    ensures View(Openat(f, p, flags).0) == View(f)[p := File([])] <==>
            Reopened(f, p, flags) == File([]) && ParentsVisible(f, p) && NothingResurfaces(f, p)
  {
    var n := Reopened(f, p, flags);
    var g := Openat(f, p, flags).0;
    OpenPlaces(f, p, flags);
    PlacedRefines(f, p, n);
    PlacedRefines(f, p, File([]));
    PlacedAt(f, p, n, p);
    if View(g) == View(f)[p := File([])] {
      assert View(g)[p] == File([]) && View(g)[p] == n;
    }
  }

  lemma OpenPlaces(f: Fs, p: Path, flags: OpenFlags)
    requires Good(f) && !Visible(f, p) && Openat(f, p, flags).1.Ok?
    ensures flags.creat && CanMakeParents(f.upper, p) && Openat(f, p, flags).0 == Placed(f, p, Reopened(f, p, flags))
  {
    if p in f.upper { ParentsThere(f.upper, p); }
    var up := WithParents(f.upper, p);
    if p !in f.upper && p in f.host && Copied(f.host[p]).Ok? {
      var c := Copied(f.host[p]).value;
      assert up[p := c][p := OpenNode(c, flags).0] == up[p := OpenNode(c, flags).0];
    }
    if p !in f.tombs { assert f.tombs - {p} == f.tombs; }
  }

  /** An open of a visible host path that may write or create: without its parents in the upper layer
      nothing happens, a directory leaves an empty file, a link becomes the file it leads to. */
  lemma OpenHostAnswers(f: Fs, p: Path, flags: OpenFlags)
    requires Visible(f, p) && p !in f.upper && (flags.write || flags.creat || flags.trunc)
    ensures var ((g, r), n, makes) := (Openat(f, p, flags), f.host[p], flags.creat && flags.excl);
            && (!CanMakeParents(f.upper, p) ==> g == f && r == Err(IO))
            && (CanMakeParents(f.upper, p) && (n.Dir? || (n.Link? && n.leads.ToDir?)) ==>
                  r == Err(ISDIR) && g == Copying(f, p, File([])))
            && (CanMakeParents(f.upper, p) && n.Link? && n.leads.Nowhere? ==>
                  r == Err(NOENT) && g == f.(upper := WithParents(f.upper, p)))
            && (CanMakeParents(f.upper, p) && BytesOf(n).Some? ==>
                  && r == (if makes then Err(EXIST) else Ok(File(if flags.trunc then [] else BytesOf(n).value)))
                  && g == Copying(f, p, File(if flags.trunc && !makes then [] else BytesOf(n).value)))
  {
    if CanMakeParents(f.upper, p) && BytesOf(f.host[p]).Some? {
      var (up, c) := (WithParents(f.upper, p), File(BytesOf(f.host[p]).value));
      assert Copied(f.host[p]) == Ok(c);
      assert up[p := c][p := OpenNode(c, flags).0] == up[p := OpenNode(c, flags).0];
    }
  }

  /** How an open of a path in neither layer fails. */
  lemma OpenNothingAnswers(f: Fs, p: Path, flags: OpenFlags)
    requires !Exists(f, p)
    ensures Openat(f, p, flags).1 ==
            if Hidden(f, p) && (AncestorIn(f.tombs, p) || !flags.creat) then Err(NOENT)
            else if !(flags.write || flags.creat || flags.trunc) then Err(Missing(f.host, p))
            else if !CanMakeParents(f.upper, p) then Err(IO)
            else if flags.creat then Ok(File([])) else Err(NOENT)
  {
  }

  /** Unlinking a host file and creating it again brings the old content back. */
  lemma RecreatedFileKeepsOldContent(bytes: seq<Byte>)
    ensures var f := Fs(map[[] := Dir, ["a"] := File(bytes)], map[[] := Dir], {});
            var g := Unlinkat(f, ["a"], false).0;
            Stat(g, ["a"], true) == Err(NOENT)
            && Openat(g, ["a"], OpenFlags(true, true, false, false)).1 == Ok(File(bytes))
  {
    var f := Fs(map[[] := Dir, ["a"] := File(bytes)], map[[] := Dir], {});
    var g := Unlinkat(f, ["a"], false).0;
    assert g == f.(tombs := {["a"]});
    assert !AncestorIn(f.tombs, ["a"]);
    forall k | 0 <= k < 1 ensures ["a"][..k] == [] {}
  }

  /** What comes back is the host's content, never the sandbox's own: a file the host does not have is empty
      when it is created again. */
  lemma RecreatedExact(f: Fs, p: Path)
    requires p != [] && CanMakeParents(f.upper, p) && Unlinkat(f, p, false).1.Ok?
    ensures Openat(Unlinkat(f, p, false).0, p, OpenFlags(true, true, false, false)).1 ==
            if p !in f.host then Ok(File([]))
            else if BytesOf(f.host[p]).Some? then Ok(File(BytesOf(f.host[p]).value))
            else if f.host[p].Link? && f.host[p].leads.Nowhere? then Err(NOENT) else Err(ISDIR)
  {
  }

  /** After an unlink or rmdir the path can be made anew exactly if nothing is left of it in the upper layer:
      it was not there, or it was no directory, or an empty one that is not the root. */
  lemma RemadeExact(f: Fs, p: Path, removeDir: bool, n: Node)
    requires Unlinkat(f, p, removeDir).1.Ok? && CanMakeParents(f.upper, p)
    ensures var r := Make(Unlinkat(f, p, removeDir).0, p, n).1;
            && (r == Ok(()) <==>
                  p in f.upper ==>
                    p != [] && (removeDir ==> f.upper[p].Dir? && forall q :: q in f.upper ==> !(p < q)))
            && (r.Err? ==> r == Err(EXIST))
  {
    var g := Unlinkat(f, p, removeDir).0;
    assert CanMakeParents(g.upper, p);
    forall q ensures Below(p, q) <==> p < q {}
  }

  /** Why mkdirat and symlinkat fail: something is there, in view or kept in the upper layer, or the parents
      cannot be made. */
  lemma MakeAnswers(f: Fs, p: Path, n: Node)
    ensures Make(f, p, n).1 ==
            if p !in f.tombs && (p in f.upper || p in f.host) then Err(EXIST)
            else if !CanMakeParents(f.upper, p) then Err(IO)
            else if p in f.upper then Err(EXIST) else Ok(())
  {
  }

  /** Why a rename fails, and what a failed one leaves in the upper layer. */
  lemma RenameAnswers(f: Fs, src: Path, dst: Path, noReplace: bool)
    requires Visible(f, src) && !IsDir(NodeAt(f, src)) && (Visible(f, dst) ==> !noReplace && !IsDir(NodeAt(f, dst)))
    ensures var ((g, r), copies) := (Renameat(f, src, dst, noReplace), src !in f.upper);
            && (copies && !CanMakeParents(f.upper, src) ==> r == Err(IO) && g == f)
            && (copies && CanMakeParents(f.upper, src) && f.host[src].Link? && f.host[src].leads.Nowhere? ==>
                  r == Err(IO) && g == f.(upper := WithParents(f.upper, src)))
            && (CopyUp(f, src).1.Ok? ==>
                  var c := CopyUp(f, src).0;
                  && (!CanMakeParents(c.upper, dst) ==> r == Err(IO) && g == c)
                  && (CanMakeParents(c.upper, dst) ==>
                        && (r.Err? <==> dst in c.upper && c.upper[dst].Dir?)
                        && (r.Err? ==> r == Err(ISDIR) && g == c.(upper := WithParents(c.upper, dst)))))
            && (r.Err? ==> g.tombs == f.tombs)
            && (copies && CanMakeParents(f.upper, src) && BytesOf(f.host[src]).Some? ==>
                  CopyUp(f, src) == (Copying(f, src, File(BytesOf(f.host[src]).value)), Ok(())))
  {
    assert dst !in Ancestors(dst) by { forall k | 0 <= k < |dst| ensures dst[..k] != dst {} }
  }

  /** The calls a rename does not make: of what is not in view, of a directory, onto one, or onto anything
      with RENAME_NOREPLACE. */
  lemma RenameRefusals(f: Fs, src: Path, dst: Path, noReplace: bool)
    ensures var ((g, r), v) := (Renameat(f, src, dst, noReplace), View(f));
            && (src !in v ==> r == Err(NOENT) && g == f)
            && (src in v && IsDir(v[src]) ==> r == Err(XDEV) && g == f)
            && (src in v && !IsDir(v[src]) && dst in v && noReplace ==> r == Err(EXIST) && g == f)
            && (src in v && !IsDir(v[src]) && dst in v && !noReplace && IsDir(v[dst]) ==> r == Err(XDEV) && g == f)
  {
    assert src in View(f) <==> Visible(f, src);
    assert dst in View(f) <==> Visible(f, dst);
  }

  lemma WriteRefines(f: Fs, p: Path, bytes: seq<Byte>)
    ensures View(WriteUpper(f, p, bytes)) ==
            if p in View(f) && p in f.upper && f.upper[p].File? then View(f)[p := File(bytes)] else View(f)
  {
    var g := WriteUpper(f, p, bytes);
    if g != f { assert g.upper.Keys + g.host.Keys == f.upper.Keys + f.host.Keys; }
  }

  // ---------------------------------------------------------------- whole runs

  datatype Op =
    | OpOpen(p: Path, flags: OpenFlags)
    | OpMake(p: Path, node: Node)
    | OpUnlink(p: Path, removeDir: bool)
    | OpRename(src: Path, dst: Path, noReplace: bool)
    | OpWrite(p: Path, bytes: seq<Byte>)
    | OpStat(p: Path, nofollow: bool)
    | OpAccess(p: Path, existence: bool)

  function Apply(f: Fs, op: Op): Fs {
    match op
    case OpOpen(p, flags) => Openat(f, p, flags).0
    case OpMake(p, n) => Make(f, p, n).0
    case OpUnlink(p, removeDir) => Unlinkat(f, p, removeDir).0
    case OpRename(src, dst, noReplace) => Renameat(f, src, dst, noReplace).0
    case OpWrite(p, bytes) => WriteUpper(f, p, bytes)
    case OpStat(_, _) => f
    case OpAccess(_, _) => f
  }

  function ApplyAll(f: Fs, ops: seq<Op>): Fs
    decreases |ops|
  {
    if ops == [] then f else ApplyAll(Apply(f, ops[0]), ops[1..])
  }

  /** The path whose tombstone a call takes away, if it gets that far. */
  function Cleared(f: Fs, op: Op): Option<Path> {
    match op
    case OpOpen(p, flags) => if !AncestorIn(f.tombs, p) && p in f.tombs && flags.creat then Some(p) else None
    case OpMake(p, _) => if p in f.tombs then Some(p) else None
    case OpRename(src, dst, noReplace) =>
      if Renameat(f, src, dst, noReplace).1.Ok? && src != dst && dst in f.tombs then Some(dst) else None
    case _ => None
  }

  /** A creating call on p itself or on an ancestor of p. */
  predicate Recreates(op: Op, p: Path) {
    match op
    case OpOpen(q, flags) => flags.creat && q <= p
    case OpMake(q, _) => q <= p
    case OpRename(_, dst, _) => dst <= p
    case _ => false
  }

  lemma TombsAfter(f: Fs, op: Op)
    ensures op.OpUnlink? && Unlinkat(f, op.p, op.removeDir).1.Ok? ==>
              Apply(f, op).tombs == (if op.removeDir then WithoutBelow(f.tombs, op.p) else f.tombs) + {op.p}
    ensures op.OpUnlink? && Unlinkat(f, op.p, op.removeDir).1.Err? ==> Apply(f, op).tombs == f.tombs
    ensures op.OpRename? && Renameat(f, op.src, op.dst, op.noReplace).1.Ok? ==>
              Apply(f, op).tombs == f.tombs + {op.src} - {op.dst}
    ensures op.OpRename? && Renameat(f, op.src, op.dst, op.noReplace).1.Err? ==> Apply(f, op).tombs == f.tombs
    ensures op.OpOpen? || op.OpMake? ==>
              Apply(f, op).tombs == (if Cleared(f, op).Some? then f.tombs - {Cleared(f, op).value} else f.tombs)
    ensures op.OpWrite? || op.OpStat? || op.OpAccess? ==> Apply(f, op).tombs == f.tombs
  {
    if op.OpMake? && op.p !in f.tombs { assert f.tombs - {op.p} == f.tombs; }
  }

  /** A hidden path comes back in one call exactly when that call clears the one tombstone that hid it. */
  lemma UnhidExactly(f: Fs, op: Op, p: Path)
    requires Hidden(f, p)
    ensures !Hidden(Apply(f, op), p) <==>
            Cleared(f, op).Some? && !HiddenBy(f.tombs - {Cleared(f, op).value}, p)
              && !(op.OpRename? && op.src <= p)
  {
    TombsAfter(f, op);
    match op
    case OpUnlink(q, _) => HideBelow(f.tombs, q, p);
    case OpRename(src, dst, noReplace) =>
      if Renameat(f, src, dst, noReplace).1.Ok? {
        assert f.tombs + {src} - {dst} == if src == dst then f.tombs - {dst} else f.tombs - {dst} + {src};
        HideBelow(f.tombs - {dst}, src, p);
        if src == dst || dst !in f.tombs { assert f.tombs - {dst} == f.tombs; }
      }
    case _ =>
  }

  /** Every lookup of p by name fails, and changes nothing. */
  ghost predicate Unreachable(f: Fs, p: Path) {
    && p !in View(f) && (forall nofollow :: Stat(f, p, nofollow) == Err(NOENT))
    && (forall existence :: Access(f, p, existence) == Err(NOENT))
    && (forall removeDir :: Unlinkat(f, p, removeDir) == (f, Err(NOENT)))
    && (forall dst, noReplace :: Renameat(f, p, dst, noReplace) == (f, Err(NOENT)))
    && (forall flags: OpenFlags :: !flags.creat ==> Openat(f, p, flags) == (f, Err(NOENT)))
  }

  /** Once hidden, a path stays hidden until a creating call names it or an ancestor, and until then
      every lookup of it fails. */
  lemma {:induction false} HiddenStaysHidden(f: Fs, ops: seq<Op>, p: Path)
    requires Hidden(f, p) && forall i :: 0 <= i < |ops| ==> !Recreates(ops[i], p)
    ensures Hidden(ApplyAll(f, ops), p) && Unreachable(ApplyAll(f, ops), p)
    decreases |ops|
  {
    if ops != [] {
      UnhidExactly(f, ops[0], p);
      if Cleared(f, ops[0]).Some? { UnhideOnlyBelow(f.tombs, Cleared(f, ops[0]).value, p); }
      HiddenStaysHidden(Apply(f, ops[0]), ops[1..], p);
    }
  }

  /** From the unlink on, for the path and everything below it. */
  lemma UnlinkedStaysGone(f: Fs, p: Path, removeDir: bool, ops: seq<Op>, q: Path)
    requires Unlinkat(f, p, removeDir).1.Ok? && p <= q
    requires forall i :: 0 <= i < |ops| ==> !Recreates(ops[i], q)
    ensures Unreachable(ApplyAll(Unlinkat(f, p, removeDir).0, ops), q)
  {
    HideBelow(f.tombs, p, q);
    HiddenStaysHidden(Unlinkat(f, p, removeDir).0, ops, q);
  }

  lemma PutKeepsTree(l: Layer, p: Path, n: Node)
    requires Tree(l) && p in l && !l[p].Dir?
    ensures Tree(l[p := n])
  {
    LeafHasNothingBelow(l, p);
    forall q | q in l[p := n] && q != [] ensures Parent(q) in l[p := n] && l[p := n][Parent(q)].Dir? {
    }
  }

  lemma CopyingKeepsGood(f: Fs, p: Path, n: Node)
    requires Good(f) && p !in f.upper && CanMakeParents(f.upper, p)
    ensures Good(Copying(f, p, n)) && Copying(f, p, n).host == f.host
  {
    PlacedTree(f.upper, p, n);
  }

  lemma CowOpenKeepsGood(f: Fs, p: Path, flags: OpenFlags)
    requires Good(f)
    ensures Good(CowOpen(f, p, flags).0) && CowOpen(f, p, flags).0.host == f.host
  {
    if p in f.upper {
    } else if Mutates(flags) && CanMakeParents(f.upper, p) {
      WithParentsTree(f.upper, p);
      CopyingKeepsGood(f, p, File([]));
      if p in f.host && Copied(f.host[p]).Ok? {
        CopyingKeepsGood(f, p, Copied(f.host[p]).value);
      }
    }
  }

  lemma OpenKeepsGood(f: Fs, p: Path, flags: OpenFlags)
    requires Good(f)
    ensures Good(Openat(f, p, flags).0) && Openat(f, p, flags).0.host == f.host
  {
    CowOpenKeepsGood(f, p, flags);
    CowOpenKeepsGood(f.(tombs := f.tombs - {p}), p, flags);
  }

  lemma MakeKeepsGood(f: Fs, p: Path, n: Node)
    requires Good(f)
    ensures Good(Make(f, p, n).0) && Make(f, p, n).0.host == f.host
  {
    if CanMakeParents(f.upper, p) {
      WithParentsTree(f.upper, p);
      if p !in f.upper { PlacedTree(f.upper, p, n); }
    }
  }

  lemma UnlinkKeepsGood(f: Fs, p: Path, removeDir: bool)
    requires Good(f)
    ensures Good(Unlinkat(f, p, removeDir).0) && Unlinkat(f, p, removeDir).0.host == f.host
  {
    if Removed(f.upper, p, removeDir) != f.upper {
      if !f.upper[p].Dir? { LeafHasNothingBelow(f.upper, p); }
      RemovedTree(f.upper, p);
    }
  }

  lemma MoveKeepsGood(f: Fs, src: Path, dst: Path)
    requires Good(f) && src in f.upper && !f.upper[src].Dir?
    ensures Good(MoveUpper(f, src, dst).0) && MoveUpper(f, src, dst).0.host == f.host
  {
    if CanMakeParents(f.upper, dst) {
      WithParentsTree(f.upper, dst);
      if src != dst && MoveUpper(f, src, dst).1.Ok? {
        MoveApart(f, src, dst);
        PlacedTree(f.upper, dst, f.upper[src]);
        var l := WithParents(f.upper, dst)[dst := f.upper[src]];
        LeafHasNothingBelow(l, src);
        RemovedTree(l, src);
      }
    }
  }

  lemma RenameKeepsGood(f: Fs, src: Path, dst: Path, noReplace: bool)
    requires Good(f)
    ensures Good(Renameat(f, src, dst, noReplace).0) && Renameat(f, src, dst, noReplace).0.host == f.host
  {
    if Visible(f, src) && !IsDir(NodeAt(f, src)) {
      CopyUpAt(f, src);
      if CopyUp(f, src).1.Ok? { MoveKeepsGood(CopyUp(f, src).0, src, dst); }
    }
  }

  /** Every call keeps both layers well-formed trees and leaves the host as it was. */
  lemma ApplyKeepsGood(f: Fs, op: Op)
    requires Good(f)
    ensures Good(Apply(f, op)) && Apply(f, op).host == f.host
  {
    match op
    case OpOpen(p, flags) => OpenKeepsGood(f, p, flags);
    case OpMake(p, n) => MakeKeepsGood(f, p, n);
    case OpUnlink(p, removeDir) => UnlinkKeepsGood(f, p, removeDir);
    case OpRename(src, dst, noReplace) => RenameKeepsGood(f, src, dst, noReplace);
    case OpWrite(p, bytes) =>
      if p in f.upper && f.upper[p].File? { PutKeepsTree(f.upper, p, File(bytes)); }
    case _ =>
  }

  /** In every run the host layer is untouched and both layers stay trees. */
  lemma {:induction false} RunKeepsHost(f: Fs, ops: seq<Op>)
    requires Good(f)
    ensures Good(ApplyAll(f, ops)) && ApplyAll(f, ops).host == f.host
    decreases |ops|
  {
    if ops != [] {
      ApplyKeepsGood(f, ops[0]);
      RunKeepsHost(Apply(f, ops[0]), ops[1..]);
    }
  }
}
