/** The snapshot calls on the disk, and the simple store they refine: one tree per sandbox, one per
    snapshot id, every call a single map update. */
module SnapshotCalls {
  import opened FileData
  import opened Results
  import opened Paths
  import opened Snapshot

  type Uid = Name

  const SB_ROOT: Path := ["tmp", ".cvisor", "sb"]
  const SNAP_ROOT: Path := ["tmp", ".cvisor", "snapshots"]

  function SbDir(uid: Uid): (p: Path)
    ensures p == ["tmp", ".cvisor", "sb", uid]
  {
    SB_ROOT + [uid]
  }

  predicate IdChar(c: char) {
    'a' <= c <= 'z' || 'A' <= c <= 'Z' || '0' <= c <= '9' || c == '.' || c == '_' || c == '-'
  }

  predicate ValidId(id: string) {
    id != "" && |id| <= 128 && (forall c :: c in id ==> IdChar(c)) && id != ".." && id != "."
  }

  function SegmentOf(id: string): Name
    requires ValidId(id)
  {
    assert forall c :: c in id ==> c != '/';
    id
  }

  /** The snapshot's directory; an id that is not one plain path segment is refused. */
  function SnapDir(id: string): (r: Result<Path>)
    ensures r.Ok? ==> ValidId(id) && '/' !in id && r.value == SNAP_ROOT + [id]
    ensures r.Err? ==> r.errno == INVAL && !ValidId(id)
  {
    if ValidId(id) then
      assert forall c :: c in id ==> c != '/';
      Ok(SNAP_ROOT + [id])
    else Err(INVAL)
  }

  /** The ids accepted, by character code: up to 128 letters, digits, dots, underscores and dashes, and not
      one or two dots alone. The directory is then one level below the root. */
  lemma SnapDirExact(id: string)
    ensures SnapDir(id).Ok? <==>
            && 1 <= |id| <= 128 && id != "." && id != ".."
            && forall i :: 0 <= i < |id| ==>
                 var n := id[i] as int;
                 97 <= n <= 122 || 65 <= n <= 90 || 48 <= n <= 57 || n == 46 || n == 95 || n == 45
    ensures SnapDir(id).Ok? ==> SnapDir(id) == Ok(["tmp", ".cvisor", "snapshots", id])
    ensures SnapDir(id).Err? ==> SnapDir(id) == Err(INVAL)
  {
    assert '.' as int == 46 && '_' as int == 95 && '-' as int == 45;
    forall i | 0 <= i < |id| ensures id[i] in id {}
    assert SnapDir(id).Ok? <==> ValidId(id);
    if SnapDir(id).Ok? { assert SnapDir(id).value == ["tmp", ".cvisor", "snapshots", id]; }
  }

  /** What a run keeps: the disk is a tree, and both roots and everything directly in them are directories. */
  ghost predicate Ready(d: Disk) {
    && TreeShaped(d) && CanMakeDirs(d, SB_ROOT) && CanMakeDirs(d, SNAP_ROOT)
    && SlotsAreDirs(d, SB_ROOT) && SlotsAreDirs(d, SNAP_ROOT)
  }

  /** Whatever lies directly in a root is a directory. */
  ghost predicate SlotsAreDirs(d: Disk, root: Path) {
    forall n: Name :: root + [n] in d ==> d[root + [n]].Dir?
  }

  predicate IsRoot(root: Path) { root == SB_ROOT || root == SNAP_ROOT }

  ghost predicate DirTree(t: Disk) { TreeShaped(t) && [] in t && t[[]].Dir? }

  const EMPTY_DIR: Disk := map[[] := Dir]

  // ---------------------------------------------------------------- the calls as functions

  function SnapshotOf(d: Disk, uid: Uid, id: string): (Disk, Result<()>) {
    match SnapDir(id)
    case Err(e) => (d, Err(e))
    case Ok(dst) =>
      (Planted(d, dst, if SbDir(uid) in d then Sub(d, SbDir(uid)) else EMPTY_DIR), Ok(()))
  }

  /** rollback, and branch with a fresh uid. */
  function Restored(d: Disk, id: string, uid: Uid): (Disk, Result<()>) {
    match SnapDir(id)
    case Err(e) => (d, Err(e))
    case Ok(src) =>
      if src !in d then (d, Err(NOENT)) else (Planted(d, SbDir(uid), Sub(d, src)), Ok(()))
  }

  function ForkOf(d: Disk, src: Uid, to: Uid): (Disk, Result<()>) {
    if src != to && SbDir(src) in d then (Planted(d, SbDir(to), Sub(d, SbDir(src))), Ok(()))
    else (Graft(d, SbDir(to), map[]), Ok(()))
  }

  function Deleted(d: Disk, id: string): (Disk, Result<bool>) {
    match SnapDir(id)
    case Err(e) => (d, Err(e))
    case Ok(dir) => if dir in d then (Graft(d, dir, map[]), Ok(true)) else (d, Ok(false))
  }

  // ---------------------------------------------------------------- paths under the two roots

  lemma RootsApart(r: Path, s: Path, m: Name, n: Name)
    requires IsRoot(r) && IsRoot(s) && (r != s || m != n)
    ensures Apart(r + [m], s + [n])
  {
    assert SB_ROOT[2] != SNAP_ROOT[2];
    assert |r| == |s| == 3;
    if r != s { assert (r + [m])[2] != (s + [n])[2]; } else { assert (r + [m])[3] != (s + [n])[3]; }
  }

  /** Removing a slot's tree, or an absent one. */
  lemma ClearedReady(d: Disk, root: Path, n: Name)
    requires Ready(d) && IsRoot(root)
    ensures Ready(Graft(d, root + [n], map[])) && root + [n] !in Graft(d, root + [n], map[])
  {
    var dst := root + [n];
    var g := Graft(d, dst, map[]);
    GraftShape(d, dst, map[]);
    GraftAt(d, dst, map[], dst);
    forall q | q in g ensures q in d && g[q] == d[q] { GraftAt(d, dst, map[], q); }
  }

  lemma PlantedSlots(d: Disk, root: Path, n: Name, t: Disk, r: Path, m: Name)
    requires Ready(d) && IsRoot(root) && IsRoot(r) && DirTree(t)
    requires r + [m] in Planted(d, root + [n], t)
    ensures Planted(d, root + [n], t)[r + [m]].Dir?
  {
    var dst := root + [n];
    if r == root && m == n {
      GraftThere(WithDirs(d, Parent(dst)), dst, t);
      assert dst + [] == dst;
      SubAt(Planted(d, dst, t), dst, []);
    } else {
      RootsApart(r, root, m, n);
    }
  }

  lemma PlantedRoots(d: Disk, root: Path, n: Name, t: Disk, r: Path)
    requires Ready(d) && IsRoot(root) && IsRoot(r)
    ensures CanMakeDirs(Planted(d, root + [n], t), r)
  {
    forall q | q in Planted(d, root + [n], t) && q <= r ensures Planted(d, root + [n], t)[q].Dir? {
    }
  }

  lemma PlantedDirs(d: Disk, root: Path, n: Name, t: Disk, r: Path)
    requires Ready(d) && IsRoot(root) && IsRoot(r) && DirTree(t)
    ensures SlotsAreDirs(Planted(d, root + [n], t), r)
  {
    var g := Planted(d, root + [n], t);
    forall m: Name | r + [m] in g ensures g[r + [m]].Dir? { PlantedSlots(d, root, n, t, r, m); }
  }

  lemma PlantedReady(d: Disk, root: Path, n: Name, t: Disk)
    requires Ready(d) && IsRoot(root) && DirTree(t)
    ensures Ready(Planted(d, root + [n], t))
  {
    assert Parent(root + [n]) == root;
    PlantedShape(d, root + [n], t);
    PlantedRoots(d, root, n, t, SB_ROOT);
    PlantedRoots(d, root, n, t, SNAP_ROOT);
    PlantedDirs(d, root, n, t, SB_ROOT);
    PlantedDirs(d, root, n, t, SNAP_ROOT);
  }

  lemma SlotTree(d: Disk, root: Path, n: Name)
    requires Ready(d) && IsRoot(root) && root + [n] in d
    ensures DirTree(Sub(d, root + [n]))
  {
    SubShape(d, root + [n]);
  }

  /** Clearing a slot and copying another into it is planting the other's tree. */
  lemma ClearThenCopy(d: Disk, root: Path, n: Name, from: Path, m: Name)
    requires Ready(d) && IsRoot(root) && IsRoot(from) && (root != from || n != m) && from + [m] in d
    ensures var (src, dst) := (from + [m], root + [n]);
            var e := Graft(d, dst, map[]);
            && Copyable(e, src, dst) && src in e
            && Copied(e, src, dst) == (Planted(d, dst, Sub(d, src)), Ok(()))
  {
    var (src, dst) := (from + [m], root + [n]);
    var e := Graft(d, dst, map[]);
    RootsApart(from, root, m, n);
    ClearedReady(d, root, n);
    GraftAt(d, dst, map[], src);
    GraftElsewhere(d, dst, map[], src);
    PlantedTwice(d, dst, map[], Sub(d, src));
    assert Parent(dst) == root;
  }

  lemma ClearThenMakeDir(d: Disk, root: Path, n: Name)
    requires Ready(d) && IsRoot(root)
    ensures var (dst, e) := (root + [n], Graft(d, root + [n], map[]));
            CanMakeDirs(e, dst) && WithDirs(e, dst) == Planted(d, dst, EMPTY_DIR)
  {
    var dst := root + [n];
    var e := Graft(d, dst, map[]);
    ClearedReady(d, root, n);
    assert Parent(dst) == root;
    MakeDirAtDst(e, dst);
    PlantedTwice(d, dst, map[], EMPTY_DIR);
    forall q | q in e && q <= dst ensures e[q].Dir? { ParentPrefix(q, dst); }
  }

  /** After the old snapshot is cleared, either branch of snapshot() plants the tree it should. */
  lemma SnapshotSource(d: Disk, uid: Uid, id: string)
    requires ValidId(id)
    ensures SnapDir(id).Ok? && (SbDir(uid) in Graft(d, SnapDir(id).value, map[]) <==> SbDir(uid) in d)
  {
    RootsApart(SB_ROOT, SNAP_ROOT, uid, id);
    GraftAt(d, SnapDir(id).value, map[], SbDir(uid));
  }

  lemma SnapshotCopies(d: Disk, uid: Uid, id: string)
    requires Ready(d) && ValidId(id) && SbDir(uid) in d
    ensures var (src, dst) := (SbDir(uid), SnapDir(id).value);
            var e := Graft(d, dst, map[]);
            Copyable(e, src, dst) && Copied(e, src, dst) == SnapshotOf(d, uid, id)
    ensures Ready(SnapshotOf(d, uid, id).0)
  {
    ClearThenCopy(d, SNAP_ROOT, id, SB_ROOT, uid);
    SlotTree(d, SB_ROOT, uid);
    PlantedReady(d, SNAP_ROOT, id, Sub(d, SbDir(uid)));
  }

  lemma EmptyDirTree()
    ensures DirTree(EMPTY_DIR)
  {
  }

  lemma SnapshotOfNothing(d: Disk, uid: Uid, id: string)
    requires Ready(d) && ValidId(id) && SbDir(uid) !in d
    ensures var dst := SnapDir(id).value;
            var e := Graft(d, dst, map[]);
            CanMakeDirs(e, dst) && SnapshotOf(d, uid, id) == (WithDirs(e, dst), Ok(()))
    ensures Ready(SnapshotOf(d, uid, id).0)
  {
    var dst := SNAP_ROOT + [SegmentOf(id)];
    ClearThenMakeDir(d, SNAP_ROOT, id);
    EmptyDirTree();
    PlantedReady(d, SNAP_ROOT, id, EMPTY_DIR);
    assert SnapshotOf(d, uid, id) == (Planted(d, dst, EMPTY_DIR), Ok(()));
  }

  // ---------------------------------------------------------------- the calls

  method TakeSnapshot(disk: Storage, uid: Uid, id: string) returns (r: Result<()>)
    requires Ready(disk.nodes)
    modifies disk
    ensures Ready(disk.nodes) && (disk.nodes, r) == SnapshotOf(old(disk.nodes), uid, id)
  {
    var dir := SnapDir(id);
    if dir.Err? { return Err(dir.errno); }
    var (src, dst) := (SbDir(uid), dir.value);
    SnapshotSource(disk.nodes, uid, id);
    if src in disk.nodes { SnapshotCopies(disk.nodes, uid, id); } else { SnapshotOfNothing(disk.nodes, uid, id); }
    disk.RemoveDirAll(dst);
    if src !in disk.nodes {
      disk.CreateDirAll(dst);
      return Ok(());
    }
    r := disk.CopyTree(src, dst);
  }

  method Rollback(disk: Storage, uid: Uid, id: string) returns (r: Result<()>)
    requires Ready(disk.nodes)
    modifies disk
    ensures Ready(disk.nodes) && (disk.nodes, r) == Restored(old(disk.nodes), id, uid)
  {
    var dir := SnapDir(id);
    if dir.Err? { return Err(dir.errno); }
    var (src, dst) := (dir.value, SbDir(uid));
    if src !in disk.nodes { return Err(NOENT); }
    ghost var d := disk.nodes;
    ClearThenCopy(d, SB_ROOT, uid, SNAP_ROOT, id);
    SlotTree(d, SNAP_ROOT, id);
    PlantedReady(d, SB_ROOT, uid, Sub(d, src));
    disk.RemoveDirAll(dst);
    r := disk.CopyTree(src, dst);
  }

  /** Branching is a rollback of the new sandbox. */
  method Branch(disk: Storage, id: string, newUid: Uid) returns (r: Result<()>)
    requires Ready(disk.nodes)
    modifies disk
    ensures Ready(disk.nodes) && (disk.nodes, r) == Restored(old(disk.nodes), id, newUid)
  {
    r := Rollback(disk, newUid, id);
  }

  method Fork(disk: Storage, srcUid: Uid, newUid: Uid) returns (r: Result<()>)
    requires Ready(disk.nodes)
    modifies disk
    ensures Ready(disk.nodes) && (disk.nodes, r) == ForkOf(old(disk.nodes), srcUid, newUid)
  {
    var (src, dst) := (SbDir(srcUid), SbDir(newUid));
    ghost var d := disk.nodes;
    ClearedReady(d, SB_ROOT, newUid);
    disk.RemoveDirAll(dst);
    if srcUid != newUid {
      RootsApart(SB_ROOT, SB_ROOT, srcUid, newUid);
      GraftAt(d, dst, map[], src);
    }
    if src !in disk.nodes { return Ok(()); }
    ClearThenCopy(d, SB_ROOT, newUid, SB_ROOT, srcUid);
    SlotTree(d, SB_ROOT, srcUid);
    PlantedReady(d, SB_ROOT, newUid, Sub(d, src));
    r := disk.CopyTree(src, dst);
  }

  method Delete(disk: Storage, id: string) returns (r: Result<bool>)
    requires Ready(disk.nodes)
    modifies disk
    ensures Ready(disk.nodes) && (disk.nodes, r) == Deleted(old(disk.nodes), id)
  {
    var dir := SnapDir(id);
    if dir.Err? { return Err(dir.errno); }
    if dir.value !in disk.nodes { return Ok(false); }
    ClearedReady(disk.nodes, SNAP_ROOT, id);
    disk.RemoveDirAll(dir.value);
    r := Ok(true);
  }

  // ---------------------------------------------------------------- the simple store

  /** One overlay tree per sandbox, one tree per snapshot id; a missing key is a missing directory. */
  datatype Store = Store(overlays: map<Name, Disk>, snaps: map<Name, Disk>)

  datatype Op =
    | GuestWrites(uid: Uid, overlay: Disk)
    | CleanUp(uid: Uid)
    | DoSnapshot(uid: Uid, id: string)
    | DoRestore(id: string, uid: Uid)
    | DoFork(src: Uid, to: Uid)
    | DoDelete(id: string)

  function StoreStep(s: Store, op: Op): Store {
    match op
    case GuestWrites(u, t) => s.(overlays := s.overlays[u := t])
    case CleanUp(u) => s.(overlays := s.overlays - {u})
    case DoSnapshot(u, id) =>
      if !ValidId(id) then s
      else s.(snaps := s.snaps[SegmentOf(id) := if u in s.overlays then s.overlays[u] else EMPTY_DIR])
    case DoRestore(id, u) =>
      if !ValidId(id) || SegmentOf(id) !in s.snaps then s
      else s.(overlays := s.overlays[u := s.snaps[SegmentOf(id)]])
    case DoFork(a, b) =>
      if a != b && a in s.overlays then s.(overlays := s.overlays[b := s.overlays[a]])
      else s.(overlays := s.overlays - {b})
    case DoDelete(id) => if ValidId(id) then s.(snaps := s.snaps - {SegmentOf(id)}) else s
  }

  /** A sandboxed guest leaves its overlay directory a directory tree. */
  ghost predicate Lawful(op: Op) { op.GuestWrites? ==> DirTree(op.overlay) }

  /** The same step on the disk. */
  function DiskStep(d: Disk, op: Op): Disk {
    match op
    case GuestWrites(u, t) => Planted(d, SbDir(u), t)
    case CleanUp(u) => Graft(d, SbDir(u), map[])
    case DoSnapshot(u, id) => SnapshotOf(d, u, id).0
    case DoRestore(id, u) => Restored(d, id, u).0
    case DoFork(a, b) => ForkOf(d, a, b).0
    case DoDelete(id) => Deleted(d, id).0
  }

  /** m holds the trees in the slots of a root. */
  ghost predicate SlotsAre(d: Disk, root: Path, m: map<Name, Disk>) { forall n: Name :: SlotIs(d, root, m, n) }

  ghost predicate SlotIs(d: Disk, root: Path, m: map<Name, Disk>, n: Name) {
    (n in m <==> root + [n] in d) && (n in m ==> m[n] == Sub(d, root + [n]))
  }

  /** The disk holds exactly the trees of the store. */
  ghost predicate Shows(d: Disk, s: Store) {
    SlotsAre(d, SB_ROOT, s.overlays) && SlotsAre(d, SNAP_ROOT, s.snaps)
  }

  function Slots(d: Disk, root: Path): map<Name, Disk> {
    map n | n in Entries(d, root) :: Sub(d, root + [n])
  }

  lemma SlotsThere(d: Disk, root: Path)
    ensures SlotsAre(d, root, Slots(d, root))
  {
    forall n: Name ensures SlotIs(d, root, Slots(d, root), n) {
      if n in Entries(d, root) {
        var q :| q in d && |q| == |root| + 1 && root <= q && q[|root|] == n;
        assert q == root + [n];
      }
      if root + [n] in d { assert (root + [n])[|root|] == n; }
    }
  }

  /** Every disk shows one store. */
  lemma SomeStore(d: Disk) returns (s: Store)
    ensures Shows(d, s)
  {
    SlotsThere(d, SB_ROOT);
    SlotsThere(d, SNAP_ROOT);
    s := Store(Slots(d, SB_ROOT), Slots(d, SNAP_ROOT));
  }

  /** A slot apart from the planted one keeps its tree; so does one apart from a cleared one. */
  lemma OtherSlot(d: Disk, root: Path, n: Name, t: Disk, r: Path, m: Name)
    requires Ready(d) && IsRoot(root) && IsRoot(r) && (r != root || m != n)
    ensures Sub(Planted(d, root + [n], t), r + [m]) == Sub(d, r + [m])
    ensures Sub(Graft(d, root + [n], map[]), r + [m]) == Sub(d, r + [m])
    ensures r + [m] in Planted(d, root + [n], t) <==> r + [m] in d
    ensures r + [m] in Graft(d, root + [n], map[]) <==> r + [m] in d
  {
    var dst := root + [n];
    RootsApart(r, root, m, n);
    assert Parent(dst) == root;
    PlantedElsewhere(d, dst, t, r + [m]);
    GraftElsewhere(d, dst, map[], r + [m]);
    GraftAt(WithDirs(d, root), dst, t, r + [m]);
    GraftAt(d, dst, map[], r + [m]);
    WithDirsAt(d, root, r + [m]);
  }

  lemma SlotFilled(d: Disk, root: Path, n: Name, t: Disk)
    requires Ready(d) && IsRoot(root) && DirTree(t)
    ensures root + [n] in Planted(d, root + [n], t) && Sub(Planted(d, root + [n], t), root + [n]) == t
  {
    var dst := root + [n];
    assert Parent(dst) == root;
    PlantedShape(d, dst, t);
    SubAt(Planted(d, dst, t), dst, []);
    assert dst + [] == dst;
  }

  lemma PlantedSlotIs(d: Disk, root: Path, n: Name, t: Disk, r: Path, m: map<Name, Disk>, k: Name)
    requires Ready(d) && IsRoot(root) && IsRoot(r) && DirTree(t) && SlotIs(d, r, m, k)
    ensures SlotIs(Planted(d, root + [n], t), r, if r == root then m[n := t] else m, k)
  {
    if r == root && k == n { SlotFilled(d, root, n, t); } else { OtherSlot(d, root, n, t, r, k); }
  }

  lemma PlantedSlotsAre(d: Disk, root: Path, n: Name, t: Disk, r: Path, m: map<Name, Disk>)
    requires Ready(d) && IsRoot(root) && IsRoot(r) && DirTree(t) && SlotsAre(d, r, m)
    ensures SlotsAre(Planted(d, root + [n], t), r, if r == root then m[n := t] else m)
  {
    var (g, after) := (Planted(d, root + [n], t), if r == root then m[n := t] else m);
    forall k: Name ensures SlotIs(g, r, after, k) {
      assert SlotIs(d, r, m, k);
      PlantedSlotIs(d, root, n, t, r, m, k);
    }
  }

  lemma ClearedSlotIs(d: Disk, root: Path, n: Name, r: Path, m: map<Name, Disk>, k: Name)
    requires Ready(d) && IsRoot(root) && IsRoot(r) && SlotIs(d, r, m, k)
    ensures SlotIs(Graft(d, root + [n], map[]), r, if r == root then m - {n} else m, k)
  {
    if r == root && k == n { ClearedReady(d, root, n); } else { OtherSlot(d, root, n, map[], r, k); }
  }

  lemma ClearedSlotsAre(d: Disk, root: Path, n: Name, r: Path, m: map<Name, Disk>)
    requires Ready(d) && IsRoot(root) && IsRoot(r) && SlotsAre(d, r, m)
    ensures SlotsAre(Graft(d, root + [n], map[]), r, if r == root then m - {n} else m)
  {
    var (g, after) := (Graft(d, root + [n], map[]), if r == root then m - {n} else m);
    forall k: Name ensures SlotIs(g, r, after, k) {
      assert SlotIs(d, r, m, k);
      ClearedSlotIs(d, root, n, r, m, k);
    }
  }

  /** Planting fills one slot of one root. */
  lemma PlantRefines(d: Disk, s: Store, root: Path, n: Name, t: Disk)
    requires Ready(d) && IsRoot(root) && DirTree(t) && Shows(d, s)
    ensures Ready(Planted(d, root + [n], t))
    ensures Shows(Planted(d, root + [n], t),
                  if root == SB_ROOT then s.(overlays := s.overlays[n := t]) else s.(snaps := s.snaps[n := t]))
  {
    PlantedReady(d, root, n, t);
    PlantedSlotsAre(d, root, n, t, SB_ROOT, s.overlays);
    PlantedSlotsAre(d, root, n, t, SNAP_ROOT, s.snaps);
    assert SB_ROOT[2] != SNAP_ROOT[2];
  }

  /** Clearing empties one. */
  lemma ClearRefines(d: Disk, s: Store, root: Path, n: Name)
    requires Ready(d) && IsRoot(root) && Shows(d, s)
    ensures Ready(Graft(d, root + [n], map[]))
    ensures Shows(Graft(d, root + [n], map[]),
                  if root == SB_ROOT then s.(overlays := s.overlays - {n}) else s.(snaps := s.snaps - {n}))
  {
    ClearedReady(d, root, n);
    ClearedSlotsAre(d, root, n, SB_ROOT, s.overlays);
    ClearedSlotsAre(d, root, n, SNAP_ROOT, s.snaps);
    assert SB_ROOT[2] != SNAP_ROOT[2];
  }

  lemma SnapPlanted(d: Disk, s: Store, n: Name, t: Disk)
    requires Ready(d) && DirTree(t) && Shows(d, s)
    ensures Ready(Planted(d, SNAP_ROOT + [n], t))
    ensures Shows(Planted(d, SNAP_ROOT + [n], t), s.(snaps := s.snaps[n := t]))
  {
    PlantRefines(d, s, SNAP_ROOT, n, t);
  }

  lemma SnapCleared(d: Disk, s: Store, n: Name)
    requires Ready(d) && Shows(d, s)
    ensures Ready(Graft(d, SNAP_ROOT + [n], map[]))
    ensures Shows(Graft(d, SNAP_ROOT + [n], map[]), s.(snaps := s.snaps - {n}))
  {
    ClearRefines(d, s, SNAP_ROOT, n);
  }

  lemma SnapshotAnswers(d: Disk, s: Store, uid: Uid, id: string, t: Disk)
    requires ValidId(id) && Shows(d, s)
    requires t == if SbDir(uid) in d then Sub(d, SbDir(uid)) else EMPTY_DIR
    ensures SnapshotOf(d, uid, id).0 == Planted(d, SNAP_ROOT + [SegmentOf(id)], t)
    ensures StoreStep(s, DoSnapshot(uid, id)) == s.(snaps := s.snaps[SegmentOf(id) := t])
  {
    assert SlotIs(d, SB_ROOT, s.overlays, uid);
  }

  lemma SnapshotRefines(d: Disk, s: Store, uid: Uid, id: string)
    requires Ready(d) && ValidId(id) && Shows(d, s)
    ensures Ready(SnapshotOf(d, uid, id).0)
    ensures Shows(SnapshotOf(d, uid, id).0, StoreStep(s, DoSnapshot(uid, id)))
  {
    var t := if SbDir(uid) in d then Sub(d, SbDir(uid)) else EMPTY_DIR;
    if SbDir(uid) in d { SlotTree(d, SB_ROOT, uid); }
    SnapPlanted(d, s, id, t);
    SnapshotAnswers(d, s, uid, id, t);
  }

  lemma RestoreAnswers(d: Disk, s: Store, id: string, uid: Uid)
    requires ValidId(id) && Shows(d, s)
    ensures var n := SegmentOf(id);
            if n in s.snaps then
              && SNAP_ROOT + [n] in d && Sub(d, SNAP_ROOT + [n]) == s.snaps[n]
              && Restored(d, id, uid) == (Planted(d, SB_ROOT + [uid], s.snaps[n]), Ok(()))
              && StoreStep(s, DoRestore(id, uid)) == s.(overlays := s.overlays[uid := s.snaps[n]])
            else Restored(d, id, uid) == (d, Err(NOENT)) && StoreStep(s, DoRestore(id, uid)) == s
  {
    assert SlotIs(d, SNAP_ROOT, s.snaps, SegmentOf(id));
  }

  lemma RestoreRefines(d: Disk, s: Store, id: string, uid: Uid)
    requires Ready(d) && ValidId(id) && Shows(d, s)
    ensures Ready(Restored(d, id, uid).0)
    ensures Shows(Restored(d, id, uid).0, StoreStep(s, DoRestore(id, uid)))
    ensures Restored(d, id, uid).1 == if SegmentOf(id) in s.snaps then Ok(()) else Err(NOENT)
  {
    var n := SegmentOf(id);
    RestoreAnswers(d, s, id, uid);
    if n in s.snaps {
      SlotTree(d, SNAP_ROOT, n);
      PlantRefines(d, s, SB_ROOT, uid, s.snaps[n]);
    }
  }

  lemma ForkRefines(d: Disk, s: Store, src: Uid, to: Uid)
    requires Ready(d) && Shows(d, s)
    ensures Ready(ForkOf(d, src, to).0)
    ensures Shows(ForkOf(d, src, to).0, StoreStep(s, DoFork(src, to)))
  {
    assert SlotIs(d, SB_ROOT, s.overlays, src);
    if src != to && SbDir(src) in d {
      SlotTree(d, SB_ROOT, src);
      PlantRefines(d, s, SB_ROOT, to, Sub(d, SbDir(src)));
      assert StoreStep(s, DoFork(src, to)) == s.(overlays := s.overlays[to := Sub(d, SbDir(src))]);
    } else {
      ClearRefines(d, s, SB_ROOT, to);
      assert StoreStep(s, DoFork(src, to)) == s.(overlays := s.overlays - {to});
    }
  }

  lemma DeleteAnswers(d: Disk, s: Store, id: string)
    requires ValidId(id) && Shows(d, s)
    ensures Deleted(d, id).1 == Ok(SegmentOf(id) in s.snaps)
    ensures Deleted(d, id).0 == if SegmentOf(id) in s.snaps then Graft(d, SNAP_ROOT + [SegmentOf(id)], map[]) else d
  {
    assert SlotIs(d, SNAP_ROOT, s.snaps, SegmentOf(id));
  }

  lemma StoreDeleted(s: Store, id: string)
    requires ValidId(id)
    ensures StoreStep(s, DoDelete(id)) ==
            if SegmentOf(id) in s.snaps then s.(snaps := s.snaps - {SegmentOf(id)}) else s
  {
    if SegmentOf(id) !in s.snaps { assert s.snaps - {SegmentOf(id)} == s.snaps; }
  }

  lemma DeleteRefines(d: Disk, s: Store, id: string)
    requires Ready(d) && ValidId(id) && Shows(d, s)
    ensures Ready(Deleted(d, id).0)
    ensures Shows(Deleted(d, id).0, StoreStep(s, DoDelete(id)))
  {
    DeleteAnswers(d, s, id);
    StoreDeleted(s, id);
    if SegmentOf(id) in s.snaps { SnapCleared(d, s, SegmentOf(id)); }
  }

  /** Every call on the disk is its one map update on the store. */
  lemma StepRefines(d: Disk, s: Store, op: Op)
    requires Ready(d) && Shows(d, s) && Lawful(op)
    ensures Ready(DiskStep(d, op)) && Shows(DiskStep(d, op), StoreStep(s, op))
  {
    match op
    case GuestWrites(u, t) => PlantRefines(d, s, SB_ROOT, u, t);
    case CleanUp(u) => ClearRefines(d, s, SB_ROOT, u);
    case DoSnapshot(u, id) => if ValidId(id) { SnapshotRefines(d, s, u, id); }
    case DoRestore(id, u) => if ValidId(id) { RestoreRefines(d, s, id, u); }
    case DoFork(a, b) => ForkRefines(d, s, a, b);
    case DoDelete(id) => if ValidId(id) { DeleteRefines(d, s, id); }
  }

  // ---------------------------------------------------------------- answers

  function Answer(r: Result<()>): Result<bool> {
    match r
    case Ok(_) => Ok(true)
    case Err(e) => Err(e)
  }

  function DiskAnswer(d: Disk, op: Op): Result<bool> {
    match op
    case DoSnapshot(u, id) => Answer(SnapshotOf(d, u, id).1)
    case DoRestore(id, u) => Answer(Restored(d, id, u).1)
    case DoFork(a, b) => Answer(ForkOf(d, a, b).1)
    case DoDelete(id) => Deleted(d, id).1
    case _ => Ok(true)
  }

  /** What the store says: an id that is no plain segment is refused, a restore needs the snapshot, a deletion
      tells whether there was one, and nothing else fails. */
  function StoreAnswer(s: Store, op: Op): Result<bool> {
    if (op.DoSnapshot? || op.DoRestore? || op.DoDelete?) && !ValidId(op.id) then Err(INVAL)
    else if op.DoRestore? && SegmentOf(op.id) !in s.snaps then Err(NOENT)
    else if op.DoDelete? then Ok(SegmentOf(op.id) in s.snaps)
    else Ok(true)
  }

  lemma AnswersAlike(d: Disk, s: Store, op: Op)
    requires Ready(d) && Shows(d, s)
    ensures DiskAnswer(d, op) == StoreAnswer(s, op)
  {
    match op
    case DoRestore(id, u) => if ValidId(id) { RestoreAnswers(d, s, id, u); }
    case DoDelete(id) => if ValidId(id) { DeleteAnswers(d, s, id); }
    case _ =>
  }

  /** A call that fails changes nothing. */
  lemma FailsUnchanged(d: Disk, op: Op)
    requires DiskAnswer(d, op).Err?
    ensures DiskStep(d, op) == d
  {
  }

  // ---------------------------------------------------------------- whole runs

  function DiskRun(d: Disk, ops: seq<Op>): Disk
    decreases |ops|
  {
    if ops == [] then d else DiskRun(DiskStep(d, ops[0]), ops[1..])
  }

  function StoreRun(s: Store, ops: seq<Op>): Store
    decreases |ops|
  {
    if ops == [] then s else StoreRun(StoreStep(s, ops[0]), ops[1..])
  }

  function DiskAnswers(d: Disk, ops: seq<Op>): seq<Result<bool>>
    decreases |ops|
  {
    if ops == [] then [] else [DiskAnswer(d, ops[0])] + DiskAnswers(DiskStep(d, ops[0]), ops[1..])
  }

  function StoreAnswers(s: Store, ops: seq<Op>): seq<Result<bool>>
    decreases |ops|
  {
    if ops == [] then [] else [StoreAnswer(s, ops[0])] + StoreAnswers(StoreStep(s, ops[0]), ops[1..])
  }

  ghost predicate AllLawful(ops: seq<Op>) { forall op :: op in ops ==> Lawful(op) }

  lemma {:induction false} RunRefines(d: Disk, s: Store, ops: seq<Op>)
    requires Ready(d) && Shows(d, s) && AllLawful(ops)
    ensures Ready(DiskRun(d, ops)) && Shows(DiskRun(d, ops), StoreRun(s, ops))
    ensures DiskAnswers(d, ops) == StoreAnswers(s, ops)
    decreases |ops|
  {
    if ops != [] {
      StepRefines(d, s, ops[0]);
      AnswersAlike(d, s, ops[0]);
      RunRefines(DiskStep(d, ops[0]), StoreStep(s, ops[0]), ops[1..]);
    }
  }

  /** The calls that write a sandbox's overlay, and those that write a snapshot. */
  predicate WritesOverlay(op: Op, uid: Uid) {
    match op
    case GuestWrites(u, _) => u == uid
    case CleanUp(u) => u == uid
    case DoRestore(_, u) => u == uid
    case DoFork(_, b) => b == uid
    case _ => false
  }

  predicate WritesSnapshot(op: Op, id: string) {
    (op.DoSnapshot? || op.DoDelete?) && op.id == id
  }

  lemma OverlayKept(s: Store, op: Op, uid: Uid)
    requires !WritesOverlay(op, uid)
    ensures uid in StoreStep(s, op).overlays <==> uid in s.overlays
    ensures uid in s.overlays ==> StoreStep(s, op).overlays[uid] == s.overlays[uid]
  {
  }

  lemma {:induction false} UntouchedOverlay(s: Store, ops: seq<Op>, uid: Uid)
    requires forall op :: op in ops ==> !WritesOverlay(op, uid)
    ensures uid in StoreRun(s, ops).overlays <==> uid in s.overlays
    ensures uid in s.overlays ==> StoreRun(s, ops).overlays[uid] == s.overlays[uid]
    decreases |ops|
  {
    if ops != [] {
      OverlayKept(s, ops[0], uid);
      UntouchedOverlay(StoreStep(s, ops[0]), ops[1..], uid);
    }
  }

  lemma SnapshotKept(s: Store, op: Op, id: string)
    requires ValidId(id) && !WritesSnapshot(op, id)
    ensures SegmentOf(id) in StoreStep(s, op).snaps <==> SegmentOf(id) in s.snaps
    ensures SegmentOf(id) in s.snaps ==> StoreStep(s, op).snaps[SegmentOf(id)] == s.snaps[SegmentOf(id)]
  {
  }

  lemma {:induction false} UntouchedSnapshot(s: Store, ops: seq<Op>, id: string)
    requires ValidId(id)
    requires forall op :: op in ops ==> !WritesSnapshot(op, id)
    ensures SegmentOf(id) in StoreRun(s, ops).snaps <==> SegmentOf(id) in s.snaps
    ensures SegmentOf(id) in s.snaps ==> StoreRun(s, ops).snaps[SegmentOf(id)] == s.snaps[SegmentOf(id)]
    decreases |ops|
  {
    if ops != [] {
      SnapshotKept(s, ops[0], id);
      UntouchedSnapshot(StoreStep(s, ops[0]), ops[1..], id);
    }
  }

  /** The overlay tree of a sandbox; nothing if it never wrote. */
  function OverlayTree(d: Disk, uid: Uid): Disk { Sub(d, SbDir(uid)) }

  lemma OverlayShown(d: Disk, s: Store, uid: Uid)
    requires Ready(d) && Shows(d, s)
    ensures uid in s.overlays <==> SbDir(uid) in d
    ensures OverlayTree(d, uid) == if uid in s.overlays then s.overlays[uid] else map[]
  {
    assert SlotIs(d, SB_ROOT, s.overlays, uid);
    SubShape(d, SbDir(uid));
  }

  lemma StoreRestored(s: Store, id: string, target: Uid)
    requires ValidId(id) && SegmentOf(id) in s.snaps
    ensures target in StoreStep(s, DoRestore(id, target)).overlays
    ensures StoreStep(s, DoRestore(id, target)).overlays[target] == s.snaps[SegmentOf(id)]
  {
  }

  lemma RestoreGives(d: Disk, s: Store, id: string, target: Uid)
    requires Ready(d) && Shows(d, s) && ValidId(id) && SegmentOf(id) in s.snaps
    ensures Restored(d, id, target).1 == Ok(())
    ensures OverlayTree(Restored(d, id, target).0, target) == s.snaps[SegmentOf(id)]
  {
    RestoreRefines(d, s, id, target);
    StoreRestored(s, id, target);
    OverlayShown(Restored(d, id, target).0, StoreStep(s, DoRestore(id, target)), target);
  }

  lemma StoreSnapshot(s: Store, uid: Uid, id: string)
    requires ValidId(id)
    ensures var after := StoreStep(s, DoSnapshot(uid, id)).snaps;
            SegmentOf(id) in after
            && after[SegmentOf(id)] == if uid in s.overlays then s.overlays[uid] else EMPTY_DIR
  {
  }

  /** Rolling back, or branching, after any run that leaves the snapshot id alone gives exactly the
      overlay of the moment the snapshot was taken; a sandbox that had none gets an empty directory. */
  lemma RollbackRestores(d: Disk, uid: Uid, id: string, ops: seq<Op>, target: Uid)
    requires Ready(d) && ValidId(id) && AllLawful(ops)
    requires forall op :: op in ops ==> !WritesSnapshot(op, id)
    ensures var later := DiskRun(SnapshotOf(d, uid, id).0, ops);
            && Restored(later, id, target).1 == Ok(())
            && OverlayTree(Restored(later, id, target).0, target)
                 == if SbDir(uid) in d then OverlayTree(d, uid) else EMPTY_DIR
  {
    var s := SomeStore(d);
    var (d1, s1) := (SnapshotOf(d, uid, id).0, StoreStep(s, DoSnapshot(uid, id)));
    OverlayShown(d, s, uid);
    StoreSnapshot(s, uid, id);
    SnapshotRefines(d, s, uid, id);
    RunRefines(d1, s1, ops);
    UntouchedSnapshot(s1, ops, id);
    RestoreGives(DiskRun(d1, ops), StoreRun(s1, ops), id, target);
  }

  /** Whatever happens to other sandboxes and to snapshots, a sandbox's overlay stays. */
  lemma OthersDoNotMatter(d: Disk, uid: Uid, ops: seq<Op>)
    requires Ready(d) && AllLawful(ops)
    requires forall op :: op in ops ==> !WritesOverlay(op, uid)
    ensures OverlayTree(DiskRun(d, ops), uid) == OverlayTree(d, uid)
  {
    var s := SomeStore(d);
    RunRefines(d, s, ops);
    UntouchedOverlay(s, ops, uid);
    OverlayShown(d, s, uid);
    OverlayShown(DiskRun(d, ops), StoreRun(s, ops), uid);
  }

  lemma {:induction false} DeletedStays(s: Store, ops: seq<Op>, id: string)
    requires ValidId(id) && SegmentOf(id) !in s.snaps && forall op :: op in ops ==> !(op.DoSnapshot? && op.id == id)
    ensures SegmentOf(id) !in StoreRun(s, ops).snaps
    decreases |ops|
  {
    if ops != [] { DeletedStays(StoreStep(s, ops[0]), ops[1..], id); }
  }

  /** A deleted snapshot cannot be restored until one is taken again under its id. */
  lemma DeletedIsGone(d: Disk, id: string, ops: seq<Op>, target: Uid)
    requires Ready(d) && ValidId(id) && AllLawful(ops) && forall op :: op in ops ==> !(op.DoSnapshot? && op.id == id)
    ensures var later := DiskRun(Deleted(d, id).0, ops);
            Restored(later, id, target) == (later, Err(NOENT))
  {
    var s := SomeStore(d);
    var (d1, s1) := (Deleted(d, id).0, StoreStep(s, DoDelete(id)));
    DeleteRefines(d, s, id);
    RunRefines(d1, s1, ops);
    DeletedStays(s1, ops, id);
    RestoreAnswers(DiskRun(d1, ops), StoreRun(s1, ops), id, target);
  }

  lemma StoreForked(s: Store, src: Uid, to: Uid)
    requires src != to
    ensures var after := StoreStep(s, DoFork(src, to)).overlays;
            && (to in after <==> src in s.overlays) && (src in after <==> src in s.overlays)
            && (src in s.overlays ==> after[to] == s.overlays[src] && after[src] == s.overlays[src])
  {
  }

  lemma OverlayAfterFork(d: Disk, s: Store, src: Uid, to: Uid, u: Uid)
    requires Ready(d) && Shows(d, s)
    ensures var after := StoreStep(s, DoFork(src, to)).overlays;
            OverlayTree(ForkOf(d, src, to).0, u) == if u in after then after[u] else map[]
  {
    ForkRefines(d, s, src, to);
    OverlayShown(ForkOf(d, src, to).0, StoreStep(s, DoFork(src, to)), u);
  }

  lemma ForkGives(d: Disk, s: Store, src: Uid, to: Uid, u: Uid)
    requires Ready(d) && Shows(d, s) && src != to && (u == src || u == to)
    ensures OverlayTree(ForkOf(d, src, to).0, u) == if src in s.overlays then s.overlays[src] else map[]
  {
    StoreForked(s, src, to);
    OverlayAfterFork(d, s, src, to, u);
  }

  /** A fork copies the source and leaves it alone. */
  lemma ForkCopies(d: Disk, src: Uid, to: Uid)
    requires Ready(d) && src != to
    ensures OverlayTree(ForkOf(d, src, to).0, to) == OverlayTree(d, src)
    ensures OverlayTree(ForkOf(d, src, to).0, src) == OverlayTree(d, src)
  {
    var s := SomeStore(d);
    OverlayShown(d, s, src);
    ForkGives(d, s, src, to, src);
    ForkGives(d, s, src, to, to);
  }

  /** A fork leaves the source's overlay alone exactly when the target is another sandbox, or there
      was nothing to lose: forking a sandbox onto itself wipes it. */
  lemma ForkExact(d: Disk, src: Uid, to: Uid)
    requires Ready(d)
    ensures OverlayTree(ForkOf(d, src, to).0, src) == OverlayTree(d, src) <==> src != to || SbDir(src) !in d
  {
    if src != to {
      ForkCopies(d, src, to);
    } else {
      var s := SomeStore(d);
      OverlayAfterFork(d, s, src, to, src);
      SubShape(d, SbDir(src));
    }
  }

  /** After a fork to a new sandbox, any run on one side leaves the other as it was at the fork. */
  lemma ForkIsolates(d: Disk, src: Uid, to: Uid, ops: seq<Op>, kept: Uid)
    requires Ready(d) && src != to && AllLawful(ops) && (kept == src || kept == to)
    requires forall op :: op in ops ==> !WritesOverlay(op, kept)
    ensures OverlayTree(DiskRun(ForkOf(d, src, to).0, ops), kept) == OverlayTree(d, src)
  {
    var s := SomeStore(d);
    ForkCopies(d, src, to);
    ForkRefines(d, s, src, to);
    OthersDoNotMatter(ForkOf(d, src, to).0, kept, ops);
  }
}
