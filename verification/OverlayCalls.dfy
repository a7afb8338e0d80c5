/** The system-call handlers over the overlay: each updates the upper layer and the whiteout strings
    step by step, and is proved to compute the state and answer of its function in `Overlay`. */
module OverlayCalls {
  import opened FileData
  import opened Results
  import opened Paths
  import opened Whiteouts
  import opened Overlay

  class VirtState {
    const host: Layer
    var upper: Layer
    const tombstones: Tombstones

    ghost predicate Valid()
      reads this, tombstones
    {
      tombstones.Valid()
    }

    ghost function State(): Fs
      reads this, tombstones
    {
      Fs(host, upper, tombstones.view)
    }

    /** A fresh sandbox: an upper layer holding only its root, no tombstone. */
    constructor (host: Layer)
      ensures Valid() && fresh(tombstones) && State() == Fs(host, map[[] := Dir], {})
    {
      this.host := host;
      upper := map[[] := Dir];
      tombstones := new Tombstones();
    }

    predicate GuestPathExists(p: Path)
      reads this
    {
      p in upper || p in host
    }

    predicate IsGuestDir(p: Path)
      reads this
    {
      if p in upper then IsDir(upper[p]) else p in host && IsDir(host[p])
    }

    // -------------------------------------------------------------- what the host kernel does in the upper layer

    method CreateParentDirs(p: Path) returns (ok: bool)
      modifies this`upper
      ensures ok == CanMakeParents(old(upper), p)
      ensures upper == if ok then WithParents(old(upper), p) else old(upper)
    {
      ok := forall k :: 0 <= k < |p| ==> p[..k] in upper ==> upper[p[..k]].Dir?;
      if ok { upper := WithParents(upper, p); }
    }

    /** The kernel's open of a path in the upper layer, a link followed to what it leads to. */
    method OpenReal(p: Path, flags: OpenFlags) returns (r: Result<Node>)
      requires p in upper
      modifies this`upper
      ensures Valid() == old(Valid()) && (State(), r) == OpenUpper(old(State()), p, flags)
    {
      var (after, answer) := OpenNode(upper[p], flags);
      upper := upper[p := after];
      r := answer;
    }

    /** Copy a host path into the upper layer; the target is created before the source is read. */
    method CopyFile(p: Path) returns (r: Result<()>)
      requires p in host
      modifies this`upper
      ensures match Copied(host[p])
              case Ok(n) => r == Ok(()) && upper == old(upper)[p := n]
              case Err(e) => r == Err(e) && upper == if e == ISDIR then old(upper)[p := File([])] else old(upper)
    {
      match Copied(host[p])
      case Ok(n) => upper := upper[p := n]; r := Ok(());
      case Err(e) => if e == ISDIR { upper := upper[p := File([])]; } r := Err(e);
    }

    // -------------------------------------------------------------- openat

    method OpenCow(p: Path, flags: OpenFlags) returns (r: Result<Node>)
      requires Valid()
      modifies this`upper
      ensures Valid() && (State(), r) == CowOpen(old(State()), p, flags)
    {
      if p in upper {
        r := OpenReal(p, flags);
      } else if flags.write || flags.creat || flags.trunc {
        var made := CreateParentDirs(p);
        if !made { return Err(IO); }
        if p in host {
          var copied := CopyFile(p);
          if copied.Err? { return Err(copied.errno); }
        } else if !flags.creat {
          return Err(NOENT);
        } else {
          upper := upper[p := File([])];
          return Ok(File([]));
        }
        r := OpenReal(p, flags);
      } else if p in host {
        r := OpenNode(host[p], flags).1;
      } else {
        r := Err(Missing(host, p));
      }
    }

    method SysOpenat(p: Path, flags: OpenFlags) returns (r: Result<Node>)
      requires Valid()
      modifies this`upper, tombstones
      ensures Valid() && (State(), r) == Openat(old(State()), p, flags)
    {
      var path := Render(p);
      var under := tombstones.IsAncestorTombstoned(path, p);
      if under { return Err(NOENT); }
      var gone := tombstones.IsTombstoned(path, p);
      if gone {
        if !flags.creat { return Err(NOENT); }
        tombstones.Remove(path, p);
      }
      r := OpenCow(p, flags);
    }

    // -------------------------------------------------------------- stat, faccessat, mkdirat, symlinkat, unlinkat

    method VisiblePath(p: Path) returns (yes: bool)
      requires Valid()
      ensures yes == Visible(State(), p)
    {
      var hidden := HiddenPath(p);
      return !hidden && GuestPathExists(p);
    }

    /** A tombstone on the path, or on an ancestor. */
    method HiddenPath(p: Path) returns (yes: bool)
      requires Valid()
      ensures yes == Hidden(State(), p)
    {
      var path := Render(p);
      var gone := tombstones.IsTombstoned(path, p);
      if gone { return true; }
      yes := tombstones.IsAncestorTombstoned(path, p);
    }

    method SysStat(p: Path, nofollow: bool) returns (r: Result<Node>)
      requires Valid()
      ensures r == Stat(State(), p, nofollow)
    {
      var hidden := HiddenPath(p);
      if hidden { return Err(NOENT); }
      if p in upper { return Looked(upper[p], nofollow); }
      return if p in host then Looked(host[p], nofollow) else Err(Missing(host, p));
    }

    method SysFaccessat(p: Path, existence: bool) returns (r: Result<()>)
      requires Valid()
      ensures r == Access(State(), p, existence)
    {
      var hidden := HiddenPath(p);
      if hidden { return Err(NOENT); }
      if !GuestPathExists(p) { return Err(NOENT); }
      return if existence then Ok(()) else Reachable(host, p);
    }

    method SysMake(p: Path, n: Node) returns (r: Result<()>)
      requires Valid()
      modifies this`upper, tombstones
      ensures Valid() && (State(), r) == Make(old(State()), p, n)
    {
      var path := Render(p);
      ghost var was := State();
      var gone := tombstones.IsTombstoned(path, p);
      if gone {
        tombstones.Remove(path, p);
      } else {
        if GuestPathExists(p) { return Err(EXIST); }
        assert was.tombs - {p} == was.tombs;
      }
      var made := CreateParentDirs(p);
      if !made { return Err(IO); }
      if p in upper { return Err(EXIST); }
      upper := upper[p := n];
      r := Ok(());
    }

    method RemoveReal(p: Path, dir: bool)
      modifies this`upper
      ensures upper == Removed(old(upper), p, dir)
    {
      if p == [] || p !in upper { return; }
      if dir != upper[p].Dir? { return; }
      if dir && exists q :: q in upper && Below(p, q) { return; }
      upper := upper - {p};
    }

    method SysUnlinkat(p: Path, removeDir: bool) returns (r: Result<()>)
      requires Valid()
      modifies this`upper, tombstones
      ensures Valid() && (State(), r) == Unlinkat(old(State()), p, removeDir)
    {
      var path := Render(p);
      var visible := VisiblePath(p);
      if !visible { return Err(NOENT); }
      var isDir := IsGuestDir(p);
      if removeDir && !isDir { return Err(NOTDIR); }
      if !removeDir && isDir { return Err(ISDIR); }
      if removeDir { tombstones.RemoveChildren(path, p); }
      tombstones.Add(path, p);
      RemoveReal(p, removeDir);
      r := Ok(());
    }

    // -------------------------------------------------------------- renameat

    /** Whether a path is visible, and whether it is a directory. */
    method RenameProbe(p: Path) returns (visible: bool, isDir: bool)
      requires Valid()
      ensures visible == Visible(State(), p)
      ensures isDir == (Exists(State(), p) && IsDir(NodeAt(State(), p)))
    {
      visible := VisiblePath(p);
      isDir := IsGuestDir(p);
    }

    method Materialize(src: Path) returns (r: Result<()>)
      requires Valid() && Exists(State(), src) && !IsDir(NodeAt(State(), src))
      modifies this`upper
      ensures Valid() && (State(), r) == CopyUp(old(State()), src)
    {
      if src in upper { return Ok(()); }
      var made := CreateParentDirs(src);
      if !made { return Err(IO); }
      var copied := CopyFile(src);
      r := if copied.Ok? then Ok(()) else Err(IO);
    }

    method RenameReal(src: Path, dst: Path) returns (r: Result<()>)
      requires src in upper
      modifies this`upper
      ensures dst in old(upper) && old(upper)[dst].Dir? ==> r == Err(ISDIR) && upper == old(upper)
      ensures !(dst in old(upper) && old(upper)[dst].Dir?) ==>
                r == Ok(()) && upper == if src == dst then old(upper) else old(upper)[dst := old(upper)[src]] - {src}
    {
      if dst in upper && upper[dst].Dir? { return Err(ISDIR); }
      if src != dst { upper := upper[dst := upper[src]] - {src}; }
      r := Ok(());
    }

    method SysRenameat(src: Path, dst: Path, noReplace: bool) returns (r: Result<()>)
      requires Valid()
      modifies this`upper, tombstones
      ensures Valid() && (State(), r) == Renameat(old(State()), src, dst, noReplace)
    {
      var srcVisible, srcIsDir := RenameProbe(src);
      if !srcVisible { return Err(NOENT); }
      if srcIsDir { return Err(XDEV); }
      var dstVisible, dstIsDir := RenameProbe(dst);
      if dstVisible {
        if noReplace { return Err(EXIST); }
        if dstIsDir { return Err(XDEV); }
      }
      r := Materialize(src);
      if r.Err? { return; }
      var made := CreateParentDirs(dst);
      if !made { return Err(IO); }
      r := RenameReal(src, dst);
      if r.Err? { return; }
      tombstones.Add(Render(src), src);
      tombstones.Remove(Render(dst), dst);
    }
  }
}
