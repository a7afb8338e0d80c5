/** Runs of overlay calls against the same calls on one plain file map: the exact condition, on the
    layers before each call, for view and answer to be those of the plain map. */
module OverlayRuns {
  import opened FileData
  import opened Results
  import opened Paths
  import opened Whiteouts
  import opened Overlay

  /** A call's answer: an open gives what it opened. */
  type Answer = Result<Option<Node>>

  function Opened(r: Result<Node>): Answer {
    match r
    case Ok(n) => Ok(Some(n))
    case Err(e) => Err(e)
  }

  function Did(r: Result<()>): Answer {
    match r
    case Ok(_) => Ok(None)
    case Err(e) => Err(e)
  }

  lemma OpenedInjective(a: Result<Node>, b: Result<Node>)
    ensures Opened(a) == Opened(b) <==> a == b
  {
  }

  lemma DidInjective(a: Result<()>, b: Result<()>)
    ensures Did(a) == Did(b) <==> a == b
  {
    if a.Ok? && b.Ok? { assert a.value == b.value; }
  }

  function Answered(f: Fs, op: Op): Answer {
    match op
    case OpOpen(p, flags) => Opened(Openat(f, p, flags).1)
    case OpMake(p, n) => Did(Make(f, p, n).1)
    case OpUnlink(p, removeDir) => Did(Unlinkat(f, p, removeDir).1)
    case OpRename(src, dst, noReplace) => Did(Renameat(f, src, dst, noReplace).1)
    case OpWrite(p, bytes) => Ok(None)
    case OpStat(p, nofollow) => Opened(Stat(f, p, nofollow))
    case OpAccess(p, existence) => Did(Access(f, p, existence))
  }

  // ---------------------------------------------------------------- the calls on one plain map

  function NativeMake(v: Layer, p: Path, n: Node): (Layer, Result<()>) {
    if p in v then (v, Err(EXIST))
    else if Rooted(v, p) then (v[p := n], Ok(()))
    else (v, Err(Missing(v, p)))
  }

  ghost predicate HasBelow(v: Layer, p: Path) { exists q :: q in v && Below(p, q) }

  /** unlink(2) and rmdir(2): a link is not a directory, a directory must be empty, the root stays. */
  ghost function NativeUnlink(v: Layer, p: Path, removeDir: bool): (Layer, Result<()>) {
    if p !in v then (v, Err(Missing(v, p)))
    else if removeDir then
      if !v[p].Dir? then (v, Err(NOTDIR))
      else if p == [] then (v, Err(BUSY))
      else if HasBelow(v, p) then (v, Err(NOTEMPTY))
      else (v - {p}, Ok(()))
    else if v[p].Dir? then (v, Err(ISDIR))
    else (v - {p}, Ok(()))
  }

  /** rename(2) on a file system that leaves moving directories to the caller, as Linux's overlayfs does. */
  function NativeRename(v: Layer, src: Path, dst: Path, noReplace: bool): (Layer, Result<()>) {
    if src !in v then (v, Err(Missing(v, src)))
    else if v[src].Dir? then (v, Err(XDEV))
    else if dst in v && noReplace then (v, Err(EXIST))
    else if dst in v && v[dst].Dir? then (v, Err(ISDIR))
    else if dst !in v && !Rooted(v, dst) then (v, Err(Missing(v, dst)))
    else (Move(v, src, dst), Ok(()))
  }

  function NativeWrite(v: Layer, p: Path, bytes: seq<Byte>): Layer {
    if p in v && v[p].File? then v[p := File(bytes)] else v
  }

  /** fstatat(2): the node there, or what it leads to. */
  function NativeStat(v: Layer, p: Path, nofollow: bool): Result<Node> {
    if p in v then Looked(v[p], nofollow) else Err(Missing(v, p))
  }

  ghost function NativeStep(v: Layer, op: Op): (Layer, Answer) {
    match op
    case OpOpen(p, flags) => var (w, r) := NativeOpen(v, p, flags); (w, Opened(r))
    case OpMake(p, n) => var (w, r) := NativeMake(v, p, n); (w, Did(r))
    case OpUnlink(p, removeDir) => var (w, r) := NativeUnlink(v, p, removeDir); (w, Did(r))
    case OpRename(src, dst, noReplace) => var (w, r) := NativeRename(v, src, dst, noReplace); (w, Did(r))
    case OpWrite(p, bytes) => (NativeWrite(v, p, bytes), Ok(None))
    case OpStat(p, nofollow) => (v, Opened(NativeStat(v, p, nofollow)))
    case OpAccess(p, _) => (v, Did(Reachable(v, p)))
  }

  // ---------------------------------------------------------------- openat

  /** A creating open of a node kept in a layer gives an empty file. */
  predicate EmptyAfter(n: Node, flags: OpenFlags) { n.File? && !flags.excl && (flags.trunc || n.bytes == []) }

  /** No layer keeps content under p that a creating open would bring back, or stumble over. */
  predicate NoOldContent(f: Fs, p: Path, flags: OpenFlags) {
    if p in f.upper then EmptyAfter(f.upper[p], flags)
    else p in f.host ==> Copied(f.host[p]).Ok? && EmptyAfter(Copied(f.host[p]).value, flags)
  }

  /** On the plain map too the path is not found, with no file in its way. */
  predicate SaysNotFound(f: Fs, p: Path) { Missing(View(f), p) == NOENT }

  ghost predicate OpensAsPlain(f: Fs, p: Path, flags: OpenFlags) {
    if Visible(f, p) then OpensPlainly(f, p, flags)
    else if flags.creat then
      if AncestorIn(f.tombs, p) then SaysNotFound(f, p)
      else NoOldContent(f, p, flags) && ParentsVisible(f, p) && NothingResurfaces(f, p)
    else if Hidden(f, p) then SaysNotFound(f, p)
    else if Mutates(flags) then ParentsVisible(f, p)
    else Missing(View(f), p) == Missing(f.host, p)
  }

  lemma ParentsCanBeMade(f: Fs, p: Path)
    requires ParentsVisible(f, p)
    ensures CanMakeParents(f.upper, p) && Rooted(View(f), p) && SaysNotFound(f, p)
  {
    forall k | 0 <= k < |p| && p[..k] in View(f) ensures View(f)[p[..k]] == Dir { assert p[..k] in Ancestors(p); }
    forall k | 0 <= k < |p| && p[..k] in f.upper ensures f.upper[p[..k]].Dir? {
      assert p[..k] in Ancestors(p);
    }
    if p != [] { assert Parent(p) in Ancestors(p); }
  }

  /** Parents made for an open that then fails show unless they were there. */
  lemma ParentsShow(f: Fs, p: Path)
    requires !Hidden(f, p) && CanMakeParents(f.upper, p)
    requires View(f.(upper := WithParents(f.upper, p))) == View(f)
    ensures ParentsVisible(f, p)
  {
    var g := f.(upper := WithParents(f.upper, p));
    forall a | a in Ancestors(p) ensures Visible(f, a) && NodeAt(f, a) == Dir {
      var k :| 0 <= k < |p| && a == p[..k];
      PrefixOfUnhidden(f.tombs, p, k);
      assert a in View(g) && View(g)[a] == Dir;
      assert a in View(f);
    }
  }

  /** The overlay's open shows and answers what open(2) does on the plain map. */
  ghost predicate OpenatAlike(f: Fs, p: Path, flags: OpenFlags) {
    (View(Openat(f, p, flags).0), Openat(f, p, flags).1) == NativeOpen(View(f), p, flags)
  }

  lemma OpenMissingExact(f: Fs, p: Path, flags: OpenFlags)
    requires !Visible(f, p) && !flags.creat
    ensures OpenatAlike(f, p, flags) <==> OpensAsPlain(f, p, flags)
  {
    assert NativeOpen(View(f), p, flags) == (View(f), Err(Missing(View(f), p)));
    if !Hidden(f, p) && Mutates(flags) {
      if ParentsVisible(f, p) {
        ParentsCanBeMade(f, p);
        ParentsUnseen(f, p);
      } else if CanMakeParents(f.upper, p) && View(f.(upper := WithParents(f.upper, p))) == View(f) {
        ParentsShow(f, p);
      }
    }
  }

  lemma NotRooted(f: Fs, p: Path)
    requires AncestorIn(f.tombs, p)
    ensures !Rooted(View(f), p) && p !in View(f)
  {
    var k :| 0 <= k < |p| && p[..k] in f.tombs;
    HiddenByPrefix(f.tombs, Parent(p));
    assert p[..k] <= Parent(p);
  }

  /** With nothing kept and the parents there, a creating open succeeds with an empty file. */
  lemma FreshOpens(f: Fs, p: Path, flags: OpenFlags)
    requires Good(f) && !Visible(f, p) && flags.creat
    requires NoOldContent(f, p, flags) && ParentsVisible(f, p)
    ensures Openat(f, p, flags).1 == Ok(File([])) && Reopened(f, p, flags) == File([])
  {
    ParentsCanBeMade(f, p);
    NoAncestorHidden(f, p);
  }

  /** And only then does it succeed and leave an empty file. */
  lemma OldContentShows(f: Fs, p: Path, flags: OpenFlags)
    requires Good(f) && !Visible(f, p) && flags.creat && Openat(f, p, flags).1.Ok?
    requires Reopened(f, p, flags) == File([])
    ensures NoOldContent(f, p, flags)
  {
  }

  lemma HostParentRooted(f: Fs, p: Path)
    requires Good(f) && p in f.host && p != [] && CanMakeParents(f.upper, p) && !AncestorIn(f.tombs, p)
    ensures Rooted(View(f), p)
  {
    var d := Parent(p);
    assert d == p[..|p| - 1] && d !in f.tombs;
    forall k | 0 <= k < |d| ensures d[..k] !in f.tombs { assert d[..k] == p[..k]; }
    assert Visible(f, d) && NodeAt(f, d).Dir?;
  }

  /** A creating open that gives NOENT without a hidden ancestor stopped at a dangling host link,
      whose directory the guest sees. */
  lemma CreateNotFound(f: Fs, p: Path, flags: OpenFlags)
    requires Good(f) && !Visible(f, p) && flags.creat && !AncestorIn(f.tombs, p)
    requires Openat(f, p, flags).1 == Err(NOENT)
    ensures Rooted(View(f), p)
  {
    assert p in f.host && CanMakeParents(f.upper, p);
    if p != [] { HostParentRooted(f, p); }
  }

  lemma OpenCreatedExact(f: Fs, p: Path, flags: OpenFlags)
    requires Good(f) && !Visible(f, p) && flags.creat && !AncestorIn(f.tombs, p) && Openat(f, p, flags).1.Ok?
    ensures OpenatAlike(f, p, flags) <==>
            NoOldContent(f, p, flags) && ParentsVisible(f, p) && NothingResurfaces(f, p)
  {
    OpenCreatesExact(f, p, flags);
    if Reopened(f, p, flags) == File([]) { OldContentShows(f, p, flags); }
    if ParentsVisible(f, p) {
      ParentsCanBeMade(f, p);
      if NoOldContent(f, p, flags) { FreshOpens(f, p, flags); }
    }
  }

  lemma OpenRefusedExact(f: Fs, p: Path, flags: OpenFlags)
    requires Good(f) && !Visible(f, p) && flags.creat && !AncestorIn(f.tombs, p) && Openat(f, p, flags).1.Err?
    ensures !OpenatAlike(f, p, flags) && !(NoOldContent(f, p, flags) && ParentsVisible(f, p))
  {
    if Openat(f, p, flags).1 == Err(NOENT) { CreateNotFound(f, p, flags); }
    if NoOldContent(f, p, flags) && ParentsVisible(f, p) { FreshOpens(f, p, flags); }
  }

  lemma OpenCreatingExact(f: Fs, p: Path, flags: OpenFlags)
    requires Good(f) && !Visible(f, p) && flags.creat
    ensures OpenatAlike(f, p, flags) <==> OpensAsPlain(f, p, flags)
  {
    if AncestorIn(f.tombs, p) {
      NotRooted(f, p);
    } else if Openat(f, p, flags).1.Ok? {
      OpenCreatedExact(f, p, flags);
    } else {
      OpenRefusedExact(f, p, flags);
    }
  }

  lemma OpenExact(f: Fs, p: Path, flags: OpenFlags)
    requires Good(f)
    ensures OpenatAlike(f, p, flags) <==> OpensAsPlain(f, p, flags)
  {
    if Visible(f, p) {
      OpenVisibleExact(f, p, flags);
    } else if flags.creat {
      OpenCreatingExact(f, p, flags);
    } else {
      OpenMissingExact(f, p, flags);
    }
  }

  // ---------------------------------------------------------------- mkdirat, symlinkat

  ghost predicate MakesAsPlain(f: Fs, p: Path) {
    Visible(f, p) || (p !in f.upper && ParentsVisible(f, p) && NothingResurfaces(f, p))
  }

  lemma MakeExact(f: Fs, p: Path, n: Node)
    ensures (View(Make(f, p, n).0), Make(f, p, n).1) == NativeMake(View(f), p, n) <==> MakesAsPlain(f, p)
  {
    if !Visible(f, p) {
      if ParentsVisible(f, p) {
        NoAncestorHidden(f, p);
        ParentsCanBeMade(f, p);
      }
      if Make(f, p, n).1.Ok? { MakeRefines(f, p, n); }
    }
  }

  // ---------------------------------------------------------------- unlinkat

  ghost predicate UnlinksAsPlain(f: Fs, p: Path, removeDir: bool) {
    if !Visible(f, p) then SaysNotFound(f, p)
    else
      && !(NodeAt(f, p).Link? && IsDir(NodeAt(f, p)))
      && (IsDir(NodeAt(f, p)) == removeDir ==> !HasBelow(View(f), p) && (removeDir ==> p != []))
  }

  lemma MinusLeaf(v: Layer, p: Path)
    ensures Minus(v, p) == v - {p} <==> !HasBelow(v, p)
  {
    if HasBelow(v, p) {
      var q :| q in v && Below(p, q);
      assert q in v - {p} && q !in Minus(v, p);
    } else {
      forall q | q in v ensures p <= q <==> q == p {}
    }
  }

  lemma UnlinkExact(f: Fs, p: Path, removeDir: bool)
    requires Good(f)
    ensures (View(Unlinkat(f, p, removeDir).0), Unlinkat(f, p, removeDir).1) == NativeUnlink(View(f), p, removeDir)
            <==> UnlinksAsPlain(f, p, removeDir)
  {
    UnlinkRefines(f, p, removeDir);
    MinusLeaf(View(f), p);
    assert Visible(f, p) ==> p in View(f) && View(f)[p] == NodeAt(f, p);
  }

  // ---------------------------------------------------------------- renameat

  /** Neither end is a directory or leads to one, the copy-up has its parents, the upper layer keeps
      no directory at dst, and the move is `Clean`. */
  ghost predicate MovesAsPlain(f: Fs, src: Path, dst: Path)
    requires Visible(f, src)
  {
    && !IsDir(NodeAt(f, src)) && (Visible(f, dst) ==> !IsDir(NodeAt(f, dst)))
    && (src in f.upper || CanMakeParents(f.upper, src))
    && !(dst in f.upper && f.upper[dst].Dir?)
    && Clean(f, src, dst)
  }

  ghost predicate RenamesAsPlain(f: Fs, src: Path, dst: Path, noReplace: bool) {
    if !Visible(f, src) then SaysNotFound(f, src)
    else if NodeAt(f, src).Dir? then true
    else if Visible(f, dst) && noReplace then !IsDir(NodeAt(f, src))
    else MovesAsPlain(f, src, dst)
  }

  /** The copy-up of such a move succeeds, and so do the parents of its target. */
  lemma TargetReady(f: Fs, src: Path, dst: Path)
    requires Good(f) && Visible(f, src) && MovesAsPlain(f, src, dst)
    ensures CopyUp(f, src).1.Ok? && CanMakeParents(CopyUp(f, src).0.upper, dst)
  {
    CopyUpAt(f, src);
    var g := CopyUp(f, src).0;
    if src == dst {
      ParentsThere(g.upper, dst);
    } else {
      assert src !in Ancestors(dst);
      SameConditions(f, g, src, dst);
      ParentsCanBeMade(g, dst);
    }
  }

  lemma UpperMoves(g: Fs, src: Path, dst: Path)
    requires src in g.upper && CanMakeParents(g.upper, dst) && !(dst in g.upper && g.upper[dst].Dir?)
    ensures MoveUpper(g, src, dst).1.Ok?
  {
    assert dst !in Ancestors(dst) by { forall k | 0 <= k < |dst| ensures dst[..k] != dst {} }
  }

  /** Such a move succeeds. */
  lemma MoveSucceeds(f: Fs, src: Path, dst: Path, noReplace: bool)
    requires Good(f) && Visible(f, src) && !(Visible(f, dst) && noReplace) && MovesAsPlain(f, src, dst)
    ensures Renameat(f, src, dst, noReplace).1.Ok?
  {
    TargetReady(f, src, dst);
    var g := CopyUp(f, src).0;
    assert src in g.upper;
    if dst in g.upper && g.upper[dst].Dir? { NewDirectoryHolds(f, src, dst); }
    UpperMoves(g, src, dst);
    assert Renameat(f, src, dst, noReplace) == MoveUpper(g, src, dst);
  }

  /** A directory the copy-up adds is an ancestor of src. */
  lemma NewDirectoryHolds(f: Fs, src: Path, dst: Path)
    requires Good(f) && Visible(f, src) && !IsDir(NodeAt(f, src))
    requires dst in CopyUp(f, src).0.upper && CopyUp(f, src).0.upper[dst].Dir?
    requires !(dst in f.upper && f.upper[dst].Dir?)
    ensures Visible(f, dst) && IsDir(NodeAt(f, dst))
  {
    CopyUpAt(f, src);
    assert dst in Ancestors(src);
    var k :| 0 <= k < |src| && dst == src[..k];
    PrefixOfUnhidden(f.tombs, src, k);
    HostParents(f, src);
  }

  /** The probes let the call go on. */
  ghost predicate NotRefused(f: Fs, src: Path, dst: Path, noReplace: bool) {
    Visible(f, src) && !IsDir(NodeAt(f, src)) && (Visible(f, dst) ==> !noReplace && !IsDir(NodeAt(f, dst)))
  }

  lemma CleanTarget(f: Fs, src: Path, dst: Path)
    requires Visible(f, src) && Clean(f, src, dst)
    ensures dst in View(f) || Rooted(View(f), dst)
  {
    if src != dst { ParentsCanBeMade(f, dst); }
  }

  lemma RenameNotRefused(f: Fs, src: Path, dst: Path, noReplace: bool)
    requires NotRefused(f, src, dst, noReplace)
    ensures var v := View(f);
            src in v && NativeRename(v, src, dst, noReplace) ==
              if dst in v || Rooted(v, dst) then (Move(v, src, dst), Ok(())) else (v, Err(Missing(v, dst)))
    ensures Renameat(f, src, dst, noReplace).1 != Err(NOENT) && Renameat(f, src, dst, noReplace).1 != Err(NOTDIR)
    ensures RenamesAsPlain(f, src, dst, noReplace) <==> MovesAsPlain(f, src, dst)
  {
    assert dst in View(f) <==> Visible(f, dst);
  }

  lemma RenameDoneExact(f: Fs, src: Path, dst: Path, noReplace: bool)
    requires Good(f) && NotRefused(f, src, dst, noReplace) && Renameat(f, src, dst, noReplace).1.Ok?
    ensures (View(Renameat(f, src, dst, noReplace).0), Renameat(f, src, dst, noReplace).1)
              == NativeRename(View(f), src, dst, noReplace)
            <==> MovesAsPlain(f, src, dst)
  {
    RenameNotRefused(f, src, dst, noReplace);
    RenameExact(f, src, dst, noReplace);
    if Clean(f, src, dst) { CleanTarget(f, src, dst); }
  }

  lemma RenameAsPlainExact(f: Fs, src: Path, dst: Path, noReplace: bool)
    requires Good(f)
    ensures (View(Renameat(f, src, dst, noReplace).0), Renameat(f, src, dst, noReplace).1)
              == NativeRename(View(f), src, dst, noReplace)
            <==> RenamesAsPlain(f, src, dst, noReplace)
  {
    if !NotRefused(f, src, dst, noReplace) {
    } else {
      RenameNotRefused(f, src, dst, noReplace);
      if Renameat(f, src, dst, noReplace).1.Ok? {
        RenameDoneExact(f, src, dst, noReplace);
      } else if MovesAsPlain(f, src, dst) {
        MoveSucceeds(f, src, dst, noReplace);
      }
    }
  }

  // ---------------------------------------------------------------- writes

  /** The file written to was opened for writing: the upper layer has it. */
  predicate WritesAsPlain(f: Fs, p: Path, bytes: seq<Byte>) {
    Visible(f, p) && NodeAt(f, p).File? && p !in f.upper ==> NodeAt(f, p) == File(bytes)
  }

  lemma WriteExact(f: Fs, p: Path, bytes: seq<Byte>)
    ensures View(WriteUpper(f, p, bytes)) == NativeWrite(View(f), p, bytes) <==> WritesAsPlain(f, p, bytes)
  {
    WriteRefines(f, p, bytes);
    if Visible(f, p) && NodeAt(f, p).File? && p !in f.upper {
      assert NativeWrite(View(f), p, bytes)[p] == File(bytes);
      if NodeAt(f, p) == File(bytes) { assert View(f)[p := File(bytes)] == View(f); }
    }
  }

  // ---------------------------------------------------------------- stat and faccessat

  /** A path in view always answers alike; a missing one if both maps call it missing in the same way. */
  predicate StatsAsPlain(f: Fs, p: Path) {
    if Visible(f, p) then true
    else if Hidden(f, p) then SaysNotFound(f, p)
    else Missing(View(f), p) == Missing(f.host, p)
  }

  lemma StatExact(f: Fs, p: Path, nofollow: bool)
    ensures Stat(f, p, nofollow) == NativeStat(View(f), p, nofollow) <==> StatsAsPlain(f, p)
  {
    StatIsView(f, p, nofollow);
    if Visible(f, p) { assert p in View(f) && View(f)[p] == NodeAt(f, p); }
  }

  predicate Dangling(n: Node) { n.Link? && n.leads.Nowhere? }

  /** For existence no dangling link; for any other mode the host's path and the one in view must both lead
      somewhere, or neither. */
  predicate AccessesAsPlain(f: Fs, p: Path, existence: bool) {
    if !Visible(f, p) then SaysNotFound(f, p)
    else if existence then !Dangling(NodeAt(f, p))
    else if Dangling(NodeAt(f, p)) then if p in f.host then Dangling(f.host[p]) else Missing(f.host, p) == NOENT
    else p in f.host && !Dangling(f.host[p])
  }

  lemma AccessExact(f: Fs, p: Path, existence: bool)
    ensures Access(f, p, existence) == Reachable(View(f), p) <==> AccessesAsPlain(f, p, existence)
  {
    AccessIsView(f, p);
    if Visible(f, p) { assert p in View(f) && View(f)[p] == NodeAt(f, p); }
  }

  // ---------------------------------------------------------------- one call, and whole runs

  /** The exact condition, on the layers before the call. */
  ghost predicate AsPlain(f: Fs, op: Op) {
    match op
    case OpOpen(p, flags) => OpensAsPlain(f, p, flags)
    case OpMake(p, n) => MakesAsPlain(f, p)
    case OpUnlink(p, removeDir) => UnlinksAsPlain(f, p, removeDir)
    case OpRename(src, dst, noReplace) => RenamesAsPlain(f, src, dst, noReplace)
    case OpWrite(p, bytes) => WritesAsPlain(f, p, bytes)
    case OpStat(p, _) => StatsAsPlain(f, p)
    case OpAccess(p, existence) => AccessesAsPlain(f, p, existence)
  }

  /** A call acts and answers as on the plain map of what the guest sees if and only if `AsPlain` holds. */
  lemma StepExact(f: Fs, op: Op)
    requires Good(f)
    ensures (View(Apply(f, op)), Answered(f, op)) == NativeStep(View(f), op) <==> AsPlain(f, op)
  {
    var v := View(f);
    match op
    case OpOpen(p, flags) =>
      OpenExact(f, p, flags);
      OpenedInjective(Openat(f, p, flags).1, NativeOpen(v, p, flags).1);
    case OpMake(p, n) =>
      MakeExact(f, p, n);
      DidInjective(Make(f, p, n).1, NativeMake(v, p, n).1);
    case OpUnlink(p, removeDir) =>
      UnlinkExact(f, p, removeDir);
      DidInjective(Unlinkat(f, p, removeDir).1, NativeUnlink(v, p, removeDir).1);
    case OpRename(src, dst, noReplace) =>
      RenameAsPlainExact(f, src, dst, noReplace);
      DidInjective(Renameat(f, src, dst, noReplace).1, NativeRename(v, src, dst, noReplace).1);
    case OpWrite(p, bytes) => WriteExact(f, p, bytes);
    case OpStat(p, nofollow) =>
      StatExact(f, p, nofollow);
      OpenedInjective(Stat(f, p, nofollow), NativeStat(v, p, nofollow));
    case OpAccess(p, existence) =>
      AccessExact(f, p, existence);
      DidInjective(Access(f, p, existence), Reachable(v, p));
  }

  /** Each call of the run meets its condition when it comes. */
  ghost predicate AllAsPlain(f: Fs, ops: seq<Op>)
    decreases |ops|
  {
    ops != [] ==> AsPlain(f, ops[0]) && AllAsPlain(Apply(f, ops[0]), ops[1..])
  }

  /** The overlay and the plain map, run side by side, never show or answer differently. */
  ghost predicate SideBySide(f: Fs, v: Layer, ops: seq<Op>)
    decreases |ops|
  {
    && View(f) == v
    && (ops != [] ==>
          && Answered(f, ops[0]) == NativeStep(v, ops[0]).1
          && SideBySide(Apply(f, ops[0]), NativeStep(v, ops[0]).0, ops[1..]))
  }

  ghost function NativeAll(v: Layer, ops: seq<Op>): Layer
    decreases |ops|
  {
    if ops == [] then v else NativeAll(NativeStep(v, ops[0]).0, ops[1..])
  }

  /** A whole run is indistinguishable from the same run on one plain map if and only if every call
      in it meets its condition. */
  lemma {:induction false} RunExact(f: Fs, ops: seq<Op>)
    requires Good(f)
    ensures SideBySide(f, View(f), ops) <==> AllAsPlain(f, ops)
    decreases |ops|
  {
    if ops != [] {
      var op := ops[0];
      StepExact(f, op);
      ApplyKeepsGood(f, op);
      if AsPlain(f, op) {
        RunExact(Apply(f, op), ops[1..]);
      } else if Answered(f, op) == NativeStep(View(f), op).1 {
        assert View(Apply(f, op)) != NativeStep(View(f), op).0;
      }
    }
  }

  /** In particular the guest ends up seeing the plain map's result. */
  lemma {:induction false} RunRefines(f: Fs, ops: seq<Op>)
    requires Good(f) && AllAsPlain(f, ops)
    ensures View(ApplyAll(f, ops)) == NativeAll(View(f), ops)
    decreases |ops|
  {
    if ops != [] {
      StepExact(f, ops[0]);
      ApplyKeepsGood(f, ops[0]);
      RunRefines(Apply(f, ops[0]), ops[1..]);
    }
  }
}
