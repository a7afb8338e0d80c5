/** The supervisor's virtual FD table beside the guest's kernel fd table.

    A handler changes the virtual table, may install fds in the guest with addfd, and then
    either answers the call itself or lets the kernel run it. `Handle` is the first half,
    `KernelRun` the second, `Step` the whole call. `Related` is what keeps the two tables
    telling the same story. */
module FdProtocol {
  import opened Results

  const I32_MAX: int := 0x7fff_ffff
  const U32_RANGE: int := 0x1_0000_0000
  const CLOSE_RANGE_UNSHARE: int := 2
  const CLOSE_RANGE_CLOEXEC: int := 4
  const F_DUPFD: int := 0
  const F_GETFD: int := 1
  const F_SETFD: int := 2
  const F_GETFL: int := 3
  const F_SETFL: int := 4
  const F_DUPFD_CLOEXEC: int := 1030

  // ---------------------------------------------------------------- data

  /** An open file: kernel-backed ones name an open file description, synthetic ones do not. */
  datatype File = Kernel(ofd: nat) | Synthetic(content: nat)

  datatype FdEntry = FdEntry(file: File, cloexec: bool)

  /** One slot of the guest's real fd table. */
  datatype GuestFd = GuestFd(ofd: nat, cloexec: bool)

  type Table = map<int, FdEntry>
  type Guest = map<int, GuestFd>

  /** One process: its virtual table, the table's next number, and its kernel table. */
  datatype Proc = Proc(table: Table, next: int, guest: Guest)

  /** A pair call succeeds with two numbers, written to the guest's memory. */
  datatype Reply = Success(value: int) | Pair(first: int, second: int) | Failure(errno: Errno) | Continue

  /** The outcome of one addfd that lets the kernel choose the number. */
  datatype Grant = Granted(fd: int) | Refused

  /** What the kernel decides during one call. */
  datatype Env = Env(
    first: Grant,       // first kernel-numbered addfd
    second: Grant,      // second one (pipe2, socketpair)
    devnull: nat,       // the open file a placeholder would install
    limit: int,         // the guest's descriptor limit: addfd, dup2 and dup3 take targets below it
    pick: int,          // number the kernel picks when it runs the call itself
    execOk: bool,       // a continued execve succeeds
    status: int,        // what the kernel answers to F_GETFL or F_SETFL on the backing fd
    openFlags: int)     // the flags the file was opened with

  datatype Call =
    | Open(file: File, cloexec: bool)
    | Close(fd: int)
    | CloseRange(first: nat, last: nat, flags: nat)
    | Dup(src: int)
    | Dup2(src: int, dst: int)
    | Dup3(src: int, dst: int, cloexec: bool, badFlags: bool)
    | Pipe2(reader: nat, writer: nat, cloexec: bool)
    | NewKernelFd(ofd: nat, cloexec: bool)
    | Socketpair(left: nat, right: nat, cloexec: bool)
    | Fcntl(fd: int, cmd: int, arg: nat)
    | Execve
    | KernelCreate(ofd: nat, cloexec: bool)
    | Ioctl(fd: int, cloexec: bool)     // FIOCLEX, FIONCLEX: run by the kernel, not intercepted

  // ---------------------------------------------------------------- the virtual table

  function Next(next: int, fd: int): int {
    if fd >= next then (if fd == I32_MAX then -I32_MAX - 1 else fd + 1) else next
  }

  function WithoutRange(t: Table, lo: int, hi: int): Table {
    map fd | fd in t && !(lo <= fd <= hi) :: t[fd]
  }

  function CloexecInRange(t: Table, lo: int, hi: int): Table {
    map fd | fd in t :: if lo <= fd <= hi then t[fd].(cloexec := true) else t[fd]
  }

  function WithoutCloexec(t: Table): Table {
    map fd | fd in t && !t[fd].cloexec :: t[fd]
  }

  /** The table of a forked child: every file duplicated, except where the dup failed. */
  function ForkedTable(t: Table, failed: set<int>): Table {
    map fd | fd in t && !(fd in failed && t[fd].file.Kernel?) :: t[fd]
  }

  class FdTable {
    var openFiles: map<int, FdEntry>
    var nextVfd: int

    constructor ()
      ensures openFiles == map[] && nextVfd == 3
    {
      openFiles, nextVfd := map[], 3;
    }

    method Insert(file: File, cloexec: bool) returns (vfd: int)
      modifies this
      ensures vfd == old(nextVfd)
      ensures openFiles == old(openFiles)[vfd := FdEntry(file, cloexec)]
      ensures nextVfd == Next(old(nextVfd), vfd)
    {
      vfd := nextVfd;
      nextVfd := Next(nextVfd, vfd);
      openFiles := openFiles[vfd := FdEntry(file, cloexec)];
    }

    method InsertAt(file: File, vfd: int, cloexec: bool)
      modifies this
      ensures openFiles == old(openFiles)[vfd := FdEntry(file, cloexec)]
      ensures nextVfd == Next(old(nextVfd), vfd)
    {
      nextVfd := Next(nextVfd, vfd);
      openFiles := openFiles[vfd := FdEntry(file, cloexec)];
    }

    method Remove(vfd: int) returns (had: bool)
      modifies this`openFiles
      ensures had == (vfd in old(openFiles))
      ensures openFiles == old(openFiles) - {vfd}
    {
      had := vfd in openFiles;
      openFiles := openFiles - {vfd};
    }

    method RemoveRange(lo: int, hi: int)
      modifies this`openFiles
      ensures openFiles == WithoutRange(old(openFiles), lo, hi)
    {
      var doomed := set fd | fd in openFiles && lo <= fd <= hi;
      openFiles := openFiles - doomed;
    }

    method SetCloexecRange(lo: int, hi: int)
      modifies this`openFiles
      ensures openFiles == CloexecInRange(old(openFiles), lo, hi)
    {
      var todo: set<int> := openFiles.Keys;
      ghost var was := openFiles;
      while todo != {}
        invariant todo <= was.Keys == openFiles.Keys
        invariant forall fd :: fd in todo ==> openFiles[fd] == was[fd]
        invariant forall fd :: fd in was.Keys - todo ==> openFiles[fd] == CloexecInRange(was, lo, hi)[fd]
      {
        assert (forall fd :: fd !in todo) ==> todo == {};
        var fd :| fd in todo;
        if lo <= fd <= hi {
          openFiles := openFiles[fd := openFiles[fd].(cloexec := true)];
        }
        todo := todo - {fd};
      }
    }

    method RemoveCloexec()
      modifies this`openFiles
      ensures openFiles == WithoutCloexec(old(openFiles))
    {
      openFiles := map fd | fd in openFiles && !openFiles[fd].cloexec :: openFiles[fd];
    }

    method SetCloexec(vfd: int, value: bool) returns (had: bool)
      modifies this`openFiles
      ensures had == (vfd in old(openFiles))
      ensures openFiles == if had then old(openFiles)[vfd := old(openFiles)[vfd].(cloexec := value)] else old(openFiles)
    {
      had := vfd in openFiles;
      if had {
        openFiles := openFiles[vfd := openFiles[vfd].(cloexec := value)];
      }
    }

    /** Fork without CLONE_FILES. `failed` are the fds whose duplicate the kernel refuses. */
    method DeepClone(failed: set<int>) returns (child: FdTable)
      ensures fresh(child)
      ensures child.openFiles == ForkedTable(openFiles, failed) && child.nextVfd == nextVfd
    {
      child := new FdTable();
      child.nextVfd := nextVfd;
      var todo: set<int> := openFiles.Keys;
      while todo != {}
        invariant fresh(child) && child.nextVfd == nextVfd
        invariant todo <= openFiles.Keys
        invariant child.openFiles == map fd | fd in ForkedTable(openFiles, failed) && fd !in todo :: openFiles[fd]
      {
        assert (forall fd :: fd !in todo) ==> todo == {};
        var fd :| fd in todo;
        if !(fd in failed && openFiles[fd].file.Kernel?) {
          child.openFiles := child.openFiles[fd := openFiles[fd]];
        }
        todo := todo - {fd};
      }
    }
  }

  // ---------------------------------------------------------------- one call, as a function

  function Ofd(f: File, env: Env): nat {
    if f.Kernel? then f.ofd else env.devnull
  }

  function Track(p: Proc, file: File, vfd: int, cloexec: bool): Proc {
    p.(table := p.table[vfd := FdEntry(file, cloexec)], next := Next(p.next, vfd))
  }

  /** addfd into the guest, then track the file under the number the kernel chose. A refused
      grant falls back to the table's own numbering and installs nothing. */
  function Install(p: Proc, file: File, grant: Grant, cloexec: bool, fallbackCloexec: bool, env: Env): (Proc, int) {
    match grant
    case Granted(fd) =>
      (Track(p.(guest := p.guest[fd := GuestFd(Ofd(file, env), cloexec)]), file, fd, cloexec), fd)
    case Refused => (Track(p, file, p.next, fallbackCloexec), p.next)
  }

  predicate TargetOk(env: Env, dst: int) { 0 <= dst < env.limit }

  function DupOnto(p: Proc, src: int, dst: int, cloexec: bool, forbidEqual: bool, env: Env): (Proc, Reply) {
    if forbidEqual && src == dst then (p, Failure(INVAL))
    else if src !in p.table then (p.(table := p.table - {dst}), Continue)
    else if src == dst then (p, Success(dst))
    else
      var file := p.table[src].file;
      var tracked := Track(p, file, dst, cloexec);
      if file.Kernel? && TargetOk(env, dst)
      then (tracked.(guest := p.guest[dst := GuestFd(file.ofd, cloexec)]), Success(dst))
      else (tracked, Success(dst))
  }

  function Clamp(n: nat): int { if n <= I32_MAX then n else I32_MAX }

  function HasFlag(flags: nat, bit: int): bool requires bit > 0 { (flags / bit) % 2 == 1 }

  function HandleFcntl(p: Proc, fd: int, cmd: int, arg: nat, env: Env): (Proc, Reply) {
    if 0 <= fd <= 2 then (p, Continue)
    else if fd !in p.table then (p, Continue)
    else
      var file := p.table[fd].file;
      if cmd == F_DUPFD || cmd == F_DUPFD_CLOEXEC then
        var cloexec := cmd == F_DUPFD_CLOEXEC;
        var (q, n) := Install(p, file, env.first, cloexec, false, env);
        (q.(table := q.table[n := q.table[n].(cloexec := cloexec)]), Success(n))
      else if cmd == F_GETFD then (p, Success(if p.table[fd].cloexec then 1 else 0))
      else if cmd == F_SETFD then
        (p.(table := p.table[fd := p.table[fd].(cloexec := HasFlag(arg, 1))]),
         if file.Kernel? then Continue else Success(0))
      else if cmd == F_GETFL then (p, Success(if file.Kernel? && env.status >= 0 then env.status else env.openFlags))
      else if cmd == F_SETFL then
        (p, if file.Kernel? && env.status < 0 then Failure(INVAL) else Success(0))
      else if 5 <= cmd <= 11 then (p, Success(0))
      else (p, Failure(INVAL))
  }

  /** The supervisor's half of a call. */
  function Handle(p: Proc, c: Call, env: Env): (Proc, Reply) {
    match c
    case Open(f, cloexec) =>
      var (q, n) := Install(p, f, env.first, cloexec, cloexec, env);
      (q, Success(n))
    case Close(fd) => (p.(table := p.table - {fd}), Continue)
    case CloseRange(first, last, flags) =>
      (p.(table := if HasFlag(flags, CLOSE_RANGE_CLOEXEC) then CloexecInRange(p.table, Clamp(first), Clamp(last))
                   else WithoutRange(p.table, Clamp(first), Clamp(last))), Continue)
    case Dup(src) =>
      if src !in p.table then (p, Continue)
      else
        var (q, n) := Install(p, p.table[src].file, env.first, false, false, env);
        (q, Success(n))
    case Dup2(src, dst) => DupOnto(p, src, dst, false, false, env)
    case Dup3(src, dst, cloexec, badFlags) =>
      if badFlags then (p, Failure(INVAL)) else DupOnto(p, src, dst, cloexec, true, env)
    case Pipe2(r, w, cloexec) =>
      if env.first.Granted? && env.second.Granted? then
        var (q, n) := Install(p, Kernel(r), env.first, cloexec, cloexec, env);
        var (q', m) := Install(q, Kernel(w), env.second, cloexec, cloexec, env);
        (q', Pair(n, m))
      else
        var q := if env.first.Granted? then p.(guest := p.guest[env.first.fd := GuestFd(r, cloexec)]) else p;
        var q' := if env.second.Granted? then q.(guest := q.guest[env.second.fd := GuestFd(w, cloexec)]) else q;
        var t := Track(q', Kernel(r), q'.next, cloexec);
        (Track(t, Kernel(w), t.next, cloexec), Pair(q'.next, t.next))
    case NewKernelFd(ofd, cloexec) =>
      if env.first.Refused? then (p, Failure(IO))
      else
        var (q, n) := Install(p, Kernel(ofd), env.first, cloexec, cloexec, env);
        (q, Success(n))
    case Socketpair(l, r, cloexec) =>
      if env.first.Refused? then (p, Failure(IO))
      else
        var (q, n) := Install(p, Kernel(l), env.first, cloexec, cloexec, env);
        if env.second.Refused? then (q, Failure(IO))
        else
          var (q', m) := Install(q, Kernel(r), env.second, cloexec, cloexec, env);
          (q', Pair(n, m))
    case Fcntl(fd, cmd, arg) => HandleFcntl(p, fd, cmd, arg, env)
    case Execve => (p.(table := WithoutCloexec(p.table)), Continue)
    case KernelCreate(_, _) => (p, Continue)
    case Ioctl(_, _) => (p, Continue)
  }

  // ---------------------------------------------------------------- the kernel

  function GuestWithoutCloexec(g: Guest): Guest {
    map fd | fd in g && !g[fd].cloexec :: g[fd]
  }

  /** close_range in the kernel: 32-bit arguments, EINVAL for unknown flags or an empty range. */
  function KernelCloseRange(g: Guest, first: nat, last: nat, flags: nat): Guest {
    var (lo, hi, f) := (first % U32_RANGE, last % U32_RANGE, flags % U32_RANGE);
    if !KnownFlags(f) || lo > hi then g
    else if HasFlag(f, CLOSE_RANGE_CLOEXEC) then
      map fd | fd in g :: if lo <= fd <= hi then g[fd].(cloexec := true) else g[fd]
    else map fd | fd in g && !(lo <= fd <= hi) :: g[fd]
  }

  predicate KnownFlags(f: nat) {
    f == 0 || f == CLOSE_RANGE_UNSHARE || f == CLOSE_RANGE_CLOEXEC || f == CLOSE_RANGE_UNSHARE + CLOSE_RANGE_CLOEXEC
  }

  function KernelDup(g: Guest, src: int, dst: int, cloexec: bool): Guest {
    if src in g then g[dst := GuestFd(g[src].ofd, cloexec)] else g
  }

  /** What Linux itself does with a call on one fd table; `n` and `m` are the numbers it picks.
      F_DUPFD never takes a number below its argument. */
  function Native(g: Guest, c: Call, n: int, m: int, env: Env): Guest {
    match c
    case Open(f, cloexec) => g[n := GuestFd(Ofd(f, env), cloexec)]
    case Close(fd) => g - {fd}
    case CloseRange(first, last, flags) => KernelCloseRange(g, first, last, flags)
    case Dup(src) => KernelDup(g, src, n, false)
    case Dup2(src, dst) => if TargetOk(env, dst) && src != dst then KernelDup(g, src, dst, false) else g
    case Dup3(src, dst, cloexec, badFlags) =>
      if TargetOk(env, dst) && src != dst && !badFlags then KernelDup(g, src, dst, cloexec) else g
    case Pipe2(r, w, cloexec) => g[n := GuestFd(r, cloexec)][m := GuestFd(w, cloexec)]
    case NewKernelFd(ofd, cloexec) => g[n := GuestFd(ofd, cloexec)]
    case Socketpair(l, r, cloexec) => g[n := GuestFd(l, cloexec)][m := GuestFd(r, cloexec)]
    case Fcntl(fd, cmd, arg) =>
      if fd !in g then g
      else if cmd == F_DUPFD || cmd == F_DUPFD_CLOEXEC then
        if n >= arg then KernelDup(g, fd, n, cmd == F_DUPFD_CLOEXEC) else g
      else if cmd == F_SETFD then g[fd := g[fd].(cloexec := HasFlag(arg, 1))]
      else g
    case Execve => if env.execOk then GuestWithoutCloexec(g) else g
    case KernelCreate(ofd, cloexec) => g[n := GuestFd(ofd, cloexec)]
    case Ioctl(fd, cloexec) => if fd in g then g[fd := g[fd].(cloexec := cloexec)] else g
  }

  /** A whole call: the handler, then the kernel's own run of it if the handler continued. */
  function Step(p: Proc, c: Call, env: Env): Proc {
    var (q, reply) := Handle(p, c, env);
    if reply.Continue? then q.(guest := Native(q.guest, c, env.pick, env.pick, env)) else q
  }

  // ---------------------------------------------------------------- the relation

  predicate Backed(p: Proc, fd: int, floor: nat) {
    fd >= floor && fd in p.table && p.table[fd].file.Kernel?
  }

  predicate Agrees(p: Proc, fd: int)
    requires fd in p.table && p.table[fd].file.Kernel?
  {
    fd in p.guest && p.guest[fd] == GuestFd(p.table[fd].file.ofd, p.table[fd].cloexec)
  }

  /** Every tracked kernel-backed fd from `floor` up is open in the guest, on the same open file and
      with the same close-on-exec flag. */
  ghost predicate RelatedFrom(p: Proc, floor: nat) {
    && (forall fd :: Backed(p, fd, floor) ==> Agrees(p, fd))
    && (forall fd :: fd in p.guest ==> 0 <= fd <= I32_MAX)
  }

  /** What the supervisor relies on; 0 to 2 are left to the kernel. */
  ghost predicate Related(p: Proc) { RelatedFrom(p, 3) }

  predicate Free(g: Guest, fd: int) { fd !in g && 0 <= fd <= I32_MAX }

  /** What the kernel guarantees: the numbers it hands out are free, and two of one call differ. */
  predicate Sane(p: Proc, env: Env) {
    && (env.first.Granted? ==> Free(p.guest, env.first.fd))
    && (env.second.Granted? ==> Free(p.guest, env.second.fd) && env.second != env.first)
    && Free(p.guest, env.pick) && env.limit <= I32_MAX + 1
  }

  /** A slot of the guest holds a file with a flag, or its number is below the floor. */
  predicate Holds(g: Guest, fd: int, ofd: nat, cloexec: bool, floor: nat) {
    fd < floor || (fd in g && g[fd] == GuestFd(ofd, cloexec))
  }

  /** Does close_range act on a number, in the supervisor and in the kernel? */
  predicate SupervisorCovers(first: nat, last: nat, fd: int) { Clamp(first) <= fd <= Clamp(last) }

  predicate KernelCovers(first: nat, last: nat, flags: nat, fd: int) {
    && KnownFlags(flags % U32_RANGE) && first % U32_RANGE <= last % U32_RANGE
    && first % U32_RANGE <= fd <= last % U32_RANGE
  }

  /** close_range treats one number alike on both sides, or differs harmlessly: an entry dropped
      early, or a flag that was set already. */
  predicate RangeSpares(first: nat, last: nat, flags: nat, fd: int, cloexec: bool) {
    if HasFlag(flags, CLOSE_RANGE_CLOEXEC) then
      cloexec || (SupervisorCovers(first, last, fd) <==> KernelCovers(first, last, flags, fd))
    else KernelCovers(first, last, flags, fd) ==> SupervisorCovers(first, last, fd)
  }

  /** A file tracked under the table's own number because addfd was refused. */
  predicate FallbackOk(p: Proc, file: File, grant: Grant, cloexec: bool, floor: nat) {
    grant.Granted? || file.Synthetic? || Holds(p.guest, p.next, file.ofd, cloexec, floor)
  }

  /** The guest after a pipe2 whose two addfd calls went as they did. */
  function PipeGuest(g: Guest, c: Call, env: Env): Guest
    requires c.Pipe2?
  {
    var h := if env.first.Granted? then g[env.first.fd := GuestFd(c.reader, c.cloexec)] else g;
    if env.second.Granted? then h[env.second.fd := GuestFd(c.writer, c.cloexec)] else h
  }

  /** pipe2 with a refused addfd tracks both ends under the table's own numbers. */
  predicate PipeOk(p: Proc, c: Call, env: Env, floor: nat)
    requires c.Pipe2?
  {
    var h := PipeGuest(p.guest, c, env);
    || (env.first.Granted? && env.second.Granted?)
    || (Holds(h, p.next, c.reader, c.cloexec, floor) && Holds(h, Next(p.next, p.next), c.writer, c.cloexec, floor))
  }

  /** dup2 and dup3 of a tracked kernel-backed file track the target whether or not addfd took it. */
  predicate TargetSafe(p: Proc, src: int, dst: int, cloexec: bool, env: Env, floor: nat) {
    src in p.table && p.table[src].file.Kernel? && src != dst ==>
      TargetOk(env, dst) || Holds(p.guest, dst, p.table[src].file.ofd, cloexec, floor)
  }

  /** The condition, known before a call, under which it keeps the two tables related. */
  ghost predicate Keeps(p: Proc, c: Call, env: Env, floor: nat) {
    match c
    case Open(file, cloexec) => FallbackOk(p, file, env.first, cloexec, floor)
    case CloseRange(first, last, flags) =>
      forall fd :: Backed(p, fd, floor) ==> RangeSpares(first, last, flags, fd, p.table[fd].cloexec)
    case Dup(src) => src in p.table ==> FallbackOk(p, p.table[src].file, env.first, false, floor)
    case Dup2(src, dst) => TargetSafe(p, src, dst, false, env, floor)
    case Dup3(src, dst, cloexec, badFlags) => badFlags || TargetSafe(p, src, dst, cloexec, env, floor)
    case Pipe2(_, _, _) => PipeOk(p, c, env, floor)
    case Fcntl(fd, cmd, arg) =>
      if 0 <= fd <= 2 then cmd == F_SETFD && Backed(p, fd, floor) ==> p.table[fd].cloexec == HasFlag(arg, 1)
      else (cmd == F_DUPFD || cmd == F_DUPFD_CLOEXEC) && fd in p.table ==>
             FallbackOk(p, p.table[fd].file, env.first, cmd == F_DUPFD_CLOEXEC, floor)
    case Ioctl(fd, cloexec) => Backed(p, fd, floor) ==> p.table[fd].cloexec == cloexec
    case _ => true
  }

  // ---------------------------------------------------------------- every step, exactly

  /** A number the kernel may hand out is never that of a tracked kernel-backed file. */
  lemma FreeNumbersNeverCollide(p: Proc, fd: int, floor: nat)
    requires RelatedFrom(p, floor) && Free(p.guest, fd)
    ensures !Backed(p, fd, floor)
  {
    if fd in p.table && p.table[fd].file.Kernel? { assert Backed(p, fd, floor) <==> fd >= floor; }
  }

  lemma LowBits(q: nat, m: nat)
    requires m < U32_RANGE
    ensures (q * U32_RANGE + m) / 4 == q * 0x4000_0000 + m / 4
    ensures (q * 0x4000_0000 + m / 4) % 2 == m / 4 % 2
  {
    assert q * 0x4000_0000 == 2 * (q * 0x2000_0000);
  }

  lemma HasFlagMod(flags: nat)
    ensures HasFlag(flags % U32_RANGE, CLOSE_RANGE_CLOEXEC) == HasFlag(flags, CLOSE_RANGE_CLOEXEC)
  {
    var (q, m) := (flags / U32_RANGE, flags % U32_RANGE);
    assert flags == q * U32_RANGE + m;
    LowBits(q, m);
  }

  /** What close_range leaves at one number. */
  lemma CloseRangeAt(p: Proc, c: Call, env: Env, fd: int)
    requires c.CloseRange?
    ensures var (q, covered) := (Step(p, c, env), KernelCovers(c.first, c.last, c.flags, fd));
            if HasFlag(c.flags, CLOSE_RANGE_CLOEXEC) then
              && (fd in q.table <==> fd in p.table) && (fd in q.guest <==> fd in p.guest)
              && (fd in p.table ==> q.table[fd] == FdEntry(p.table[fd].file,
                    p.table[fd].cloexec || SupervisorCovers(c.first, c.last, fd)))
              && (fd in p.guest ==> q.guest[fd] == GuestFd(p.guest[fd].ofd, p.guest[fd].cloexec || covered))
            else
              && (fd in q.table <==> fd in p.table && !SupervisorCovers(c.first, c.last, fd))
              && (fd in q.guest <==> fd in p.guest && !covered)
              && (fd in q.table ==> q.table[fd] == p.table[fd]) && (fd in q.guest ==> q.guest[fd] == p.guest[fd])
  {
    HasFlagMod(c.flags);
  }

  lemma CloseRangeStep(p: Proc, c: Call, env: Env, floor: nat)
    requires RelatedFrom(p, floor) && c.CloseRange?
    ensures RelatedFrom(Step(p, c, env), floor) <==> Keeps(p, c, env, floor)
  {
    var q := Step(p, c, env);
    forall fd ensures fd in q.guest ==> fd in p.guest { CloseRangeAt(p, c, env, fd); }
    forall fd
      ensures (Backed(q, fd, floor) ==> Agrees(q, fd)) <==>
              (Backed(p, fd, floor) ==> RangeSpares(c.first, c.last, c.flags, fd, p.table[fd].cloexec))
    {
      CloseRangeAt(p, c, env, fd);
      assert Backed(p, fd, floor) ==> Agrees(p, fd);
    }
  }

  /** One entry and one guest slot change together, or one of them alone: then only that number matters. */
  lemma OneSlot(p: Proc, q: Proc, at: int, floor: nat)
    requires RelatedFrom(p, floor)
    requires forall fd :: fd in q.guest ==> 0 <= fd <= I32_MAX
    requires forall fd :: fd != at ==> (fd in q.table ==> fd in p.table && q.table[fd] == p.table[fd])
    requires forall fd :: fd != at && fd in p.guest ==> fd in q.guest && q.guest[fd] == p.guest[fd]
    ensures RelatedFrom(q, floor) <==> (Backed(q, at, floor) ==> Agrees(q, at))
  {
    forall fd | fd != at && Backed(q, fd, floor) ensures Agrees(q, fd) {
      assert Backed(p, fd, floor) && Agrees(p, fd);
    }
  }

  /** A file installed under a granted number, or tracked under the table's own. */
  lemma InstallKeeps(p: Proc, file: File, grant: Grant, cloexec: bool, env: Env, floor: nat)
    requires RelatedFrom(p, floor) && (grant.Granted? ==> Free(p.guest, grant.fd))
    ensures RelatedFrom(Install(p, file, grant, cloexec, cloexec, env).0, floor) <==> FallbackOk(p, file, grant, cloexec, floor)
  {
    var (q, n) := Install(p, file, grant, cloexec, cloexec, env);
    OneSlot(p, q, n, floor);
  }

  lemma DupOntoKeeps(p: Proc, src: int, dst: int, cloexec: bool, forbidEqual: bool, env: Env, floor: nat)
    requires RelatedFrom(p, floor) && src in p.table && src != dst && env.limit <= I32_MAX + 1
    ensures RelatedFrom(DupOnto(p, src, dst, cloexec, forbidEqual, env).0, floor) <==>
            TargetSafe(p, src, dst, cloexec, env, floor)
  {
    OneSlot(p, DupOnto(p, src, dst, cloexec, forbidEqual, env).0, dst, floor);
  }

  lemma DupCallKeeps(p: Proc, c: Call, env: Env, floor: nat)
    requires RelatedFrom(p, floor) && Sane(p, env) && (c.Dup2? || c.Dup3?)
    ensures RelatedFrom(Step(p, c, env), floor) <==> Keeps(p, c, env, floor)
  {
    var cloexec := c.Dup3? && c.cloexec;
    if c.Dup3? && (c.badFlags || c.src == c.dst) {
    } else if c.src !in p.table {
      OneSlot(p, Step(p, c, env), c.dst, floor);
    } else if c.src != c.dst {
      DupOntoKeeps(p, c.src, c.dst, cloexec, c.Dup3?, env, floor);
    }
  }

  /** fcntl on a standard stream or an untracked fd: the kernel's alone. */
  lemma FcntlContinued(p: Proc, c: Call, env: Env, floor: nat)
    requires RelatedFrom(p, floor) && Sane(p, env) && c.Fcntl? && (0 <= c.fd <= 2 || c.fd !in p.table)
    ensures RelatedFrom(Step(p, c, env), floor) <==> Keeps(p, c, env, floor)
  {
    if c.cmd == F_DUPFD || c.cmd == F_DUPFD_CLOEXEC {
      OneSlot(p, Step(p, c, env), env.pick, floor);
      FreeNumbersNeverCollide(p, env.pick, floor);
    } else {
      OneSlot(p, Step(p, c, env), c.fd, floor);
      assert Backed(p, c.fd, floor) ==> Agrees(p, c.fd);
    }
  }

  lemma FcntlKeeps(p: Proc, c: Call, env: Env, floor: nat)
    requires RelatedFrom(p, floor) && Sane(p, env) && c.Fcntl?
    ensures RelatedFrom(Step(p, c, env), floor) <==> Keeps(p, c, env, floor)
  {
    if 0 <= c.fd <= 2 || c.fd !in p.table {
      FcntlContinued(p, c, env, floor);
    } else if c.cmd == F_DUPFD || c.cmd == F_DUPFD_CLOEXEC {
      FcntlDup(p, c.fd, c.cmd, c.arg, env);
      InstallKeeps(p, p.table[c.fd].file, env.first, c.cmd == F_DUPFD_CLOEXEC, env, floor);
    } else {
      OneSlot(p, Step(p, c, env), c.fd, floor);
      assert Backed(p, c.fd, floor) ==> Agrees(p, c.fd);
    }
  }

  /** F_DUPFD leaves the duplicate with the flag asked for, also under a fallback number. */
  lemma FcntlDup(p: Proc, fd: int, cmd: int, arg: nat, env: Env)
    requires !(0 <= fd <= 2) && fd in p.table && (cmd == F_DUPFD || cmd == F_DUPFD_CLOEXEC)
    ensures var cloexec := cmd == F_DUPFD_CLOEXEC;
            HandleFcntl(p, fd, cmd, arg, env).0 == Install(p, p.table[fd].file, env.first, cloexec, cloexec, env).0
  {
    var cloexec := cmd == F_DUPFD_CLOEXEC;
    var (q, n) := Install(p, p.table[fd].file, env.first, cloexec, false, env);
    assert q.table[n := q.table[n].(cloexec := cloexec)] == p.table[n := FdEntry(p.table[fd].file, cloexec)];
  }

  /** Two granted installs, one after the other. */
  lemma TwoInstalls(p: Proc, left: nat, right: nat, cloexec: bool, env: Env, floor: nat)
    requires RelatedFrom(p, floor) && Sane(p, env) && env.first.Granted? && env.second.Granted?
    ensures var q := Install(p, Kernel(left), env.first, cloexec, cloexec, env).0;
            RelatedFrom(q, floor) && RelatedFrom(Install(q, Kernel(right), env.second, cloexec, cloexec, env).0, floor)
  {
    InstallKeeps(p, Kernel(left), env.first, cloexec, env, floor);
    var q := Install(p, Kernel(left), env.first, cloexec, cloexec, env).0;
    InstallKeeps(q, Kernel(right), env.second, cloexec, env, floor);
  }

  /** Two numbers change; every other entry and slot stays. */
  lemma TwoSlots(p: Proc, q: Proc, a: int, b: int, floor: nat)
    requires RelatedFrom(p, floor)
    requires forall fd :: fd in q.guest ==> 0 <= fd <= I32_MAX
    requires forall fd :: fd != a && fd != b ==> (fd in q.table ==> fd in p.table && q.table[fd] == p.table[fd])
    requires forall fd :: fd in p.guest ==> fd in q.guest && q.guest[fd] == p.guest[fd]
    ensures RelatedFrom(q, floor) <==> (Backed(q, a, floor) ==> Agrees(q, a)) && (Backed(q, b, floor) ==> Agrees(q, b))
  {
    forall fd | fd != a && fd != b && Backed(q, fd, floor) ensures Agrees(q, fd) {
      assert Backed(p, fd, floor) && Agrees(p, fd);
    }
  }

  lemma PipeRefused(p: Proc, c: Call, env: Env)
    requires c.Pipe2? && !(env.first.Granted? && env.second.Granted?)
    ensures var (q, a, b) := (Step(p, c, env), p.next, Next(p.next, p.next));
            && a != b && q.guest == PipeGuest(p.guest, c, env)
            && q.table == p.table[a := FdEntry(Kernel(c.reader), c.cloexec)][b := FdEntry(Kernel(c.writer), c.cloexec)]
  {
  }

  lemma PipeKeeps(p: Proc, c: Call, env: Env, floor: nat)
    requires RelatedFrom(p, floor) && Sane(p, env) && c.Pipe2?
    ensures RelatedFrom(Step(p, c, env), floor) <==> Keeps(p, c, env, floor)
  {
    if env.first.Granted? && env.second.Granted? {
      TwoInstalls(p, c.reader, c.writer, c.cloexec, env, floor);
    } else {
      PipeRefused(p, c, env);
      TwoSlots(p, Step(p, c, env), p.next, Next(p.next, p.next), floor);
    }
  }

  lemma NewFdKeeps(p: Proc, c: Call, env: Env, floor: nat)
    requires RelatedFrom(p, floor) && Sane(p, env) && (c.NewKernelFd? || c.Socketpair?)
    ensures RelatedFrom(Step(p, c, env), floor)
  {
    if env.first.Granted? {
      var ofd := if c.NewKernelFd? then c.ofd else c.left;
      InstallKeeps(p, Kernel(ofd), env.first, c.cloexec, env, floor);
      if c.Socketpair? && env.second.Granted? { TwoInstalls(p, c.left, c.right, c.cloexec, env, floor); }
    }
  }

  /** The calls that touch one number at most on either side, or only drop entries. */
  lemma PlainCallKeeps(p: Proc, c: Call, env: Env, floor: nat)
    requires RelatedFrom(p, floor) && Sane(p, env)
    requires c.Close? || c.Execve? || c.KernelCreate? || c.Ioctl? || (c.Dup? && c.src !in p.table)
    ensures RelatedFrom(Step(p, c, env), floor) <==> Keeps(p, c, env, floor)
  {
    var q := Step(p, c, env);
    match c
    case Close(fd) => OneSlot(p, q, fd, floor);
    case Execve =>
      forall fd | Backed(q, fd, floor) ensures Agrees(q, fd) { assert Backed(p, fd, floor) && Agrees(p, fd); }
    case Ioctl(fd, _) =>
      OneSlot(p, q, fd, floor);
      assert Backed(p, fd, floor) ==> Agrees(p, fd);
    case _ =>
      OneSlot(p, q, env.pick, floor);
      FreeNumbersNeverCollide(p, env.pick, floor);
  }

  /** Every call, whatever the kernel grants or refuses, keeps the tables related exactly under the
      condition known before it. */
  lemma StepExact(p: Proc, c: Call, env: Env, floor: nat)
    requires RelatedFrom(p, floor) && Sane(p, env)
    ensures RelatedFrom(Step(p, c, env), floor) <==> Keeps(p, c, env, floor)
  {
    match c
    case CloseRange(_, _, _) => CloseRangeStep(p, c, env, floor);
    case Open(file, cloexec) => InstallKeeps(p, file, env.first, cloexec, env, floor);
    case Dup(src) =>
      if src in p.table {
        InstallKeeps(p, p.table[src].file, env.first, false, env, floor);
      } else {
        PlainCallKeeps(p, c, env, floor);
      }
    case Dup2(_, _) => DupCallKeeps(p, c, env, floor);
    case Dup3(_, _, _, _) => DupCallKeeps(p, c, env, floor);
    case Pipe2(_, _, _) => PipeKeeps(p, c, env, floor);
    case Fcntl(_, _, _) => FcntlKeeps(p, c, env, floor);
    case NewKernelFd(_, _) => NewFdKeeps(p, c, env, floor);
    case Socketpair(_, _, _) => NewFdKeeps(p, c, env, floor);
    case _ => PlainCallKeeps(p, c, env, floor);
  }

  // ---------------------------------------------------------------- when the condition is met

  /** The kernel grants what is asked for. */
  predicate Obliging(p: Proc, c: Call, env: Env) {
    && Sane(p, env) && env.first.Granted? && env.second.Granted?
    && (c.Dup2? || c.Dup3? ==> c.dst < env.limit)
    && (c.CloseRange? ==> RangeAgrees(c.first, c.last, c.flags, 3))
  }

  /** The numbers from the floor up that the kernel acts on, as an interval. */
  function Raised(n: int, floor: nat): int { if n < floor then floor else n }

  function KernelHi(last: nat): int { if last % U32_RANGE > I32_MAX then I32_MAX else last % U32_RANGE }

  /** The exact condition on close_range's arguments alone: where the kernel closes, the supervisor
      must drop, and where either sets close-on-exec, both must. */
  predicate RangeAgrees(first: nat, last: nat, flags: nat, floor: nat) {
    var (klo, khi) := (Raised(first % U32_RANGE, floor), KernelHi(last));
    var (slo, shi) := (Raised(Clamp(first), floor), Clamp(last));
    var accepted := KnownFlags(flags % U32_RANGE) && first % U32_RANGE <= last % U32_RANGE;
    if HasFlag(flags, CLOSE_RANGE_CLOEXEC) then
      if accepted && klo <= khi then slo == klo && shi == khi else slo > shi
    else
      accepted && klo <= khi ==> slo <= klo && khi <= shi
  }

  /** With numbers granted, targets below the limit and ranges agreeing, every call that is not an
      ioctl on the flag keeps the relation. */
  lemma ObligingKeeps(p: Proc, c: Call, env: Env)
    requires Related(p) && Obliging(p, c, env)
    ensures Keeps(p, c, env, 3) <==> (c.Ioctl? && Backed(p, c.fd, 3) ==> p.table[c.fd].cloexec == c.cloexec)
  {
    if c.CloseRange? {
      forall fd | Backed(p, fd, 3) ensures RangeSpares(c.first, c.last, c.flags, fd, p.table[fd].cloexec) {
        assert Agrees(p, fd);
      }
    }
  }

  lemma StepKeeps(p: Proc, c: Call, env: Env)
    requires Related(p) && Obliging(p, c, env) && !c.Ioctl?
    ensures Related(Step(p, c, env))
  {
    ObligingKeeps(p, c, env);
    StepExact(p, c, env, 3);
  }

  /** Down to 0 the same call keeps the relation exactly unless it is F_SETFD on a tracked standard
      stream with another flag than the table's: that one the kernel alone sees. */
  lemma StandardStreamsExact(p: Proc, c: Call, env: Env)
    requires RelatedFrom(p, 0) && Obliging(p, c, env) && !c.Ioctl?
    requires c.CloseRange? ==> RangeAgrees(c.first, c.last, c.flags, 0)
    ensures RelatedFrom(Step(p, c, env), 0) <==>
            !(c.Fcntl? && c.cmd == F_SETFD && c.fd <= 2 && Backed(p, c.fd, 0) && HasFlag(c.arg, 1) != p.table[c.fd].cloexec)
  {
    StepExact(p, c, env, 0);
    if c.CloseRange? {
      forall fd | Backed(p, fd, 0) ensures RangeSpares(c.first, c.last, c.flags, fd, p.table[fd].cloexec) {
        assert Agrees(p, fd);
      }
    }
  }

  /** F_SETFD on fd 1 is not tracked, so a pipe duplicated there stays in the virtual table after
      the execve that closes it in the guest. */
  lemma StdioIsNotTracked(ofd: nat, env: Env)
    requires env.limit > 1 && env.execOk
    ensures var p := OneFd(3).(table := map[3 := FdEntry(Kernel(ofd), false)], guest := map[3 := GuestFd(ofd, false)]);
            var q := Step(Step(Step(p, Dup2(3, 1), env), Fcntl(1, F_SETFD, 1), env), Execve, env);
            RelatedFrom(p, 0) && 1 in q.table && q.table[1].file == Kernel(ofd) && 1 !in q.guest
  {
  }

  function OneFd(fd: int): Proc {
    Proc(map[fd := FdEntry(Kernel(0), false)], fd, map[fd := GuestFd(0, false)])
  }

  /** A number that one side of close_range touches and the other does not. */
  function Disagreement(first: nat, last: nat, flags: nat, floor: nat): (fd: int)
    requires !RangeAgrees(first, last, flags, floor) && floor <= I32_MAX
    ensures floor <= fd <= I32_MAX
  {
    var (klo, khi) := (Raised(first % U32_RANGE, floor), KernelHi(last));
    var (slo, shi) := (Raised(Clamp(first), floor), Clamp(last));
    var accepted := KnownFlags(flags % U32_RANGE) && first % U32_RANGE <= last % U32_RANGE;
    if !accepted || klo > khi then slo
    else if slo > shi || !(slo <= klo <= shi) then klo
    else if !(slo <= khi <= shi) then khi
    else if slo < klo then slo
    else shi
  }

  lemma DisagreementBreaks(first: nat, last: nat, flags: nat, env: Env, floor: nat)
    requires !RangeAgrees(first, last, flags, floor) && floor <= I32_MAX
    ensures var p := OneFd(Disagreement(first, last, flags, floor));
            RelatedFrom(p, floor) && !RelatedFrom(Step(p, CloseRange(first, last, flags), env), floor)
  {
    var fd := Disagreement(first, last, flags, floor);
    var p := OneFd(fd);
    CloseRangeStep(p, CloseRange(first, last, flags), env, floor);
    assert Backed(p, fd, floor) && !RangeSpares(first, last, flags, fd, false);
  }

  /** close_range keeps the relation in every related process exactly when its arguments agree. */
  lemma CloseRangeExact(first: nat, last: nat, flags: nat, env: Env, floor: nat)
    requires floor <= I32_MAX
    ensures RangeAgrees(first, last, flags, floor) <==>
            forall p :: RelatedFrom(p, floor) ==> RelatedFrom(Step(p, CloseRange(first, last, flags), env), floor)
  {
    var c := CloseRange(first, last, flags);
    if RangeAgrees(first, last, flags, floor) {
      forall p | RelatedFrom(p, floor) ensures RelatedFrom(Step(p, c, env), floor) {
        forall fd | Backed(p, fd, floor) ensures RangeSpares(first, last, flags, fd, p.table[fd].cloexec) {
          assert Agrees(p, fd);
        }
        CloseRangeStep(p, c, env, floor);
      }
    } else {
      DisagreementBreaks(first, last, flags, env, floor);
      var p := OneFd(Disagreement(first, last, flags, floor));
      assert RelatedFrom(p, floor) && !RelatedFrom(Step(p, c, env), floor);
    }
  }

  /** A first number of 31 bits, a last of 32 and known flags always agree. */
  lemma CleanArgumentsAgree(first: nat, last: nat, flags: nat, floor: nat)
    requires first <= I32_MAX && last < U32_RANGE && KnownFlags(flags)
    ensures RangeAgrees(first, last, flags, floor)
  {
  }

  /** With an argument wider than 32 bits the two sides part: the kernel truncates, the supervisor
      saturates. With a first number past 31 bits they part over close-on-exec at the last number. */
  lemma WideArgumentParts()
    ensures !RangeAgrees(U32_RANGE + 3, U32_RANGE + 3, 0, 3)
    ensures !RangeAgrees(0x8000_0000, 0xffff_ffff, CLOSE_RANGE_CLOEXEC, 3)
  {
    assert (U32_RANGE + 3) % U32_RANGE == 3;
  }

  /** dup2 and dup3 ignore the error of their addfd: the relation survives exactly when the target is
      below the guest's descriptor limit. */
  lemma DupOntoExact(p: Proc, src: int, dst: int, cloexec: bool, forbidEqual: bool, env: Env)
    requires Related(p) && Backed(p, src, 3) && 3 <= dst && src != dst && env.limit <= I32_MAX + 1
    requires !(dst in p.guest && p.guest[dst] == GuestFd(p.table[src].file.ofd, cloexec))
    ensures Related(DupOnto(p, src, dst, cloexec, forbidEqual, env).0) <==> dst < env.limit
  {
    DupOntoKeeps(p, src, dst, cloexec, forbidEqual, env, 3);
  }

  /** A refused addfd breaks the relation for a file the guest does not hold yet, exactly when the
      fallback number is one the supervisor relies on; socket, eventfd2 and socketpair fail instead. */
  lemma RefusedOpenExact(p: Proc, ofd: nat, cloexec: bool, env: Env)
    requires Related(p) && Sane(p, env) && env.first.Refused?
    requires forall fd :: fd in p.guest ==> p.guest[fd].ofd != ofd
    ensures Related(Step(p, Open(Kernel(ofd), cloexec), env)) <==> p.next < 3
    ensures Related(Step(p, NewKernelFd(ofd, cloexec), env))
  {
    StepExact(p, Open(Kernel(ofd), cloexec), env, 3);
    StepExact(p, NewKernelFd(ofd, cloexec), env, 3);
  }

  // ---------------------------------------------------------------- against Linux alone

  /** The file a call names is tracked as kernel-backed, or not tracked at all. */
  predicate Plain(p: Proc, c: Call, floor: nat) {
    match c
    case Open(file, _) => file.Kernel?
    case Dup(src) => src !in p.table || Backed(p, src, floor)
    case Dup2(src, _) => src !in p.table || Backed(p, src, floor)
    case Dup3(src, _, _, _) => src !in p.table || Backed(p, src, floor)
    case Fcntl(fd, _, _) => fd !in p.table || Backed(p, fd, floor) || 0 <= fd <= 2
    case _ => true
  }

  /** A tracked F_DUPFD, which the supervisor answers without looking at the minimum asked for. */
  predicate AnswersDup(p: Proc, c: Call) {
    c.Fcntl? && !(0 <= c.fd <= 2) && c.fd in p.table && (c.cmd == F_DUPFD || c.cmd == F_DUPFD_CLOEXEC)
  }

  function NativeRun(p: Proc, c: Call, env: Env): Guest
    requires env.first.Granted? && env.second.Granted?
  {
    Native(p.guest, c, if Handle(p, c, env).1.Continue? then env.pick else env.first.fd, env.second.fd, env)
  }

  lemma FcntlIsNative(p: Proc, c: Call, env: Env, floor: nat)
    requires RelatedFrom(p, floor) && Sane(p, env) && env.first.Granted? && env.second.Granted?
    requires c.Fcntl? && Plain(p, c, floor)
    ensures Step(p, c, env).guest == NativeRun(p, c, env) <==> (AnswersDup(p, c) ==> c.arg <= env.first.fd)
  {
    assert Backed(p, c.fd, floor) ==> Agrees(p, c.fd);
    if AnswersDup(p, c) {
      FcntlDup(p, c.fd, c.cmd, c.arg, env);
      assert env.first.fd in Step(p, c, env).guest && env.first.fd !in p.guest;
    }
  }

  /** Every call on such a file does to the guest's table exactly what Linux would have done, except,
      exactly, an F_DUPFD granted a number below its minimum. */
  lemma StepIsNative(p: Proc, c: Call, env: Env, floor: nat)
    requires RelatedFrom(p, floor) && Sane(p, env) && env.first.Granted? && env.second.Granted?
    requires Plain(p, c, floor)
    ensures Step(p, c, env).guest == NativeRun(p, c, env) <==> (AnswersDup(p, c) ==> c.arg <= env.first.fd)
  {
    match c
    case Dup(src) => assert Backed(p, src, floor) ==> Agrees(p, src);
    case Dup2(src, _) => assert Backed(p, src, floor) ==> Agrees(p, src);
    case Dup3(src, _, _, _) => assert Backed(p, src, floor) ==> Agrees(p, src);
    case Fcntl(_, _, _) => FcntlIsNative(p, c, env, floor);
    case _ =>
  }

  /** F_GETFD is answered from the virtual table with the kernel's own flag. */
  lemma GetFdAnswers(p: Proc, fd: int, arg: nat, env: Env)
    requires Related(p) && Backed(p, fd, 3)
    ensures fd in p.guest
    ensures Handle(p, Fcntl(fd, F_GETFD, arg), env) == (p, Success(if p.guest[fd].cloexec then 1 else 0))
  {
    assert Agrees(p, fd);
  }

  /** A successful execve drops the same tracked fds on both sides. */
  lemma ExecveDropsTheSame(p: Proc, env: Env, fd: int, floor: nat)
    requires RelatedFrom(p, floor) && Backed(p, fd, floor) && env.execOk
    ensures fd in Step(p, Execve, env).table <==> fd in Step(p, Execve, env).guest
    ensures fd !in Step(p, Execve, env).guest <==> p.guest[fd].cloexec
  {
    assert Agrees(p, fd);
  }

  /** Once the guest holds an open file at no number from the floor up, its own table tracks it at none. */
  lemma LastCloseReleases(p: Proc, ofd: nat, floor: nat)
    requires RelatedFrom(p, floor)
    requires forall fd :: fd in p.guest && fd >= floor ==> p.guest[fd].ofd != ofd
    ensures forall fd :: Backed(p, fd, floor) ==> p.table[fd].file != Kernel(ofd)
  {
    forall fd | Backed(p, fd, floor) ensures p.table[fd].file != Kernel(ofd) {
      assert Agrees(p, fd);
    }
  }

  // ---------------------------------------------------------------- what the guest is told

  /** The file is tracked under a number. */
  predicate TrackedAt(q: Proc, fd: int, file: File, cloexec: bool) { fd in q.table && q.table[fd] == FdEntry(file, cloexec) }

  /** The guest holds the file there, or the placeholder of a synthetic one. */
  predicate HeldAt(q: Proc, fd: int, file: File, cloexec: bool, env: Env) {
    && fd in q.guest && q.guest[fd].cloexec == cloexec
    && (file.Kernel? ==> q.guest[fd].ofd == file.ofd) && (file.Synthetic? ==> q.guest[fd].ofd == env.devnull)
  }

  /** Nothing changed on either side but at one number. */
  ghost predicate OnlyAt(p: Proc, q: Proc, fd: int) {
    && (forall n :: n != fd ==> (n in q.table <==> n in p.table) && (n in p.table ==> q.table[n] == p.table[n]))
    && (forall n :: n != fd ==> (n in q.guest <==> n in p.guest) && (n in p.guest ==> q.guest[n] == p.guest[n]))
  }

  /** The number answered is the one the file is tracked under, and, when the kernel granted one, that one,
      where the guest holds it; a refusal leaves the guest alone and takes the table's next number. */
  ghost predicate Answered(p: Proc, q: Proc, n: int, file: File, grant: Grant, cloexec: bool, fallback: bool, env: Env) {
    && OnlyAt(p, q, n)
    && (grant.Granted? ==> n == grant.fd && TrackedAt(q, n, file, cloexec) && HeldAt(q, n, file, cloexec, env))
    && (grant.Refused? ==> n == p.next && TrackedAt(q, n, file, fallback) && q.guest == p.guest)
  }

  /** The table's next number only grows, past the number used, short of the end of the range. */
  predicate NextPasses(p: Proc, q: Proc, n: int) {
    n < I32_MAX ==> q.next > n && q.next >= p.next && (q.next == p.next || q.next == n + 1)
  }

  lemma OpenAnswers(p: Proc, file: File, cloexec: bool, env: Env)
    ensures var (q, r) := Handle(p, Open(file, cloexec), env);
            r.Success? && Answered(p, q, r.value, file, env.first, cloexec, cloexec, env) && NextPasses(p, q, r.value)
  {
  }

  lemma DupAnswers(p: Proc, src: int, env: Env)
    ensures var (q, r) := Handle(p, Dup(src), env);
            if src in p.table then
              r.Success? && Answered(p, q, r.value, p.table[src].file, env.first, false, false, env) && NextPasses(p, q, r.value)
            else r == Continue && q == p
  {
  }

  /** dup2 and dup3 answer the target, where the file is then tracked with the flag asked for; the guest
      holds a kernel-backed one there if the target is below its limit. */
  lemma DupOntoAnswers(p: Proc, c: Call, env: Env)
    requires c.Dup2? || c.Dup3?
    ensures var ((q, r), cloexec, dst) := (Handle(p, c, env), c.Dup3? && c.cloexec, c.dst);
            && OnlyAt(p, q, dst)
            && (r.Failure? <==> c.Dup3? && (c.badFlags || c.src == dst)) && (r.Failure? ==> r == Failure(INVAL) && q == p)
            && (r.Continue? <==> !r.Failure? && c.src !in p.table)
            && (r.Continue? ==> dst !in q.table && q.guest == p.guest && q.next == p.next)
            && (!r.Failure? && !r.Continue? ==> r == Success(dst))
            && (r.Success? && c.src == dst ==> q == p)
            && (r.Success? && c.src != dst ==> TrackedAt(q, dst, p.table[c.src].file, cloexec) && NextPasses(p, q, dst))
            && (r.Success? && c.src != dst && !(p.table[c.src].file.Kernel? && 0 <= dst < env.limit) ==> q.guest == p.guest)
            && (r.Success? && c.src != dst && p.table[c.src].file.Kernel? && 0 <= dst < env.limit ==>
                  HeldAt(q, dst, p.table[c.src].file, cloexec, env))
  {
  }

  /** A new kernel fd is answered under the number granted, or refused with nothing tracked. */
  lemma NewFdAnswers(p: Proc, ofd: nat, cloexec: bool, env: Env)
    ensures var (q, r) := Handle(p, NewKernelFd(ofd, cloexec), env);
            && (env.first.Refused? ==> r == Failure(IO) && q == p)
            && (env.first.Granted? ==> r.Success? && NextPasses(p, q, r.value)
                                       && Answered(p, q, r.value, Kernel(ofd), env.first, cloexec, cloexec, env))
  {
  }

  /** The two numbers of a pair are those the two files are tracked under, in order. */
  lemma PairAnswers(p: Proc, left: nat, right: nat, cloexec: bool, env: Env)
    requires Sane(p, env) && p.next < I32_MAX - 1
    ensures var (q, r) := Handle(p, Pipe2(left, right, cloexec), env);
            && r.Pair? && r.first != r.second
            && TrackedAt(q, r.first, Kernel(left), cloexec) && TrackedAt(q, r.second, Kernel(right), cloexec)
            && (env.first.Granted? && env.second.Granted? ==> r == Pair(env.first.fd, env.second.fd))
            && (env.first.Refused? || env.second.Refused? ==> r == Pair(p.next, p.next + 1))
            && (env.first.Granted? ==> HeldAt(q, env.first.fd, Kernel(left), cloexec, env))
            && (env.second.Granted? ==> HeldAt(q, env.second.fd, Kernel(right), cloexec, env))
    ensures var (q, r) := Handle(p, Socketpair(left, right, cloexec), env);
            && (env.first.Refused? ==> r == Failure(IO) && q == p)
            && (env.first.Granted? ==> TrackedAt(q, env.first.fd, Kernel(left), cloexec)
                                       && HeldAt(q, env.first.fd, Kernel(left), cloexec, env))
            && (env.first.Granted? && env.second.Refused? ==> r == Failure(IO))
            && (env.first.Granted? && env.second.Granted? ==>
                  && r == Pair(env.first.fd, env.second.fd)
                  && TrackedAt(q, env.second.fd, Kernel(right), cloexec)
                  && HeldAt(q, env.second.fd, Kernel(right), cloexec, env))
  {
  }

  /** fcntl on a tracked file from 3 up, by command number. */
  lemma FcntlAnswers(p: Proc, fd: int, cmd: int, arg: nat, env: Env)
    requires fd in p.table && !(0 <= fd <= 2)
    ensures var ((q, r), e) := (Handle(p, Fcntl(fd, cmd, arg), env), p.table[fd]);
            && (cmd == 0 ==> r.Success? && Answered(p, q, r.value, e.file, env.first, false, false, env))
            && (cmd == 1030 ==> r.Success? && Answered(p, q, r.value, e.file, env.first, true, true, env))
            && (cmd == 1 ==> q == p && r == Success(if e.cloexec then 1 else 0))
            && (cmd == 2 ==> OnlyAt(p, q, fd) && q.guest == p.guest && TrackedAt(q, fd, e.file, arg % 2 == 1)
                             && r == if e.file.Kernel? then Continue else Success(0))
            && (cmd == 3 ==> q == p && r == Success(if e.file.Kernel? && env.status >= 0 then env.status else env.openFlags))
            && (cmd == 4 ==> q == p && r == if e.file.Kernel? && env.status < 0 then Failure(INVAL) else Success(0))
            && (cmd in {5, 6, 7, 8, 9, 10, 11} ==> q == p && r == Success(0))
            && (cmd !in {0, 1, 2, 3, 4, 5, 6, 7, 8, 9, 10, 11, 1030} ==> q == p && r == Failure(INVAL))
  {
  }

  /** The calls the kernel runs, and what they leave in the virtual table: of any kind of file. */
  lemma ContinuedCalls(p: Proc, c: Call, env: Env)
    requires c.Close? || c.CloseRange? || c.Execve? || c.KernelCreate? || c.Ioctl?
             || (c.Fcntl? && (0 <= c.fd <= 2 || c.fd !in p.table))
    ensures var (q, r) := Handle(p, c, env);
            && r == Continue && q.guest == p.guest && q.next == p.next
            && forall fd :: && (fd in q.table <==> fd in p.table && !Drops(p, c, fd))
                            && (fd in q.table ==> q.table[fd] == FdEntry(p.table[fd].file, p.table[fd].cloexec || Marks(c, fd)))
  {
  }

  /** A number within close_range's arguments as the supervisor reads them. */
  predicate InClamped(c: Call, fd: int)
    requires c.CloseRange?
  {
    (if c.first > 0x7fff_ffff then 0x7fff_ffff else c.first) <= fd <= (if c.last > 0x7fff_ffff then 0x7fff_ffff else c.last)
  }

  predicate Drops(p: Proc, c: Call, fd: int)
    requires fd in p.table
  {
    (c.Close? && fd == c.fd) || (c.Execve? && p.table[fd].cloexec) || (c.CloseRange? && c.flags / 4 % 2 == 0 && InClamped(c, fd))
  }

  predicate Marks(c: Call, fd: int) { c.CloseRange? && c.flags / 4 % 2 == 1 && InClamped(c, fd) }

  /** A forked table holds each file as it was, but the kernel-backed ones that could not be duplicated. */
  lemma ForkedHolds(t: Table, failed: set<int>, fd: int)
    ensures fd in ForkedTable(t, failed) <==> fd in t && (t[fd].file.Synthetic? || fd !in failed)
    ensures fd in ForkedTable(t, failed) ==> ForkedTable(t, failed)[fd] == t[fd]
  {
  }

  // ---------------------------------------------------------------- the handlers

  /** The guest's fd table as the notifier reaches it. */
  class Notifier {
    var fds: map<int, GuestFd>

    constructor (initial: Guest)
      ensures fds == initial
    {
      fds := initial;
    }

    method AddfdAuto(ofd: nat, cloexec: bool, grant: Grant)
      modifies this
      ensures fds == if grant.Granted? then old(fds)[grant.fd := GuestFd(ofd, cloexec)] else old(fds)
    {
      if grant.Granted? { fds := fds[grant.fd := GuestFd(ofd, cloexec)]; }
    }

    method Addfd(ofd: nat, newfd: int, cloexec: bool, accepted: bool)
      modifies this
      ensures fds == if accepted then old(fds)[newfd := GuestFd(ofd, cloexec)] else old(fds)
    {
      if accepted { fds := fds[newfd := GuestFd(ofd, cloexec)]; }
    }
  }

  class Supervisor {
    const table: FdTable
    const notifier: Notifier

    constructor (table: FdTable, notifier: Notifier)
      ensures this.table == table && this.notifier == notifier
    {
      this.table, this.notifier := table, notifier;
    }

    function State(): Proc
      reads table, notifier
    {
      Proc(table.openFiles, table.nextVfd, notifier.fds)
    }

    /** addfd the file, or a /dev/null placeholder for a synthetic one, then track it. */
    method InstallFile(file: File, grant: Grant, cloexec: bool, fallbackCloexec: bool, env: Env) returns (vfd: int)
      modifies table, notifier
      ensures (State(), vfd) == Install(old(State()), file, grant, cloexec, fallbackCloexec, env)
    {
      notifier.AddfdAuto(Ofd(file, env), cloexec, grant);
      match grant {
        case Granted(fd) =>
          table.InsertAt(file, fd, cloexec);
          vfd := fd;
        case Refused => vfd := table.Insert(file, fallbackCloexec);
      }
    }

    method SysOpenat(file: File, cloexec: bool, env: Env) returns (reply: Reply)
      modifies table, notifier
      ensures (State(), reply) == Handle(old(State()), Open(file, cloexec), env)
    {
      var vfd := InstallFile(file, env.first, cloexec, cloexec, env);
      reply := Success(vfd);
    }

    method SysClose(fd: int, ghost env: Env) returns (reply: Reply)
      modifies table
      ensures (State(), reply) == Handle(old(State()), Close(fd), env)
    {
      var _ := table.Remove(fd);
      reply := Continue;
    }

    method SysCloseRange(first: nat, last: nat, flags: nat, ghost env: Env) returns (reply: Reply)
      modifies table
      ensures (State(), reply) == Handle(old(State()), CloseRange(first, last, flags), env)
    {
      if HasFlag(flags, CLOSE_RANGE_CLOEXEC) {
        table.SetCloexecRange(Clamp(first), Clamp(last));
      } else {
        table.RemoveRange(Clamp(first), Clamp(last));
      }
      reply := Continue;
    }

    method SysDup(src: int, env: Env) returns (reply: Reply)
      modifies table, notifier
      ensures (State(), reply) == Handle(old(State()), Dup(src), env)
    {
      if src !in table.openFiles { return Continue; }
      var vfd := InstallFile(table.openFiles[src].file, env.first, false, false, env);
      reply := Success(vfd);
    }

    method SysDupOnto(src: int, dst: int, cloexec: bool, forbidEqual: bool, env: Env) returns (reply: Reply)
      modifies table, notifier
      ensures (State(), reply) == DupOnto(old(State()), src, dst, cloexec, forbidEqual, env)
    {
      if forbidEqual && src == dst { return Failure(INVAL); }
      if src !in table.openFiles {
        var _ := table.Remove(dst);
        return Continue;
      }
      if src == dst { return Success(dst); }
      var file := table.openFiles[src].file;
      var _ := table.Remove(dst);
      table.InsertAt(file, dst, cloexec);
      assert old(table.openFiles) - {dst} + map[dst := FdEntry(file, cloexec)] == table.openFiles
          == old(table.openFiles)[dst := FdEntry(file, cloexec)];
      if file.Kernel? {
        notifier.Addfd(file.ofd, dst, cloexec, TargetOk(env, dst));
      }
      reply := Success(dst);
    }

    method SysDup2(src: int, dst: int, env: Env) returns (reply: Reply)
      modifies table, notifier
      ensures (State(), reply) == Handle(old(State()), Dup2(src, dst), env)
    {
      reply := SysDupOnto(src, dst, false, false, env);
    }

    method SysDup3(src: int, dst: int, cloexec: bool, badFlags: bool, env: Env) returns (reply: Reply)
      modifies table, notifier
      ensures (State(), reply) == Handle(old(State()), Dup3(src, dst, cloexec, badFlags), env)
    {
      if badFlags { return Failure(INVAL); }
      reply := SysDupOnto(src, dst, cloexec, true, env);
    }

    method SysPipe2(reader: nat, writer: nat, cloexec: bool, env: Env) returns (reply: Reply)
      modifies table, notifier
      ensures (State(), reply) == Handle(old(State()), Pipe2(reader, writer, cloexec), env)
    {
      notifier.AddfdAuto(reader, cloexec, env.first);
      notifier.AddfdAuto(writer, cloexec, env.second);
      var (readFd, writeFd) := (0, 0);
      if env.first.Granted? && env.second.Granted? {
        table.InsertAt(Kernel(reader), env.first.fd, cloexec);
        table.InsertAt(Kernel(writer), env.second.fd, cloexec);
        readFd, writeFd := env.first.fd, env.second.fd;
      } else {
        readFd := table.Insert(Kernel(reader), cloexec);
        writeFd := table.Insert(Kernel(writer), cloexec);
      }
      reply := Pair(readFd, writeFd);
    }

    /** socket, eventfd2: a refused addfd is an error and tracks nothing. */
    method RegisterKernelFd(ofd: nat, cloexec: bool, env: Env) returns (reply: Reply)
      modifies table, notifier
      ensures (State(), reply) == Handle(old(State()), NewKernelFd(ofd, cloexec), env)
    {
      notifier.AddfdAuto(ofd, cloexec, env.first);
      if env.first.Refused? { return Failure(IO); }
      table.InsertAt(Kernel(ofd), env.first.fd, cloexec);
      reply := Success(env.first.fd);
    }

    method SysSocketpair(left: nat, right: nat, cloexec: bool, env: Env) returns (reply: Reply)
      modifies table, notifier
      ensures (State(), reply) == Handle(old(State()), Socketpair(left, right, cloexec), env)
    {
      reply := RegisterKernelFd(left, cloexec, env);
      if reply.Failure? { return; }
      var leftFd := reply.value;
      reply := RegisterKernelFd(right, cloexec, env.(first := env.second));
      if reply.Success? { reply := Pair(leftFd, reply.value); }
    }

    method SysFcntl(fd: int, cmd: int, arg: nat, env: Env) returns (reply: Reply)
      modifies table, notifier
      ensures (State(), reply) == Handle(old(State()), Fcntl(fd, cmd, arg), env)
    {
      if 0 <= fd <= 2 || fd !in table.openFiles { return Continue; }
      var file := table.openFiles[fd].file;
      if cmd == F_DUPFD || cmd == F_DUPFD_CLOEXEC {
        var cloexec := cmd == F_DUPFD_CLOEXEC;
        var vfd := InstallFile(file, env.first, cloexec, false, env);
        var _ := table.SetCloexec(vfd, cloexec);
        return Success(vfd);
      } else if cmd == F_GETFD {
        return Success(if table.openFiles[fd].cloexec then 1 else 0);
      } else if cmd == F_SETFD {
        var _ := table.SetCloexec(fd, HasFlag(arg, 1));
        return if file.Kernel? then Continue else Success(0);
      } else if cmd == F_GETFL {
        return Success(if file.Kernel? && env.status >= 0 then env.status else env.openFlags);
      } else if cmd == F_SETFL {
        return if file.Kernel? && env.status < 0 then Failure(INVAL) else Success(0);
      }
      return if 5 <= cmd <= 11 then Success(0) else Failure(INVAL);
    }

    method SysExecve(ghost env: Env) returns (reply: Reply)
      modifies table
      ensures (State(), reply) == Handle(old(State()), Execve, env)
    {
      table.RemoveCloexec();
      reply := Continue;
    }
  }
}
