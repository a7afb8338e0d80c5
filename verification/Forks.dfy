/** Many guest processes. A clone leaves a snapshot of the parent's virtual table on the parent's queue; the
    child is registered later, at its first intercepted call, and takes the oldest snapshot there.

    The events are those of the kernel and the supervisor together. `RunExact` says when every registered
    process's tables stay related over a whole run; the lemmas below it say which runs meet the condition. */
module Forks {
  import opened Results
  import opened FdProtocol
  import opened Processes

  /** A child that has made no intercepted call: its parent, what the kernel gave it, what it holds by now. */
  datatype Newborn = Newborn(parent: nat, held: Guest, guest: Guest)

  /** `lost` are processes killed by a signal: gone from the kernel, still registered. */
  datatype World = World(
    procs: map<nat, Proc>, newborn: map<nat, Newborn>, queues: map<nat, seq<Virtual>>, lost: map<nat, Virtual>, init: nat)

  /** What a clone call makes: a process with a copy of the table, one that shares it, or nothing. */
  datatype Made = Child(pid: nat) | Sharer | Nothing

  datatype Event =
    | Syscall(pid: nat, call: Call, env: Env)
    | Unseen(pid: nat, call: Call, env: Env)          // a newborn's call that the kernel runs alone
    | Clone(pid: nat, made: Made, failed: set<int>)
    | Discover(pid: nat, failed: set<int>)
    | DiscoverSharer(pid: nat)                        // a child of pid that shares pid's table
    | Exit(pid: nat)
    | Kill(pid: nat)                                  // a signal, or any end of a newborn: the supervisor hears nothing

  function VirtualOf(p: Proc): Virtual { Virtual(p.table, p.next) }

  function Queue(w: World, pid: nat): seq<Virtual> { if pid in w.queues then w.queues[pid] else [] }

  /** A number not in use, for a new process. */
  predicate Unused(w: World, pid: nat) {
    pid !in w.procs && pid !in w.newborn && pid !in w.lost && forall c :: c in w.newborn ==> w.newborn[c].parent != pid
  }

  /** fcntl on 0 to 2 and the calls no handler takes run before the caller is looked up. */
  predicate KernelOnly(c: Call) { c.KernelCreate? || c.Ioctl? || (c.Fcntl? && 0 <= c.fd <= 2) }

  function AsProc(v: Virtual, g: Guest): Proc { Proc(v.fds, v.next, g) }

  const EMPTY: Virtual := Virtual(map[], 3)

  /** The kernel keeps its guarantees, and an orphan finds the init process. */
  predicate Possible(w: World, e: Event) {
    match e
    case Syscall(pid, call, env) => pid in w.procs && Sane(w.procs[pid], env)
    case Unseen(pid, call, env) => pid in w.newborn && KernelOnly(call) && Sane(AsProc(EMPTY, w.newborn[pid].guest), env)
    case Clone(pid, made, _) => pid in w.procs && (made.Child? ==> Unused(w, made.pid) && made.pid != pid)
    case Discover(pid, _) => pid in w.newborn && (w.newborn[pid].parent in w.procs || w.init in w.procs)
    case DiscoverSharer(pid) => pid in w.procs
    case Exit(pid) => pid in w.procs
    case Kill(pid) => pid in w.procs || pid in w.newborn
  }

  /** The virtual table a discovered child starts with. An orphan is adopted: it gets the init's table. */
  function Inherited(w: World, pid: nat, failed: set<int>): Virtual
    requires Possible(w, Discover(pid, failed))
  {
    var parent := w.newborn[pid].parent;
    if parent in w.procs then Claimed(Queue(w, parent), VirtualOf(w.procs[parent]), failed)
    else Cloned(VirtualOf(w.procs[w.init]), failed)
  }

  function After(w: World, e: Event): World
    requires Possible(w, e)
  {
    match e
    case Syscall(pid, call, env) => w.(procs := w.procs[pid := Step(w.procs[pid], call, env)])
    case Unseen(pid, call, env) =>
      var n := w.newborn[pid];
      w.(newborn := w.newborn[pid := n.(guest := Native(n.guest, call, env.pick, env.pick, env))])
    case Clone(pid, made, failed) =>
      var p := w.procs[pid];
      var u := w.(queues := w.queues[pid := Pushed(Queue(w, pid), Cloned(VirtualOf(p), failed))]);
      if made.Child? then u.(newborn := w.newborn[made.pid := Newborn(pid, p.guest, p.guest)]) else u
    case Discover(pid, failed) =>
      var n := w.newborn[pid];
      w.(procs := w.procs[pid := AsProc(Inherited(w, pid, failed), n.guest)],
         newborn := w.newborn - {pid},
         queues := if n.parent in w.procs then w.queues[n.parent := Left(Queue(w, n.parent))] else w.queues)
    case DiscoverSharer(pid) => w.(queues := w.queues[pid := Left(Queue(w, pid))])
    case Exit(pid) => w.(procs := w.procs - {pid}, queues := w.queues - {pid})
    case Kill(pid) =>
      if pid in w.procs then w.(procs := w.procs - {pid}, lost := w.lost[pid := VirtualOf(w.procs[pid])])
      else w.(newborn := w.newborn - {pid})
  }

  predicate PossibleRun(w: World, run: seq<Event>)
    decreases |run|
  {
    run == [] || (Possible(w, run[0]) && PossibleRun(After(w, run[0]), run[1..]))
  }

  function AfterRun(w: World, run: seq<Event>): World
    requires PossibleRun(w, run)
    decreases |run|
  {
    if run == [] then w else AfterRun(After(w, run[0]), run[1..])
  }

  // ---------------------------------------------------------------- every run, exactly

  predicate InRange(g: Guest) { forall fd :: fd in g ==> 0 <= fd <= I32_MAX }

  ghost predicate AllRelated(w: World, floor: nat) {
    && (forall pid :: pid in w.procs ==> RelatedFrom(w.procs[pid], floor))
    && (forall pid :: pid in w.newborn ==> InRange(w.newborn[pid].guest))
  }

  /** Every kernel-backed file of v from the floor up was held under its number with its flag. */
  ghost predicate HeldIn(v: Virtual, g: Guest, floor: nat) {
    forall fd :: fd in v.fds && fd >= floor && v.fds[fd].file.Kernel? ==>
      fd in g && g[fd] == GuestFd(v.fds[fd].file.ofd, v.fds[fd].cloexec)
  }

  /** The condition, known before an event, under which it keeps every registered process related. */
  ghost predicate EventMeets(w: World, e: Event, floor: nat)
    requires Possible(w, e)
  {
    match e
    case Syscall(pid, call, env) => Keeps(w.procs[pid], call, env, floor)
    case Discover(pid, failed) => HeldIn(Inherited(w, pid, failed), w.newborn[pid].guest, floor)
    case _ => true
  }

  ghost predicate RunMeets(w: World, run: seq<Event>, floor: nat)
    requires PossibleRun(w, run)
    decreases |run|
  {
    run == [] || (EventMeets(w, run[0], floor) && RunMeets(After(w, run[0]), run[1..], floor))
  }

  /** The tables are related after every step of the run. */
  ghost predicate AlwaysRelated(w: World, run: seq<Event>, floor: nat)
    requires PossibleRun(w, run)
    decreases |run|
  {
    AllRelated(w, floor) && (run == [] || AlwaysRelated(After(w, run[0]), run[1..], floor))
  }

  lemma HeldIsRelated(v: Virtual, g: Guest, floor: nat)
    requires InRange(g)
    ensures RelatedFrom(AsProc(v, g), floor) <==> HeldIn(v, g, floor)
  {
    var p := AsProc(v, g);
    if HeldIn(v, g, floor) {
      forall fd | Backed(p, fd, floor) ensures Agrees(p, fd) {}
    } else {
      var fd :| fd in v.fds && fd >= floor && v.fds[fd].file.Kernel?
                && !(fd in g && g[fd] == GuestFd(v.fds[fd].file.ofd, v.fds[fd].cloexec));
      assert Backed(p, fd, floor) && !Agrees(p, fd);
    }
  }

  lemma SyscallExact(w: World, e: Event, floor: nat)
    requires AllRelated(w, floor) && Possible(w, e) && e.Syscall?
    ensures AllRelated(After(w, e), floor) <==> EventMeets(w, e, floor)
  {
    StepExact(w.procs[e.pid], e.call, e.env, floor);
    assert After(w, e).procs[e.pid] == Step(w.procs[e.pid], e.call, e.env);
  }

  lemma DiscoverExact(w: World, e: Event, floor: nat)
    requires AllRelated(w, floor) && Possible(w, e) && e.Discover?
    ensures AllRelated(After(w, e), floor) <==> EventMeets(w, e, floor)
  {
    var p := AsProc(Inherited(w, e.pid, e.failed), w.newborn[e.pid].guest);
    HeldIsRelated(Inherited(w, e.pid, e.failed), w.newborn[e.pid].guest, floor);
    var u := After(w, e);
    assert u.procs == w.procs[e.pid := p] && u.procs[e.pid] == p;
  }

  lemma UnseenInRange(g: Guest, c: Call, env: Env)
    requires KernelOnly(c) && InRange(g) && Sane(AsProc(EMPTY, g), env)
    ensures InRange(Native(g, c, env.pick, env.pick, env))
  {
  }

  lemma OthersRelated(w: World, e: Event, floor: nat)
    requires AllRelated(w, floor) && Possible(w, e) && !e.Syscall? && !e.Discover?
    ensures AllRelated(After(w, e), floor)
  {
    if e.Unseen? { UnseenInRange(w.newborn[e.pid].guest, e.call, e.env); }
  }

  lemma EventExact(w: World, e: Event, floor: nat)
    requires AllRelated(w, floor) && Possible(w, e)
    ensures AllRelated(After(w, e), floor) <==> EventMeets(w, e, floor)
  {
    match e
    case Syscall(_, _, _) => SyscallExact(w, e, floor);
    case Discover(_, _) => DiscoverExact(w, e, floor);
    case _ => OthersRelated(w, e, floor);
  }

  /** In every run of calls, clones, discoveries, exits and kills: every registered process stays related at
      every moment exactly when each call meets its condition and each discovery takes a table whose
      kernel-backed files the child holds. */
  lemma {:induction false} RunExact(w: World, run: seq<Event>, floor: nat)
    requires AllRelated(w, floor) && PossibleRun(w, run)
    ensures AlwaysRelated(w, run, floor) <==> RunMeets(w, run, floor)
    decreases |run|
  {
    if run != [] {
      EventExact(w, run[0], floor);
      if EventMeets(w, run[0], floor) { RunExact(After(w, run[0]), run[1..], floor); }
    }
  }

  // ---------------------------------------------------------------- the condition at the child's own clone

  predicate NoneUnseen(run: seq<Event>) { forall i :: 0 <= i < |run| ==> !run[i].Unseen? }

  ghost predicate AsBorn(w: World) { forall pid :: pid in w.newborn ==> w.newborn[pid].guest == w.newborn[pid].held }

  /** The same with the files the parent held when it made this child. */
  ghost predicate RunMeetsAtClone(w: World, run: seq<Event>, floor: nat)
    requires PossibleRun(w, run)
    decreases |run|
  {
    run == [] ||
    (&& (run[0].Discover? ==> HeldIn(Inherited(w, run[0].pid, run[0].failed), w.newborn[run[0].pid].held, floor))
     && (run[0].Syscall? ==> Keeps(w.procs[run[0].pid], run[0].call, run[0].env, floor))
     && RunMeetsAtClone(After(w, run[0]), run[1..], floor))
  }

  /** While no child changes its table unseen: exactly when each discovery takes a table whose kernel-backed
      files were held, with the same flags, at that child's own clone. */
  lemma {:induction false} RunExactAtClone(w: World, run: seq<Event>, floor: nat)
    requires AllRelated(w, floor) && PossibleRun(w, run) && AsBorn(w) && NoneUnseen(run)
    ensures AlwaysRelated(w, run, floor) <==> RunMeetsAtClone(w, run, floor)
    decreases |run|
  {
    if run != [] {
      EventExact(w, run[0], floor);
      assert AsBorn(After(w, run[0]));
      if EventMeets(w, run[0], floor) { RunExactAtClone(After(w, run[0]), run[1..], floor); }
    }
  }

  // ---------------------------------------------------------------- discovery in clone order

  /** The kernel grants what is asked for, and nothing but the kernel changes a flag unseen. */
  predicate Obliged(w: World, e: Event)
    requires Possible(w, e)
  {
    && (e.Syscall? ==> Obliging(w.procs[e.pid], e.call, e.env) && !e.call.Ioctl?)
    && (e.Unseen? ==> !e.call.Ioctl?)
  }

  predicate ObligedRun(w: World, run: seq<Event>)
    requires PossibleRun(w, run)
    decreases |run|
  {
    run == [] || (Obliged(w, run[0]) && ObligedRun(After(w, run[0]), run[1..]))
  }

  /** Who takes a parent's snapshots: a child with a table of its own, or one that shares the parent's. */
  datatype Claimant = Own(pid: nat) | Shared

  /** Each parent's children that are still to be discovered, oldest first. */
  type Owed = map<nat, seq<Claimant>>

  function Of(o: Owed, pid: nat): seq<Claimant> { if pid in o then o[pid] else [] }

  /** Every clone makes a child and at most eight of one parent are outstanding; they are discovered in
      clone order, and neither they nor their parent go before that. */
  predicate InOrder(w: World, o: Owed, e: Event)
    requires Possible(w, e)
  {
    match e
    case Clone(pid, made, _) => !made.Nothing? && |Of(o, pid)| < 8
    case Discover(pid, _) =>
      w.newborn[pid].parent in w.procs && Of(o, w.newborn[pid].parent) != [] && Of(o, w.newborn[pid].parent)[0] == Own(pid)
    case DiscoverSharer(pid) => Of(o, pid) != [] && Of(o, pid)[0].Shared?
    case Exit(pid) => Of(o, pid) == []
    case Kill(pid) => pid in w.procs && Of(o, pid) == []
    case _ => true
  }

  function OwedAfter(w: World, o: Owed, e: Event): Owed
    requires Possible(w, e) && InOrder(w, o, e)
  {
    match e
    case Clone(pid, made, _) => o[pid := Of(o, pid) + [if made.Child? then Own(made.pid) else Shared]]
    case Discover(pid, _) => o[w.newborn[pid].parent := Of(o, w.newborn[pid].parent)[1..]]
    case DiscoverSharer(pid) => o[pid := Of(o, pid)[1..]]
    case _ => o
  }

  predicate InOrderRun(w: World, o: Owed, run: seq<Event>)
    requires PossibleRun(w, run)
    decreases |run|
  {
    run == [] || (InOrder(w, o, run[0]) && InOrderRun(After(w, run[0]), OwedAfter(w, o, run[0]), run[1..]))
  }

  /** A parent's i-th snapshot is that of its i-th owed child: one with its own table holds what it tracks. */
  ghost predicate PairedAt(w: World, o: Owed, pid: nat, i: nat, floor: nat)
    requires i < |Of(o, pid)| == |Queue(w, pid)|
  {
    match Of(o, pid)[i]
    case Own(child) =>
      child in w.newborn && w.newborn[child].parent == pid && HeldIn(Queue(w, pid)[i], w.newborn[child].guest, floor)
    case Shared => true
  }

  ghost predicate PairedFor(w: World, o: Owed, pid: nat, floor: nat) {
    && |Queue(w, pid)| == |Of(o, pid)|
    && (forall i :: 0 <= i < |Of(o, pid)| ==> PairedAt(w, o, pid, i, floor))
    && (forall i, j :: 0 <= i < j < |Of(o, pid)| && Of(o, pid)[i].Own? ==> Of(o, pid)[i] != Of(o, pid)[j])
  }

  ghost predicate Paired(w: World, o: Owed, floor: nat) { forall pid :: PairedFor(w, o, pid, floor) }

  /** What a parent holds, its child holds. */
  lemma SnapshotHeld(p: Proc, failed: set<int>, floor: nat)
    requires RelatedFrom(p, floor)
    ensures HeldIn(Cloned(VirtualOf(p), failed), p.guest, floor)
  {
    var v := Cloned(VirtualOf(p), failed);
    forall fd | fd in v.fds && fd >= floor && v.fds[fd].file.Kernel?
      ensures fd in p.guest && p.guest[fd] == GuestFd(v.fds[fd].file.ofd, v.fds[fd].cloexec)
    {
      assert Backed(p, fd, floor) && Agrees(p, fd);
    }
  }

  /** An outstanding child is none that is being made. */
  lemma NoneOwedYet(w: World, o: Owed, e: Event, q: nat, floor: nat)
    requires Possible(w, e) && e.Clone? && PairedFor(w, o, q, floor)
    ensures forall i :: 0 <= i < |Of(o, q)| && e.made.Child? ==> Of(o, q)[i] != Own(e.made.pid)
  {
    forall i | 0 <= i < |Of(o, q)| ensures e.made.Child? ==> Of(o, q)[i] != Own(e.made.pid) { assert PairedAt(w, o, q, i, floor); }
  }

  lemma ClonePairsOther(w: World, o: Owed, e: Event, q: nat, floor: nat)
    requires Possible(w, e) && e.Clone? && InOrder(w, o, e) && PairedFor(w, o, q, floor) && q != e.pid
    ensures PairedFor(After(w, e), OwedAfter(w, o, e), q, floor)
  {
    var (u, p) := (After(w, e), OwedAfter(w, o, e));
    NoneOwedYet(w, o, e, q, floor);
    assert Of(p, q) == Of(o, q) && Queue(u, q) == Queue(w, q);
    forall i | 0 <= i < |Of(p, q)| ensures PairedAt(u, p, q, i, floor) { assert PairedAt(w, o, q, i, floor); }
  }

  lemma ClonePairs(w: World, o: Owed, e: Event, q: nat, floor: nat)
    requires AllRelated(w, floor) && Possible(w, e) && e.Clone? && InOrder(w, o, e) && PairedFor(w, o, q, floor)
    ensures PairedFor(After(w, e), OwedAfter(w, o, e), q, floor)
  {
    if q != e.pid {
      ClonePairsOther(w, o, e, q, floor);
    } else {
      var (u, p) := (After(w, e), OwedAfter(w, o, e));
      NoneOwedYet(w, o, e, q, floor);
      SnapshotHeld(w.procs[q], e.failed, floor);
      assert Queue(u, q) == Queue(w, q) + [Cloned(VirtualOf(w.procs[q]), e.failed)];
      forall i | 0 <= i < |Of(p, q)| ensures PairedAt(u, p, q, i, floor) {
        if i < |Of(o, q)| { assert PairedAt(w, o, q, i, floor); }
      }
    }
  }

  lemma SharerPairs(w: World, o: Owed, e: Event, q: nat, floor: nat)
    requires Possible(w, e) && e.DiscoverSharer? && InOrder(w, o, e) && PairedFor(w, o, q, floor)
    requires PairedFor(w, o, e.pid, floor)
    ensures PairedFor(After(w, e), OwedAfter(w, o, e), q, floor)
  {
    var (u, p) := (After(w, e), OwedAfter(w, o, e));
    forall i | 0 <= i < |Of(p, q)| ensures PairedAt(u, p, q, i, floor) {
      assert PairedAt(w, o, q, if q == e.pid then i + 1 else i, floor);
    }
  }

  lemma DiscoverPairs(w: World, o: Owed, e: Event, q: nat, floor: nat)
    requires Possible(w, e) && e.Discover? && InOrder(w, o, e) && PairedFor(w, o, q, floor)
    requires PairedFor(w, o, w.newborn[e.pid].parent, floor)
    ensures PairedFor(After(w, e), OwedAfter(w, o, e), q, floor)
  {
    var (u, p, parent) := (After(w, e), OwedAfter(w, o, e), w.newborn[e.pid].parent);
    forall i | 0 <= i < |Of(p, q)| ensures PairedAt(u, p, q, i, floor) {
      assert PairedAt(w, o, q, if q == parent then i + 1 else i, floor);
    }
  }

  /** A call no handler sees leaves the numbers from 3 up as they were, but for a new one. */
  lemma UnseenHolds(v: Virtual, g: Guest, c: Call, env: Env)
    requires KernelOnly(c) && !c.Ioctl? && Sane(AsProc(EMPTY, g), env) && HeldIn(v, g, 3)
    ensures HeldIn(v, Native(g, c, env.pick, env.pick, env), 3)
  {
  }

  lemma UnseenPairs(w: World, o: Owed, e: Event, q: nat)
    requires Possible(w, e) && e.Unseen? && !e.call.Ioctl? && PairedFor(w, o, q, 3)
    ensures PairedFor(After(w, e), o, q, 3)
  {
    var u := After(w, e);
    forall i | 0 <= i < |Of(o, q)| ensures PairedAt(u, o, q, i, 3) {
      assert PairedAt(w, o, q, i, 3);
      if Of(o, q)[i] == Own(e.pid) { UnseenHolds(Queue(w, q)[i], w.newborn[e.pid].guest, e.call, e.env); }
    }
  }

  lemma OtherPairs(w: World, o: Owed, e: Event, q: nat)
    requires Possible(w, e) && InOrder(w, o, e) && (e.Syscall? || e.Exit? || e.Kill?) && PairedFor(w, o, q, 3)
    ensures PairedFor(After(w, e), o, q, 3)
  {
    var u := After(w, e);
    forall i | 0 <= i < |Of(o, q)| ensures PairedAt(u, o, q, i, 3) { assert PairedAt(w, o, q, i, 3); }
  }

  lemma PairedStays(w: World, o: Owed, e: Event)
    requires AllRelated(w, 3) && Paired(w, o, 3) && Possible(w, e) && InOrder(w, o, e) && Obliged(w, e)
    ensures Paired(After(w, e), OwedAfter(w, o, e), 3)
  {
    forall q ensures PairedFor(After(w, e), OwedAfter(w, o, e), q, 3) {
      assert PairedFor(w, o, q, 3);
      match e
      case Clone(_, _, _) => ClonePairs(w, o, e, q, 3);
      case Discover(pid, _) =>
        assert PairedFor(w, o, w.newborn[pid].parent, 3);
        DiscoverPairs(w, o, e, q, 3);
      case DiscoverSharer(pid) =>
        assert PairedFor(w, o, pid, 3);
        SharerPairs(w, o, e, q, 3);
      case Unseen(_, _, _) => UnseenPairs(w, o, e, q);
      case _ => OtherPairs(w, o, e, q);
    }
  }

  lemma InOrderMeets(w: World, o: Owed, e: Event)
    requires AllRelated(w, 3) && Paired(w, o, 3) && Possible(w, e) && InOrder(w, o, e) && Obliged(w, e)
    ensures EventMeets(w, e, 3)
  {
    match e
    case Syscall(pid, call, env) => ObligingKeeps(w.procs[pid], call, env);
    case Discover(pid, _) =>
      assert PairedFor(w, o, w.newborn[pid].parent, 3);
      assert PairedAt(w, o, w.newborn[pid].parent, 0, 3);
    case _ =>
  }

  /** With numbers granted, targets below the limit and ranges agreeing, and each parent's children
      discovered in the order it made them: each tracked kernel-backed fd from 3 up of every registered
      process is at every moment open there, on the same open file, with the same flag. */
  lemma {:induction false} RunKeeps(w: World, o: Owed, run: seq<Event>)
    requires AllRelated(w, 3) && Paired(w, o, 3) && PossibleRun(w, run) && ObligedRun(w, run) && InOrderRun(w, o, run)
    ensures AlwaysRelated(w, run, 3)
    decreases |run|
  {
    if run != [] {
      InOrderMeets(w, o, run[0]);
      EventExact(w, run[0], 3);
      PairedStays(w, o, run[0]);
      RunKeeps(After(w, run[0]), OwedAfter(w, o, run[0]), run[1..]);
    }
  }

  function Alone(pid: nat, guest: Guest): World { World(map[pid := Proc(map[], 3, guest)], map[], map[], map[], pid) }

  /** The first process starts with an empty virtual table, whatever the kernel table holds. */
  lemma FreshGuestIsRelated(pid: nat, guest: Guest, run: seq<Event>, floor: nat)
    requires InRange(guest) && PossibleRun(Alone(pid, guest), run)
    ensures AlwaysRelated(Alone(pid, guest), run, floor) <==> RunMeets(Alone(pid, guest), run, floor)
    ensures ObligedRun(Alone(pid, guest), run) && InOrderRun(Alone(pid, guest), map[], run) ==>
              AlwaysRelated(Alone(pid, guest), run, 3)
  {
    var w := Alone(pid, guest);
    RunExact(w, run, floor);
    if ObligedRun(w, run) && InOrderRun(w, map[], run) {
      forall q ensures PairedFor(w, map[], q, 3) {}
      RunKeeps(w, map[], run);
    }
  }

  // ---------------------------------------------------------------- discovery out of order

  lemma RunFrom(w: World, e: Event, rest: seq<Event>)
    requires Possible(w, e) && Obliged(w, e) && PossibleRun(After(w, e), rest) && ObligedRun(After(w, e), rest)
    ensures PossibleRun(w, [e] + rest) && ObligedRun(w, [e] + rest)
    ensures AfterRun(w, [e] + rest) == AfterRun(After(w, e), rest)
  {
    assert ([e] + rest)[1..] == rest;
  }

  /** A run that ends unrelated was not related throughout. */
  lemma {:induction false} EndsUnrelated(w: World, run: seq<Event>, floor: nat)
    requires PossibleRun(w, run) && !AllRelated(AfterRun(w, run), floor)
    ensures !AlwaysRelated(w, run, floor)
    decreases |run|
  {
    if run != [] { EndsUnrelated(After(w, run[0]), run[1..], floor); }
  }

  /** A child whose parent is gone by then is adopted, and no snapshot is taken: its tables are related exactly
      if it holds, with the same flags, every kernel-backed file of the init's table that could be copied. */
  lemma OrphanExact(w: World, pid: nat, failed: set<int>, floor: nat)
    requires AllRelated(w, floor) && pid in w.newborn && w.newborn[pid].parent !in w.procs && w.init in w.procs
    ensures var (t, g) := (w.procs[w.init].table, w.newborn[pid].guest);
            AllRelated(After(w, Discover(pid, failed)), floor) <==>
              forall fd :: fd in t && fd >= floor && fd !in failed && t[fd].file.Kernel? ==>
                fd in g && g[fd] == GuestFd(t[fd].file.ofd, t[fd].cloexec)
    ensures After(w, Discover(pid, failed)).queues == w.queues
  {
    var (e, t, g) := (Discover(pid, failed), w.procs[w.init].table, w.newborn[pid].guest);
    var v := Inherited(w, pid, failed);
    assert v.fds == ForkedTable(t, failed);
    EventExact(w, e, floor);
    if HeldIn(v, g, floor) {
      forall fd | fd in t && fd >= floor && fd !in failed && t[fd].file.Kernel?
        ensures fd in g && g[fd] == GuestFd(t[fd].file.ofd, t[fd].cloexec)
      {
        assert fd in v.fds && v.fds[fd] == t[fd];
      }
    }
  }

  function Parent(fd: int): World { World(map[1 := OneFd(fd)], map[], map[], map[], 1) }

  /** After a first clone left a snapshot behind: the parent closes the file and makes another child, and
      that one is discovered. It gets the first snapshot. */
  lemma StaleSnapshot(w: World, fd: int, env: Env) returns (run: seq<Event>)
    requires 3 <= fd <= I32_MAX && Obliging(OneFd(fd), Close(fd), env)
    requires w.procs == map[1 := OneFd(fd)] && Queue(w, 1) == [VirtualOf(OneFd(fd))] && Unused(w, 3)
    ensures run == [Event.Syscall(1, Close(fd), env), Clone(1, Child(3), {}), Discover(3, {})]
    ensures PossibleRun(w, run) && ObligedRun(w, run)
    ensures var after := AfterRun(w, run);
            3 in after.procs && Backed(after.procs[3], fd, 3) && after.procs[3].guest == map[] && !AllRelated(after, 3)
  {
    var (b, c, d) := (Event.Syscall(1, Close(fd), env), Clone(1, Child(3), {}), Discover(3, {}));
    var w1 := After(w, b);
    assert w1.procs[1].guest == map[] && w1.procs[1].table == map[];
    var rest := StaleDiscovery(w1, fd);
    RunFrom(w, b, rest);
    run := [b] + rest;
  }

  /** With the file's snapshot still queued, the child of a parent that holds nothing any more. */
  lemma StaleDiscovery(w: World, fd: int) returns (run: seq<Event>)
    requires 3 <= fd && 1 in w.procs && w.procs[1].guest == map[] && Queue(w, 1) == [VirtualOf(OneFd(fd))] && Unused(w, 3)
    ensures run == [Clone(1, Child(3), {}), Discover(3, {})] && PossibleRun(w, run) && ObligedRun(w, run)
    ensures var after := AfterRun(w, run);
            3 in after.procs && after.procs[3] == AsProc(VirtualOf(OneFd(fd)), map[]) && !AllRelated(after, 3)
  {
    var (c, d) := (Clone(1, Child(3), {}), Discover(3, {}));
    var w2 := After(w, c);
    assert Queue(w2, 1)[0] == VirtualOf(OneFd(fd)) && w2.newborn[3] == Newborn(1, map[], map[]);
    var p := After(w2, d).procs[3];
    assert Backed(p, fd, 3) && !Agrees(p, fd);
    RunFrom(w2, d, []);
    RunFrom(w, c, [d]);
    run := [c] + [d];
    assert [d] + [] == [d];
  }

  /** A parent makes a child, closes a pipe and makes another, and the second calls first: it tracks the pipe
      it does not hold, though every call kept its process related. */
  lemma SecondChildFirst(fd: int, env: Env)
    requires 3 <= fd <= I32_MAX && Obliging(OneFd(fd), Close(fd), env)
    ensures var run := [Clone(1, Child(2), {}), Event.Syscall(1, Close(fd), env), Clone(1, Child(3), {}), Discover(3, {})];
            && AllRelated(Parent(fd), 3) && PossibleRun(Parent(fd), run) && ObligedRun(Parent(fd), run)
            && !AlwaysRelated(Parent(fd), run, 3)
            && var after := AfterRun(Parent(fd), run);
               3 in after.procs && Backed(after.procs[3], fd, 3) && fd !in after.procs[3].guest
  {
    var (w, a) := (Parent(fd), Clone(1, Child(2), {}));
    assert Cloned(VirtualOf(OneFd(fd)), {}) == VirtualOf(OneFd(fd));
    assert Queue(After(w, a), 1) == [VirtualOf(OneFd(fd))];
    var rest := StaleSnapshot(After(w, a), fd, env);
    RunFrom(w, a, rest);
    EndsUnrelated(w, [a] + rest, 3);
    assert [a] + rest == [a, rest[0], rest[1], rest[2]];
  }

  /** So it is in clone order too, once a clone failed or its child died unseen. */
  lemma LostClaimShifts(fd: int, made: Made, env: Env)
    requires 3 <= fd <= I32_MAX && Obliging(OneFd(fd), Close(fd), env) && (made.Child? ==> made.pid == 2)
    ensures var first := if made.Child? then [Clone(1, made, {}), Kill(2)] else [Clone(1, made, {})];
            var run := first + [Event.Syscall(1, Close(fd), env), Clone(1, Child(3), {}), Discover(3, {})];
            PossibleRun(Parent(fd), run) && ObligedRun(Parent(fd), run) && !AlwaysRelated(Parent(fd), run, 3)
  {
    var (w, a) := (Parent(fd), Clone(1, made, {}));
    assert Cloned(VirtualOf(OneFd(fd)), {}) == VirtualOf(OneFd(fd));
    assert Queue(After(w, a), 1) == [VirtualOf(OneFd(fd))];
    if made.Child? {
      var w2 := After(After(w, a), Kill(2));
      var rest := StaleSnapshot(w2, fd, env);
      RunFrom(After(w, a), Kill(2), rest);
      RunFrom(w, a, [Kill(2)] + rest);
      EndsUnrelated(w, [a] + ([Kill(2)] + rest), 3);
      assert [a, Kill(2)] + rest == [a] + ([Kill(2)] + rest);
    } else {
      var rest := StaleSnapshot(After(w, a), fd, env);
      RunFrom(w, a, rest);
      EndsUnrelated(w, [a] + rest, 3);
    }
  }

  // ---------------------------------------------------------------- who holds a file open

  /** The table tracks an open file from the floor up, so the supervisor has it open. */
  ghost predicate Tracks(v: Virtual, ofd: nat, floor: nat) {
    exists fd :: fd in v.fds && fd >= floor && v.fds[fd].file == Kernel(ofd)
  }

  /** Some unclaimed snapshot does. */
  ghost predicate Queued(w: World, ofd: nat, floor: nat) {
    exists pid, i :: pid in w.queues && 0 <= i < |w.queues[pid]| && Tracks(w.queues[pid][i], ofd, floor)
  }

  /** The table of a process killed by a signal does. */
  ghost predicate Stranded(w: World, ofd: nat, floor: nat) { exists pid :: pid in w.lost && Tracks(w.lost[pid], ofd, floor) }

  ghost predicate SupervisorHolds(w: World, ofd: nat, floor: nat) {
    (exists pid :: pid in w.procs && Tracks(VirtualOf(w.procs[pid]), ofd, floor)) || Queued(w, ofd, floor) || Stranded(w, ofd, floor)
  }

  /** No registered process holds the file at a number from the floor up. */
  predicate ClosedEverywhere(w: World, ofd: nat, floor: nat) {
    forall pid :: pid in w.procs ==> forall fd :: fd in w.procs[pid].guest && fd >= floor ==> w.procs[pid].guest[fd].ofd != ofd
  }

  /** Once every registered process has closed a file, the supervisor still holds it, so that a reader of the
      pipe sees no end of file, exactly if an unclaimed snapshot or a killed process's table does. */
  lemma LastCloseExact(w: World, ofd: nat, floor: nat)
    requires AllRelated(w, floor) && ClosedEverywhere(w, ofd, floor)
    ensures SupervisorHolds(w, ofd, floor) <==> Queued(w, ofd, floor) || Stranded(w, ofd, floor)
  {
    forall pid | pid in w.procs ensures !Tracks(VirtualOf(w.procs[pid]), ofd, floor) {
      LastCloseReleases(w.procs[pid], ofd, floor);
      forall fd | fd in w.procs[pid].table && fd >= floor ensures w.procs[pid].table[fd].file != Kernel(ofd) {
        assert w.procs[pid].table[fd].file.Kernel? ==> Backed(w.procs[pid], fd, floor);
      }
    }
  }

  /** With all children discovered in order and no process killed, the last close releases the file. */
  lemma NothingHeldBack(w: World, o: Owed, ofd: nat)
    requires AllRelated(w, 3) && Paired(w, o, 3) && (forall pid :: Of(o, pid) == []) && w.lost == map[]
    requires ClosedEverywhere(w, ofd, 3)
    ensures !SupervisorHolds(w, ofd, 3)
  {
    LastCloseExact(w, ofd, 3);
    forall pid | pid in w.queues ensures w.queues[pid] == [] { assert PairedFor(w, o, pid, 3) && Of(o, pid) == []; }
  }

  /** Something other than pid's own table and snapshots does. */
  ghost predicate OthersHold(w: World, pid: nat, ofd: nat, floor: nat) {
    || (exists q :: q in w.procs && q != pid && Tracks(VirtualOf(w.procs[q]), ofd, floor))
    || (exists q, i :: q in w.queues && q != pid && 0 <= i < |w.queues[q]| && Tracks(w.queues[q][i], ofd, floor))
    || Stranded(w, ofd, floor)
  }

  /** An exit releases whatever only the process's table and its unclaimed snapshots held. */
  lemma ExitReleases(w: World, pid: nat, ofd: nat, floor: nat)
    requires pid in w.procs
    ensures SupervisorHolds(After(w, Exit(pid)), ofd, floor) <==> OthersHold(w, pid, ofd, floor)
  {
    var u := After(w, Exit(pid));
    if OthersHold(w, pid, ofd, floor) && !Stranded(w, ofd, floor) {
      if q :| q in w.procs && q != pid && Tracks(VirtualOf(w.procs[q]), ofd, floor) {
        assert q in u.procs && u.procs[q] == w.procs[q];
      } else {
        var q, i :| q in w.queues && q != pid && 0 <= i < |w.queues[q]| && Tracks(w.queues[q][i], ofd, floor);
        assert q in u.queues && u.queues[q] == w.queues[q];
      }
    }
  }

  /** A kill releases nothing. */
  lemma KillReleasesNothing(w: World, pid: nat, ofd: nat, floor: nat)
    requires pid in w.procs && pid !in w.lost
    ensures SupervisorHolds(After(w, Kill(pid)), ofd, floor) <==> SupervisorHolds(w, ofd, floor)
  {
    var u := After(w, Kill(pid));
    assert u.lost[pid] == VirtualOf(w.procs[pid]) && u.queues == w.queues;
    if q :| q in w.procs && Tracks(VirtualOf(w.procs[q]), ofd, floor) {
      assert if q == pid then q in u.lost else q in u.procs && u.procs[q] == w.procs[q];
    }
    if Stranded(w, ofd, floor) {
      var q :| q in w.lost && Tracks(w.lost[q], ofd, floor);
      assert q in u.lost && u.lost[q] == w.lost[q];
    }
  }

  /** A child that dies before it is discovered never will be; its snapshot stays. */
  lemma KilledUnseen(w: World, pid: nat, failed: set<int>)
    requires pid in w.newborn && pid !in w.procs
    ensures !Possible(After(w, Kill(pid)), Discover(pid, failed))
    ensures var u := After(w, Kill(pid));
            u.procs == w.procs && u.queues == w.queues && u.lost == w.lost && u.newborn == w.newborn - {pid}
  {
  }

  /** A killed process's table stays in whatever happens later. */
  lemma {:induction false} StrandedStays(w: World, run: seq<Event>, pid: nat)
    requires PossibleRun(w, run) && pid in w.lost && pid !in w.procs && pid !in w.newborn
    ensures pid in AfterRun(w, run).lost && AfterRun(w, run).lost[pid] == w.lost[pid]
    decreases |run|
  {
    if run != [] { StrandedStays(After(w, run[0]), run[1..], pid); }
  }
}
