/** The supervisor's registry of guest tasks: which virtual fd table each uses, and the tables captured
    at clone for children that are discovered only when they first make an intercepted call. */
module Processes {
  import opened Results
  import opened FdProtocol

  /** Snapshots kept for one parent. */
  const MAX_SNAPSHOTS: nat := 8

  /** A virtual fd table as a value. */
  datatype Virtual = Virtual(fds: Table, next: int)

  /** deep_clone; the kernel refuses to duplicate the files at the numbers in `failed`. */
  function Cloned(v: Virtual, failed: set<int>): Virtual { Virtual(ForkedTable(v.fds, failed), v.next) }

  // ---------------------------------------------------------------- one parent's queue

  function Newest(q: seq<Virtual>): seq<Virtual> {
    if |q| > MAX_SNAPSHOTS then q[|q| - MAX_SNAPSHOTS..] else q
  }

  /** A clone adds a snapshot and drops the oldest past the bound. */
  function Pushed(q: seq<Virtual>, v: Virtual): seq<Virtual> { Newest(q + [v]) }

  /** A discovered child takes the oldest snapshot, or without one its parent's table as it is by then. */
  function Claimed(q: seq<Virtual>, live: Virtual, failed: set<int>): Virtual {
    if q != [] then q[0] else Cloned(live, failed)
  }

  function Left(q: seq<Virtual>): seq<Virtual> { if q != [] then q[1..] else q }

  function PushedAll(q: seq<Virtual>, vs: seq<Virtual>): seq<Virtual>
    decreases |vs|
  {
    if vs == [] then q else PushedAll(Pushed(q, vs[0]), vs[1..])
  }

  lemma {:induction false} PushedAllIsNewest(q: seq<Virtual>, vs: seq<Virtual>)
    requires |q| <= MAX_SNAPSHOTS
    ensures PushedAll(q, vs) == Newest(q + vs)
    decreases |vs|
  {
    if vs == [] {
      assert q + vs == q;
    } else {
      PushedAllIsNewest(Pushed(q, vs[0]), vs[1..]);
      assert q + [vs[0]] + vs[1..] == q + vs;
      NewestTwice(q + [vs[0]], vs[1..]);
    }
  }

  lemma NewestTwice(q: seq<Virtual>, more: seq<Virtual>)
    ensures Newest(Newest(q) + more) == Newest(q + more)
  {
  }

  /** Up to eight in all nothing is lost; eight clones later nothing of an unclaimed snapshot is left. */
  lemma EightClonesForget(q: seq<Virtual>, vs: seq<Virtual>)
    requires |q| <= 8
    ensures |q| + |vs| <= 8 ==> PushedAll(q, vs) == q + vs
    ensures |vs| >= 8 ==> PushedAll(q, vs) == vs[|vs| - 8..]
  {
    PushedAllIsNewest(q, vs);
    NewestOfBoth(q, vs);
  }

  lemma NewestOfBoth(q: seq<Virtual>, vs: seq<Virtual>)
    requires |q| <= 8
    ensures |q| + |vs| <= 8 ==> Newest(q + vs) == q + vs
    ensures |vs| >= 8 ==> Newest(q + vs) == vs[|vs| - 8..]
  {
    if |vs| >= 8 {
      var all := q + vs;
      assert all[|all| - 8..] == vs[|vs| - 8..];
    }
  }

  // ---------------------------------------------------------------- where a task is registered

  /** `parent` is the creating task, or the init task for an adopted orphan. */
  datatype Thread = Thread(tgid: nat, parent: Option<nat>, fdTable: nat)

  datatype Slot = Slot(value: Virtual, refs: int)

  /** The clone flags that matter; `namespaces` are the kinds that are refused. */
  datatype Flags = Flags(thread: bool, files: bool, fs: bool, namespaces: bool)

  /** What /proc says of a task. */
  datatype Status = Status(tgid: nat, ptid: nat)

  datatype Outcome = Registered | NotFound | NotInSandbox | Unsupported

  /** Under which known task a new one goes, with what flags, and whether it may claim a snapshot. */
  datatype Plan = Under(parent: nat, flags: Flags, claims: bool) | Refuse

  const NO_FLAGS := Flags(false, false, false, false)

  predicate SharesFiles(flags: Flags) { flags.thread || flags.files }

  predicate SharesAll(flags: Flags) { flags.thread || (flags.files && flags.fs) }

  function PlanFor(known: set<nat>, init: nat, tid: nat, status: Status, detected: Flags, adopt: bool): Plan {
    if status.ptid in known then
      Under(status.ptid, detected.(thread := detected.thread || status.tgid != tid), true)
    else if !adopt then Refuse
    else if status.tgid != tid && status.tgid in known then Under(status.tgid, NO_FLAGS.(thread := true), true)
    else Under(init, NO_FLAGS, false)
  }

  /** A task is refused exactly if its parent is unknown and it may not be adopted. Under a known parent it
      shares what it was seen to share, a thread everything, and claims a snapshot unless it shares both the
      table and the directory; a thread of a known process shares that one's table; any other task has the
      init's, copied, and takes no snapshot. */
  lemma PlanExact(known: set<nat>, init: nat, tid: nat, status: Status, detected: Flags, adopt: bool)
    ensures var plan := PlanFor(known, init, tid, status, detected, adopt);
            && (plan.Refuse? <==> status.ptid !in known && !adopt)
            && (plan.Under? ==>
                  var (joins, member) := (status.ptid in known, status.tgid != tid);
                  && plan.parent == (if joins then status.ptid else if member && status.tgid in known then status.tgid else init)
                  && (SharesFiles(plan.flags) <==>
                        if joins then member || detected.thread || detected.files else member && status.tgid in known)
                  && (plan.claims && !SharesAll(plan.flags) <==>
                        joins && !member && !detected.thread && !(detected.files && detected.fs))
                  && (plan.flags.thread <==> if joins then member || detected.thread else member && status.tgid in known)
                  && (plan.flags.namespaces <==> joins && detected.namespaces))
  {
  }

  /** A thread's /proc entry names the parent of its whole process, so a thread gets the table of its own
      process exactly when that parent is unknown (as the init's is) or shares the table. */
  lemma ThreadTableExact(tasks: map<nat, Thread>, init: nat, tid: nat, status: Status, detected: Flags)
    requires status.tgid != tid && status.tgid in tasks
    ensures var plan := PlanFor(tasks.Keys, init, tid, status, detected, true);
            && plan.Under? && SharesFiles(plan.flags) && plan.parent in tasks
            && (tasks[plan.parent].fdTable == tasks[status.tgid].fdTable <==>
                  (status.ptid in tasks ==> tasks[status.ptid].fdTable == tasks[status.tgid].fdTable))
  {
  }

  // ---------------------------------------------------------------- reference counts

  /** The tasks that use a table. */
  function Users(tasks: map<nat, Thread>, id: nat): set<nat> { set t | t in tasks && tasks[t].fdTable == id }

  ghost predicate Counted(tasks: map<nat, Thread>, tables: map<nat, Slot>) {
    && (forall t :: t in tasks ==> tasks[t].fdTable in tables)
    && (forall id {:trigger CountedAt(tasks, tables, id)} :: id in tables ==> CountedAt(tasks, tables, id))
  }

  ghost predicate CountedAt(tasks: map<nat, Thread>, tables: map<nat, Slot>, id: nat)
    requires id in tables
  {
    tables[id].refs == |Users(tasks, id)| && tables[id].refs > 0
  }

  lemma UsersAdded(tasks: map<nat, Thread>, tid: nat, thread: Thread, id: nat)
    requires tid !in tasks
    ensures Users(tasks[tid := thread], id) == if thread.fdTable == id then Users(tasks, id) + {tid} else Users(tasks, id)
  {
  }

  lemma UsersRemoved(tasks: map<nat, Thread>, tid: nat, id: nat)
    requires tid in tasks
    ensures Users(tasks - {tid}, id) == Users(tasks, id) - {tid}
    ensures tid in Users(tasks, id) <==> tasks[tid].fdTable == id
  {
  }

  /** The tasks left once one has exited: its children go to the init task. */
  function Orphaned(tasks: map<nat, Thread>, tid: nat, init: nat): map<nat, Thread> {
    map t | t in tasks && t != tid ::
      if tasks[t].parent == Some(tid) then tasks[t].(parent := Some(init)) else tasks[t]
  }

  lemma UsersOrphaned(tasks: map<nat, Thread>, tid: nat, init: nat, id: nat)
    requires tid in tasks
    ensures Users(Orphaned(tasks, tid, init), id) == Users(tasks - {tid}, id)
  {
  }

  /** Every task but the init has a registered parent. */
  predicate OneFamily(tasks: map<nat, Thread>, init: nat) {
    init in tasks && forall t :: t in tasks && t != init ==> tasks[t].parent.Some? && tasks[t].parent.value in tasks
  }

  /** An exit keeps it so, and changes nothing of the others but their parent. */
  lemma ExitKeepsFamily(tasks: map<nat, Thread>, tid: nat, init: nat)
    requires OneFamily(tasks, init) && tid != init
    ensures OneFamily(Orphaned(tasks, tid, init), init) && Orphaned(tasks, tid, init).Keys == tasks.Keys - {tid}
    ensures forall t :: t in tasks && t != tid ==>
              && Orphaned(tasks, tid, init)[t].(parent := tasks[t].parent) == tasks[t]
              && (tasks[t].parent != Some(tid) ==> Orphaned(tasks, tid, init)[t].parent == tasks[t].parent)
  {
    var after := Orphaned(tasks, tid, init);
    forall t | t in after && t != init ensures after[t].parent.Some? && after[t].parent.value in after {
      assert t in tasks && tasks[t].parent.Some?;
    }
  }

  /** No other task has the table. */
  predicate OwnTable(tasks: map<nat, Thread>, tid: nat)
    requires tid in tasks
  {
    forall t :: t in tasks && t != tid ==> tasks[t].fdTable != tasks[tid].fdTable
  }

  class Threads {
    var tasks: map<nat, Thread>
    var fdTables: map<nat, Slot>
    var forkSnapshots: map<nat, seq<Virtual>>
    var nextFdt: nat
    const initTid: nat

    /** A table is kept exactly as long as some task uses it, and counts its users. */
    ghost predicate Valid()
      reads this
    {
      Counted(tasks, fdTables) && forall id :: id in fdTables ==> id < nextFdt
    }

    function TableOf(tid: nat): Virtual
      requires tid in tasks && tasks[tid].fdTable in fdTables
      reads this
    {
      fdTables[tasks[tid].fdTable].value
    }

    function Queue(tid: nat): seq<Virtual>
      reads this
    {
      if tid in forkSnapshots then forkSnapshots[tid] else []
    }

    /** The registry holds the first guest task, with an empty table. */
    constructor (initTid: nat)
      ensures Valid() && this.initTid == initTid && forkSnapshots == map[]
      ensures tasks.Keys == {initTid} && TableOf(initTid) == Virtual(map[], 3)
      ensures tasks[initTid].tgid == initTid && tasks[initTid].parent == None
    {
      this.initTid := initTid;
      tasks := map[initTid := Thread(initTid, None, 1)];
      fdTables := map[1 := Slot(Virtual(map[], 3), 1)];
      forkSnapshots := map[];
      nextFdt := 2;
      new;
      assert Users(tasks, 1) == {initTid};
    }

    /** At a clone that is not a thread's: the caller's table, duplicated, joins its queue. */
    method SnapshotFork(parent: nat, failed: set<int>)
      requires Valid()
      modifies this`forkSnapshots
      ensures Valid()
      ensures forkSnapshots ==
                if parent in tasks then old(forkSnapshots)[parent := Pushed(old(Queue(parent)), Cloned(TableOf(parent), failed))]
                else old(forkSnapshots)
    {
      if parent !in tasks { return; }
      var queue := DropOldest(Queue(parent) + [Cloned(TableOf(parent), failed)]);
      forkSnapshots := forkSnapshots[parent := queue];
    }

    static method DropOldest(all: seq<Virtual>) returns (queue: seq<Virtual>)
      ensures queue == Newest(all)
    {
      queue := all;
      while |queue| > MAX_SNAPSHOTS
        invariant Newest(queue) == Newest(all)
      {
        queue := queue[1..];
      }
    }

    method PopSnapshot(parent: nat) returns (snapshot: Option<Virtual>)
      modifies this`forkSnapshots
      ensures snapshot == if old(Queue(parent)) == [] then None else Some(old(Queue(parent))[0])
      ensures forkSnapshots == if old(Queue(parent)) == [] then old(forkSnapshots)
                               else old(forkSnapshots)[parent := Left(old(Queue(parent)))]
    {
      var queue := Queue(parent);
      if queue == [] { return None; }
      forkSnapshots := forkSnapshots[parent := queue[1..]];
      snapshot := Some(queue[0]);
    }

    /** A new task with its parent's table, counted once more, or with a table of its own. */
    method AddTask(parent: nat, child: nat, tgid: nat, share: bool, own: Virtual)
      requires Valid() && parent in tasks && child !in tasks
      modifies this`tasks, this`fdTables, this`nextFdt
      ensures Valid()
      ensures tasks == old(tasks)[child := Thread(tgid, Some(parent), if share then old(tasks)[parent].fdTable else old(nextFdt))]
      ensures !share ==> forall t :: t in old(tasks) ==> old(tasks)[t].fdTable != old(nextFdt)
      ensures forall t :: t in old(tasks) ==> TableOf(t) == old(TableOf(t))
      ensures !share ==> TableOf(child) == own
    {
      ghost var (before, tables) := (tasks, fdTables);
      var id := tasks[parent].fdTable;
      if share {
        fdTables := fdTables[id := fdTables[id].(refs := fdTables[id].refs + 1)];
      } else {
        id := nextFdt;
        nextFdt := nextFdt + 1;
        fdTables := fdTables[id := Slot(own, 1)];
      }
      tasks := tasks[child := Thread(tgid, Some(parent), id)];
      CountedAfter(before, tables, child, tasks[child], fdTables);
    }

    /** Add a task beside its parent: it shares the parent's table, or claims a snapshot of its own. A child
        that shares the table but not the directory claims one too, and drops the table in it. */
    method RegisterChild(parent: nat, child: nat, flags: Flags, failed: set<int>) returns (r: Outcome)
      requires Valid() && child !in tasks
      modifies this
      ensures Valid()
      ensures r == if flags.namespaces then Unsupported else if parent !in old(tasks) then NotFound else Registered
      ensures r != Registered ==> tasks == old(tasks) && fdTables == old(fdTables) && forkSnapshots == old(forkSnapshots)
      ensures r == Registered ==>
                && tasks.Keys == old(tasks).Keys + {child} && (forall t :: t in old(tasks) ==> tasks[t] == old(tasks)[t])
                && tasks[child].parent == Some(parent)
                && tasks[child].tgid == (if flags.thread then tasks[parent].tgid else child)
                && (tasks[child].fdTable == tasks[parent].fdTable <==> SharesFiles(flags))
                && (!SharesFiles(flags) ==> TableOf(child) == Claimed(old(Queue(parent)), old(TableOf(parent)), failed))
                && (!SharesFiles(flags) ==> OwnTable(tasks, child))
                && (forall t :: t in old(tasks) ==> TableOf(t) == old(TableOf(t)))
                && forkSnapshots == if SharesAll(flags) || old(Queue(parent)) == [] then old(forkSnapshots)
                                    else old(forkSnapshots)[parent := Left(old(Queue(parent)))]
    {
      if flags.namespaces { return Unsupported; }
      if parent !in tasks { return NotFound; }
      var own := Cloned(TableOf(parent), failed);
      var snapshot: Option<Virtual> := None;
      if !SharesAll(flags) { snapshot := PopSnapshot(parent); }
      var tgid := if flags.thread then tasks[parent].tgid else child;
      AddTask(parent, child, tgid, SharesFiles(flags), if snapshot.Some? then snapshot.value else own);
      r := Registered;
    }

    /** An orphan goes under the init task with a copy of its table, and leaves its snapshots alone. */
    method Adopt(tid: nat, failed: set<int>) returns (r: Outcome)
      requires Valid() && tid !in tasks
      modifies this
      ensures Valid() && forkSnapshots == old(forkSnapshots)
      ensures r == if initTid in old(tasks) then Registered else NotFound
      ensures r != Registered ==> tasks == old(tasks) && fdTables == old(fdTables)
      ensures r == Registered ==>
                && tasks.Keys == old(tasks).Keys + {tid}
                && tasks[tid].tgid == tid && tasks[tid].parent == Some(initTid) && OwnTable(tasks, tid)
                && TableOf(tid) == Cloned(old(TableOf(initTid)), failed)
                && (forall t :: t in old(tasks) ==> tasks[t] == old(tasks)[t] && TableOf(t) == old(TableOf(t)))
    {
      var saved := Queue(initTid);
      var had := initTid in forkSnapshots;
      forkSnapshots := forkSnapshots - {initTid};
      r := RegisterChild(initTid, tid, NO_FLAGS, failed);
      if had { forkSnapshots := forkSnapshots[initTid := saved]; }
      assert forkSnapshots == old(forkSnapshots);
    }

    /** Register a task found through /proc, its ancestors already handled; only a task known to carry the
        filter is adopted. */
    method Register(tid: nat, status: Status, detected: Flags, adopt: bool, failed: set<int>) returns (r: Outcome)
      requires Valid() && tid !in tasks
      modifies this
      ensures Valid()
      ensures var plan := PlanFor(old(tasks).Keys, initTid, tid, status, detected, adopt);
              && r == (if plan.Refuse? then NotInSandbox else if plan.flags.namespaces then Unsupported
                       else if plan.parent !in old(tasks) then NotFound else Registered)
              && (r != Registered ==> tasks == old(tasks) && fdTables == old(fdTables) && forkSnapshots == old(forkSnapshots))
              && (r == Registered ==>
                    && tasks.Keys == old(tasks).Keys + {tid} && tasks[tid].parent == Some(plan.parent)
                    && tasks[tid].tgid == (if plan.flags.thread then tasks[plan.parent].tgid else tid)
                    && (!SharesFiles(plan.flags) ==> OwnTable(tasks, tid))
                    && (tasks[tid].fdTable == tasks[plan.parent].fdTable <==> SharesFiles(plan.flags))
                    && (!SharesFiles(plan.flags) ==>
                          TableOf(tid) == Claimed(if plan.claims then old(Queue(plan.parent)) else [], old(TableOf(plan.parent)), failed))
                    && (forall t :: t in old(tasks) ==> tasks[t] == old(tasks)[t] && TableOf(t) == old(TableOf(t)))
                    && forkSnapshots == if !plan.claims || SharesAll(plan.flags) || old(Queue(plan.parent)) == [] then old(forkSnapshots)
                                        else old(forkSnapshots)[plan.parent := Left(old(Queue(plan.parent)))])
    {
      if status.ptid in tasks {
        var flags := detected;
        if status.tgid != tid { flags := flags.(thread := true); }
        r := RegisterChild(status.ptid, tid, flags, failed);
        return;
      }
      if !adopt { return NotInSandbox; }
      if status.tgid != tid && status.tgid in tasks {
        r := RegisterChild(status.tgid, tid, NO_FLAGS.(thread := true), failed);
        return;
      }
      r := Adopt(tid, failed);
    }

    /** An exit call: the task leaves, its table with its last user, and its unclaimed snapshots. */
    method HandleThreadExit(tid: nat)
      requires Valid()
      modifies this
      ensures Valid()
      ensures tid !in old(tasks) ==> tasks == old(tasks) && fdTables == old(fdTables) && forkSnapshots == old(forkSnapshots)
      ensures tid in old(tasks) ==>
                && tasks == Orphaned(old(tasks), tid, initTid)
                && forkSnapshots == old(forkSnapshots) - {tid}
                && (forall t :: t in tasks ==> TableOf(t) == old(TableOf(t)))
                && (old(tasks)[tid].fdTable in fdTables <==> Users(old(tasks), old(tasks)[tid].fdTable) != {tid})
    {
      if tid !in tasks { return; }
      ghost var (before, tables) := (tasks, fdTables);
      var id := tasks[tid].fdTable;
      var slot := fdTables[id];
      fdTables := fdTables[id := slot.(refs := slot.refs - 1)];
      if slot.refs - 1 == 0 { fdTables := fdTables - {id}; }
      tasks := Orphaned(tasks, tid, initTid);
      forkSnapshots := forkSnapshots - {tid};
      CountedExit(before, tables, tid, initTid, fdTables);
    }
  }

  lemma CountedAfter(tasks: map<nat, Thread>, tables: map<nat, Slot>, child: nat, thread: Thread, after: map<nat, Slot>)
    requires Counted(tasks, tables) && child !in tasks
    requires var id := thread.fdTable;
             id in after && after[id].refs == (if id in tables then tables[id].refs + 1 else 1)
             && after.Keys == tables.Keys + {id} && forall i :: i in tables && i != id ==> after[i] == tables[i]
    ensures Counted(tasks[child := thread], after)
  {
    forall i | i in after ensures CountedAt(tasks[child := thread], after, i) {
      UsersAdded(tasks, child, thread, i);
      if i in tables { assert CountedAt(tasks, tables, i); } else { assert Users(tasks, i) == {}; }
    }
  }

  lemma CountedExit(tasks: map<nat, Thread>, tables: map<nat, Slot>, tid: nat, init: nat, after: map<nat, Slot>)
    requires Counted(tasks, tables) && tid in tasks
    requires var id := tasks[tid].fdTable;
             after == if tables[id].refs == 1 then tables - {id} else tables[id := tables[id].(refs := tables[id].refs - 1)]
    ensures Counted(Orphaned(tasks, tid, init), after)
    ensures tasks[tid].fdTable in after <==> Users(tasks, tasks[tid].fdTable) != {tid}
    ensures forall t :: t in tasks && t != tid ==> tasks[t].fdTable in after && after[tasks[t].fdTable].value == tables[tasks[t].fdTable].value
  {
    var id := tasks[tid].fdTable;
    UsersRemoved(tasks, tid, id);
    OneUser(Users(tasks, id), tid);
    assert CountedAt(tasks, tables, id);
    forall i | i in after ensures CountedAt(Orphaned(tasks, tid, init), after, i) {
      UsersRemoved(tasks, tid, i);
      UsersOrphaned(tasks, tid, init, i);
      assert CountedAt(tasks, tables, i);
    }
    forall t | t in tasks && t != tid ensures tasks[t].fdTable in after {
      assert t in Users(tasks, tasks[t].fdTable);
    }
  }

  lemma OneUser(users: set<nat>, tid: nat)
    requires tid in users
    ensures |users| == 1 <==> users == {tid}
  {
    assert |users - {tid}| == |users| - 1;
    if |users| == 1 { assert users - {tid} == {}; }
  }
}
