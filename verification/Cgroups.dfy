/** Resource limits as the contents of a cgroup's limit files: created with some limits, rewritten live. */
module Cgroups {
  import opened Results

  datatype Limits = Limits(memoryMax: Option<nat>, pidsMax: Option<nat>, cpuPercent: Option<nat>)

  const NO_LIMITS := Limits(None, None, None)

  const CPU_PERIOD_US: nat := 100_000

  datatype Cap = Max | Num(n: nat)

  /** memory.max, memory.swap.max, pids.max, and the quota in cpu.max beside the fixed period. */
  datatype Files = Files(memory: Cap, swap: Cap, pids: Cap, cpu: Cap)

  /** What the kernel puts in a new cgroup; a session without a cgroup is bound by nothing tighter. */
  const FRESH := Files(Max, Max, Max, Max)

  datatype Knob = MemoryMax | SwapMax | PidsMax | CpuMax

  /** The writes a caller must have accepted; the one to memory.swap.max may fail. */
  const HARD: set<Knob> := {MemoryMax, PidsMax, CpuMax}

  function Put(f: Files, k: Knob, v: Cap): Files {
    match k
    case MemoryMax => f.(memory := v)
    case SwapMax => f.(swap := v)
    case PidsMax => f.(pids := v)
    case CpuMax => f.(cpu := v)
  }

  function Quota(percent: nat): nat { percent * CPU_PERIOD_US / 100 }

  /** What the limits ask of each file; swap follows memory where it can be written. */
  function Wanted(limits: Limits, k: Knob): Cap {
    match k
    case MemoryMax => (match limits.memoryMax case Some(b) => Num(b) case None => Max)
    case SwapMax => (match limits.memoryMax case Some(_) => Num(0) case None => Max)
    case PidsMax => (match limits.pidsMax case Some(p) => Num(p) case None => Max)
    case CpuMax => (match limits.cpuPercent case Some(c) => Num(Quota(c)) case None => Max)
  }

  /** The files that enforce the limits exactly, on a host where the knobs in w can be written. */
  function Enforcing(limits: Limits, w: set<Knob>): Files {
    Files(Wanted(limits, MemoryMax), if SwapMax in w then Wanted(limits, SwapMax) else Max,
          Wanted(limits, PidsMax), Wanted(limits, CpuMax))
  }

  function Count(c: Cap): Option<nat> { if c.Num? then Some(c.n) else None }

  /** The limits can be read back from the files that enforce them: bytes, processes, and percent of a
      processor in thousandths of the period. Swap is forbidden exactly with a memory limit, where it can be. */
  lemma LimitsReadBack(limits: Limits, w: set<Knob>)
    ensures var f := Enforcing(limits, w);
            && limits.memoryMax == Count(f.memory) && limits.pidsMax == Count(f.pids)
            && limits.cpuPercent == (if f.cpu.Num? then Some(f.cpu.n / 1000) else None) && (f.cpu.Num? ==> f.cpu.n % 1000 == 0)
            && f.swap == if f.memory.Num? && SwapMax in w then Num(0) else Max
  {
    if limits.cpuPercent.Some? { assert Quota(limits.cpuPercent.value) == limits.cpuPercent.value * 1000; }
  }

  /** The knobs a creation writes. */
  predicate Asks(limits: Limits, k: Knob) { Wanted(limits, k) != Max }

  /** Whether cgroup v2 is mounted, whether a directory can be made in it, and the files that take writes. */
  datatype Host = Host(mounted: bool, makes: bool, writable: set<Knob>)

  /** A cgroup with these limits can be made. */
  predicate CanCreate(limits: Limits, host: Host) {
    host.mounted && host.makes && forall k :: k in HARD && Asks(limits, k) ==> k in host.writable
  }

  /** A cgroup can be made exactly on a host that has cgroup v2 and takes each limit that is set. */
  lemma CreateExact(limits: Limits, host: Host)
    ensures CanCreate(limits, host) <==>
            && host.mounted && host.makes
            && (limits.memoryMax.Some? ==> MemoryMax in host.writable)
            && (limits.pidsMax.Some? ==> PidsMax in host.writable)
            && (limits.cpuPercent.Some? ==> CpuMax in host.writable)
  {
    assert MemoryMax in HARD && PidsMax in HARD && CpuMax in HARD;
    assert Asks(limits, MemoryMax) <==> limits.memoryMax.Some?;
    assert Asks(limits, PidsMax) <==> limits.pidsMax.Some?;
    assert Asks(limits, CpuMax) <==> limits.cpuPercent.Some?;
  }

  /** Limits that are asked for are asked of some hard file. */
  lemma SomethingAsked(limits: Limits)
    ensures limits != NO_LIMITS <==> exists k :: k in HARD && Asks(limits, k)
  {
    assert MemoryMax in HARD && PidsMax in HARD && CpuMax in HARD;
    if limits.memoryMax.Some? {
      assert Asks(limits, MemoryMax);
    } else if limits.pidsMax.Some? {
      assert Asks(limits, PidsMax);
    } else if limits.cpuPercent.Some? {
      assert Asks(limits, CpuMax);
    }
  }

  class Cgroup {
    /** The knobs whose files accept writes on this host. */
    const writable: set<Knob>
    var files: Files

    constructor (w: set<Knob>)
      ensures writable == w && files == FRESH
    {
      writable := w;
      files := FRESH;
    }

    method Write(k: Knob, v: Cap) returns (ok: bool)
      modifies this
      ensures ok == (k in writable)
      ensures files == if ok then Put(old(files), k, v) else old(files)
    {
      if k !in writable { return false; }
      files := Put(files, k, v);
      return true;
    }

    /** Fill in a cgroup just made: only the files a limit asks for are written. */
    method Fill(limits: Limits) returns (ok: bool)
      requires files == FRESH
      modifies this
      ensures ok <==> forall k :: k in HARD && Asks(limits, k) ==> k in writable
      ensures ok ==> files == Enforcing(limits, writable)
    {
      var soft: bool;
      ok := true;
      if limits.memoryMax.Some? {
        ok := Write(MemoryMax, Num(limits.memoryMax.value));
        if !ok { assert Asks(limits, MemoryMax); return; }
        soft := Write(SwapMax, Num(0));
      }
      if limits.pidsMax.Some? {
        ok := Write(PidsMax, Num(limits.pidsMax.value));
        if !ok { assert Asks(limits, PidsMax); return; }
      }
      if limits.cpuPercent.Some? {
        ok := Write(CpuMax, Num(limits.cpuPercent.value * CPU_PERIOD_US / 100));
        if !ok { assert Asks(limits, CpuMax); return; }
      }
    }

    /** Make a cgroup with some limits. It fails exactly when cgroup v2 is not mounted, the directory
        cannot be made, or a file that a limit asks for cannot be written. */
    static method TryApply(limits: Limits, host: Host) returns (cgroup: Cgroup?)
      ensures cgroup != null <==> CanCreate(limits, host)
      ensures cgroup != null ==>
                fresh(cgroup) && cgroup.writable == host.writable && cgroup.files == Enforcing(limits, host.writable)
    {
      if !host.mounted { return null; }
      if !host.makes { return null; }
      cgroup := new Cgroup(host.writable);
      var ok := cgroup.Fill(limits);
      if !ok { cgroup := null; }
    }

    /** The same, unless no limit is asked for; a caller left without a cgroup runs unlimited. */
    static method Apply(limits: Limits, host: Host) returns (cgroup: Cgroup?)
      ensures cgroup != null <==> limits != NO_LIMITS && CanCreate(limits, host)
      ensures cgroup != null ==>
                fresh(cgroup) && cgroup.writable == host.writable && cgroup.files == Enforcing(limits, host.writable)
    {
      if limits == NO_LIMITS { return null; }
      cgroup := TryApply(limits, host);
    }

    /** Rewrite the files of a live cgroup: every file is written, and the first refusal stops it. */
    method Update(limits: Limits) returns (ok: bool)
      modifies this
      ensures (files, ok) == Updated(old(files), limits, writable)
    {
      var soft: bool;
      match limits.memoryMax {
        case Some(bytes) =>
          ok := Write(MemoryMax, Num(bytes));
          if !ok { return; }
          soft := Write(SwapMax, Num(0));
        case None =>
          ok := Write(MemoryMax, Max);
          if !ok { return; }
          soft := Write(SwapMax, Max);
      }
      ok := Write(PidsMax, match limits.pidsMax case Some(p) => Num(p) case None => Max);
      if !ok { return; }
      match limits.cpuPercent {
        case Some(pct) => ok := Write(CpuMax, Num(pct * CPU_PERIOD_US / 100));
        case None => ok := Write(CpuMax, Max);
      }
    }
  }

  function Updated(f: Files, limits: Limits, w: set<Knob>): (Files, bool) {
    if MemoryMax !in w then (f, false)
    else
      var f1 := f.(memory := Wanted(limits, MemoryMax), swap := if SwapMax in w then Wanted(limits, SwapMax) else f.swap);
      if PidsMax !in w then (f1, false)
      else
        var f2 := f1.(pids := Wanted(limits, PidsMax));
        if CpuMax !in w then (f2, false) else (f2.(cpu := Wanted(limits, CpuMax)), true)
  }

  /** An update gets as far as a knob: the hard files before it, and it itself, take writes. */
  predicate Reached(k: Knob, w: set<Knob>) {
    MemoryMax in w
    && match k
       case MemoryMax => true
       case SwapMax => SwapMax in w
       case PidsMax => PidsMax in w
       case CpuMax => PidsMax in w && CpuMax in w
  }

  function At(f: Files, k: Knob): Cap {
    match k
    case MemoryMax => f.memory
    case SwapMax => f.swap
    case PidsMax => f.pids
    case CpuMax => f.cpu
  }

  /** After an update, completed or not, the files enforce the limits exactly when every knob it did not
      reach held already what they want. */
  lemma UpdateEnforcesExact(f: Files, limits: Limits, w: set<Knob>)
    ensures Updated(f, limits, w).0 == Enforcing(limits, w) <==>
            forall k :: Reached(k, w) || At(f, k) == At(Enforcing(limits, w), k)
  {
    var (g, e) := (Updated(f, limits, w).0, Enforcing(limits, w));
    forall k ensures At(g, k) == At(e, k) <==> Reached(k, w) || At(f, k) == At(e, k) {}
    assert g == e <==> At(g, MemoryMax) == At(e, MemoryMax) && At(g, SwapMax) == At(e, SwapMax)
                       && At(g, PidsMax) == At(e, PidsMax) && At(g, CpuMax) == At(e, CpuMax);
  }

  /** A file that cannot be written still holds what the kernel put there. */
  predicate Possible(f: Files, w: set<Knob>) {
    && (MemoryMax !in w ==> f.memory == Max) && (SwapMax !in w ==> f.swap == Max)
    && (PidsMax !in w ==> f.pids == Max) && (CpuMax !in w ==> f.cpu == Max)
  }

  /** An update succeeds exactly when all three hard files can be written, whatever it asks for; then
      nothing of the earlier limits is left. */
  lemma UpdateExact(f: Files, limits: Limits, w: set<Knob>)
    requires Possible(f, w)
    ensures Possible(Updated(f, limits, w).0, w)
    ensures Updated(f, limits, w).1 <==> HARD <= w
    ensures HARD <= w ==> Updated(f, limits, w).0 == Enforcing(limits, w)
  {
    assert HARD <= w <==> MemoryMax in w && PidsMax in w && CpuMax in w;
  }

  function UpdateAll(f: Files, history: seq<Limits>, w: set<Knob>): Files
    decreases |history|
  {
    if history == [] then f else UpdateAll(Updated(f, history[0], w).0, history[1..], w)
  }

  /** Any run of successful updates leaves what creating the cgroup with the last limits would. */
  lemma {:induction false} LastUpdateWins(f: Files, history: seq<Limits>, w: set<Knob>)
    requires Possible(f, w) && HARD <= w && history != []
    ensures UpdateAll(f, history, w) == Enforcing(history[|history| - 1], w)
    decreases |history|
  {
    UpdateExact(f, history[0], w);
    if |history| > 1 {
      LastUpdateWins(Updated(f, history[0], w).0, history[1..], w);
    }
  }

  /** Without the pids controller an update gives up before cpu.max even when no pids limit is asked
      for, where creating the cgroup with the same limits would set it. */
  lemma UpdateNeedsEveryController(percent: nat)
    requires percent > 0
    ensures var (limits, w) := (Limits(None, None, Some(percent)), {MemoryMax, SwapMax, CpuMax});
            && (forall k :: k in HARD && Asks(limits, k) ==> k in w)
            && Enforcing(limits, w).cpu == Num(percent * 1000)
            && Updated(FRESH, limits, w) == (FRESH, false)
  {
    assert Quota(percent) == percent * 1000;
  }
}
