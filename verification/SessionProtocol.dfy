/** One sandbox session, thread by thread: the reader that becomes the reaper, eight workers,
    the timeout watchdog, and the stream drainer, over the shared log buffers and flags.

    A state holds a program counter per thread; a step moves one thread, or the guest. Every
    interleaving is a sequence of steps. */
module SessionProtocol {
  import opened FileData
  import opened Results
  import opened LogBuffers

  const MAX_INFLIGHT: nat := 8
  const NO_EXIT: int := -0x8000_0000
  const SIGKILL: int := 9

  // ---------------------------------------------------------------- states

  datatype Worker =
    | Idle                          // blocked on the channel
    | Busy(n: nat, effects: nat)    // in handle; `effects` shared-state effects still to come
    | Replying(n: nat)              // about to issue SEND
    | Exited

  datatype Main =
    | Receiving
    | Holding(n: nat)               // blocked handing n to a worker
    | Joining(k: nat)               // channel closed, waiting for worker k
    | Stopping                      // run() returned, about to drop the watchdog's sender
    | JoiningWatchdog
    | Waiting                       // in waitpid
    | Publishing(code: int)
    | Finished

  datatype Watchdog = Absent | Sleeping | Killing | Gone

  datatype Drain =
    | Ticking | SendOut(bytes: seq<Byte>) | ReadErr | SendErr(bytes: seq<Byte>) | TryWait
    | LastOut(code: int) | SendLastOut(code: int, bytes: seq<Byte>)
    | LastErr(code: int) | SendLastErr(code: int, bytes: seq<Byte>)
    | SendExit(code: int) | Closed

  datatype State = State(
    pending: set<nat>, hungUp: bool,                    // the notify fd
    main: Main, workers: seq<Worker>,
    received: set<nat>, receipts: nat,                  // history
    answers: multiset<nat>, sends: nat,                 // history: one SEND per answer
    status: int, watchdog: Watchdog, timedOut: bool, fired: nat, waited: Option<int>,
    exit: Option<int>,
    outBuf: seq<Byte>, errBuf: seq<Byte>,
    outAll: seq<Byte>, errAll: seq<Byte>,               // history: everything captured
    drain: Drain, sent: seq<Chunk>)

  ghost predicate Init(s: State) {
    && s.main == Receiving && s.workers == seq(MAX_INFLIGHT, _ => Idle)
    && s.received == {} && s.answers == multiset{} && s.receipts == s.sends == 0
    && s.status == NO_EXIT && (s.watchdog.Absent? || s.watchdog.Sleeping?) && !s.timedOut && s.fired == 0
    && s.waited == None && s.exit == None
    && s.outBuf == s.errBuf == s.outAll == s.errAll == []
    && s.drain == Ticking && s.sent == []
  }

  // ---------------------------------------------------------------- steps

  datatype GuestStep = Notify(n: nat) | HangUp

  datatype MainStep =
    | Recv(n: nat) | EndLoop(failed: bool) | Handoff(w: nat, effects: nat) | JoinWorker
    | DropSender | JoinWatchdog | WaitPid(result: Option<int>) | Publish

  datatype WorkerStep =
    | WriteOut(bytes: seq<Byte>) | WriteErr(bytes: seq<Byte>) | RecordExit(arg: nat)
    | Return | Send | Leave

  datatype WatchdogStep = Fire | Kill | Dismiss

  datatype Step =
    | ByGuest(g: GuestStep)
    | ByMain(m: MainStep)
    | ByWorker(w: nat, a: WorkerStep)
    | ByWatchdog(d: WatchdogStep)
    | ByDrainer

  predicate ChannelOpen(m: Main) { m.Receiving? || m.Holding? }

  predicate SenderDropped(m: Main) { m.JoiningWatchdog? || m.Waiting? || m.Publishing? || m.Finished? }

  /** The exit code in shell convention: the watchdog, then the recorded status, then waitpid. */
  function Outcome(timedOut: bool, status: int, waited: Option<int>): int {
    if timedOut then 128 + SIGKILL
    else if status != NO_EXIT then status
    else if waited.Some? then waited.value
    else -1
  }

  predicate GuestCan(s: State, g: GuestStep) {
    !s.hungUp && (g.Notify? ==> g.n !in s.pending && g.n !in s.received)
  }

  function GuestDoes(s: State, g: GuestStep): State {
    match g
    case Notify(n) => s.(pending := s.pending + {n})
    case HangUp => s.(hungUp := true)
  }

  predicate MainCan(s: State, m: MainStep) {
    match m
    case Recv(n) => s.main.Receiving? && n in s.pending
    case EndLoop(failed) => s.main.Receiving? && (failed || s.hungUp)
    case Handoff(w, _) => s.main.Holding? && w < |s.workers| && s.workers[w].Idle?
    case JoinWorker =>
      s.main.Joining? && s.main.k <= |s.workers| && (s.main.k < |s.workers| ==> s.workers[s.main.k].Exited?)
    case DropSender => s.main.Stopping?
    case JoinWatchdog => s.main.JoiningWatchdog? && (s.watchdog.Absent? || s.watchdog.Gone?)
    case WaitPid(_) => s.main.Waiting?
    case Publish => s.main.Publishing?
  }

  function MainDoes(s: State, m: MainStep): State
    requires MainCan(s, m)
  {
    match m
    case Recv(n) => s.(pending := s.pending - {n}, received := s.received + {n}, receipts := s.receipts + 1, main := Holding(n))
    case EndLoop(_) => s.(main := Joining(0))
    case Handoff(w, effects) => s.(main := Receiving, workers := s.workers[w := Busy(s.main.n, effects)])
    case JoinWorker => s.(main := if s.main.k < |s.workers| then Joining(s.main.k + 1) else Stopping)
    case DropSender => s.(main := JoiningWatchdog)
    case JoinWatchdog => s.(main := Waiting)
    case WaitPid(r) => s.(main := Publishing(Outcome(s.timedOut, s.status, r)), waited := r)
    case Publish => s.(main := Finished, exit := Some(s.main.code))
  }

  predicate WorkerCan(s: State, w: nat, a: WorkerStep) {
    && w < |s.workers|
    && match a
       case WriteOut(_) => s.workers[w].Busy? && s.workers[w].effects > 0
       case WriteErr(_) => s.workers[w].Busy? && s.workers[w].effects > 0
       case RecordExit(_) => s.workers[w].Busy? && s.workers[w].effects > 0
       case Return => s.workers[w].Busy?
       case Send => s.workers[w].Replying?
       case Leave => s.workers[w].Idle? && !ChannelOpen(s.main)
  }

  /** The worker's own next program counter. */
  function NextWorker(w: Worker, a: WorkerStep): Worker
    requires a.WriteOut? || a.WriteErr? || a.RecordExit? ==> w.Busy? && w.effects > 0
    requires a.Return? ==> w.Busy?
  {
    match a
    case WriteOut(_) => Busy(w.n, w.effects - 1)
    case WriteErr(_) => Busy(w.n, w.effects - 1)
    case RecordExit(_) => Busy(w.n, w.effects - 1)
    case Return => Replying(w.n)
    case Send => Idle
    case Leave => Exited
  }

  function WorkerDoes(s: State, w: nat, a: WorkerStep): State
    requires WorkerCan(s, w, a)
  {
    var t := s.(workers := s.workers[w := NextWorker(s.workers[w], a)]);
    match a
    case WriteOut(b) => t.(outBuf := s.outBuf + b, outAll := s.outAll + b)
    case WriteErr(b) => t.(errBuf := s.errBuf + b, errAll := s.errAll + b)
    case RecordExit(arg) => t.(status := if s.status == NO_EXIT then arg % 256 else s.status)
    case Return => t
    case Send => t.(answers := s.answers + multiset{s.workers[w].n}, sends := s.sends + 1)
    case Leave => t
  }

  predicate WatchdogCan(s: State, d: WatchdogStep) {
    match d
    case Fire => s.watchdog.Sleeping?
    case Kill => s.watchdog.Killing?
    case Dismiss => s.watchdog.Sleeping? && SenderDropped(s.main)
  }

  function WatchdogDoes(s: State, d: WatchdogStep): State {
    match d
    case Fire => s.(watchdog := Killing, timedOut := true, fired := s.fired + 1)
    case Kill => s.(watchdog := Gone)
    case Dismiss => s.(watchdog := Gone)
  }

  function Data(bytes: seq<Byte>, chunk: Chunk): seq<Chunk> { if bytes == [] then [] else [chunk] }

  function Drained(s: State): State {
    match s.drain
    case Ticking => s.(drain := SendOut(s.outBuf), outBuf := [])
    case SendOut(b) => s.(drain := ReadErr, sent := s.sent + Data(b, Stdout(b)))
    case ReadErr => s.(drain := SendErr(s.errBuf), errBuf := [])
    case SendErr(b) => s.(drain := TryWait, sent := s.sent + Data(b, Stderr(b)))
    case TryWait => s.(drain := if s.exit.Some? then LastOut(s.exit.value) else Ticking)
    case LastOut(code) => s.(drain := SendLastOut(code, s.outBuf), outBuf := [])
    case SendLastOut(code, b) => s.(drain := LastErr(code), sent := s.sent + Data(b, Stdout(b)))
    case LastErr(code) => s.(drain := SendLastErr(code, s.errBuf), errBuf := [])
    case SendLastErr(code, b) => s.(drain := SendExit(code), sent := s.sent + Data(b, Stderr(b)))
    case SendExit(code) => s.(drain := Closed, sent := s.sent + [ExitCode(code)])
    case Closed => s
  }

  predicate Enabled(s: State, step: Step) {
    match step
    case ByGuest(g) => GuestCan(s, g)
    case ByMain(m) => MainCan(s, m)
    case ByWorker(w, a) => WorkerCan(s, w, a)
    case ByWatchdog(d) => WatchdogCan(s, d)
    case ByDrainer => !s.drain.Closed?
  }

  function After(s: State, step: Step): State
    requires Enabled(s, step)
  {
    match step
    case ByGuest(g) => GuestDoes(s, g)
    case ByMain(m) => MainDoes(s, m)
    case ByWorker(w, a) => WorkerDoes(s, w, a)
    case ByWatchdog(d) => WatchdogDoes(s, d)
    case ByDrainer => Drained(s)
  }

  predicate Run(s: State, run: seq<Step>)
    decreases |run|
  {
    run == [] || (Enabled(s, run[0]) && Run(After(s, run[0]), run[1..]))
  }

  function AfterRun(s: State, run: seq<Step>): State
    requires Run(s, run)
    decreases |run|
  {
    if run == [] then s else AfterRun(After(s, run[0]), run[1..])
  }

  // ---------------------------------------------------------------- notifications in flight

  function Carries(w: Worker, n: nat): nat { if (w.Busy? || w.Replying?) && w.n == n then 1 else 0 }

  function Loaded(w: Worker): nat { if w.Busy? || w.Replying? then 1 else 0 }

  function Hand(m: Main, n: nat): nat { if m.Holding? && m.n == n then 1 else 0 }

  function Full(m: Main): nat { if m.Holding? then 1 else 0 }

  /** How many workers carry n. */
  function Carriers(ws: seq<Worker>, n: nat): nat {
    if ws == [] then 0 else Carries(ws[0], n) + Carriers(ws[1..], n)
  }

  function Load(ws: seq<Worker>): (k: nat)
    ensures k <= |ws|
  {
    if ws == [] then 0 else Loaded(ws[0]) + Load(ws[1..])
  }

  lemma {:induction false} CarriersUpdate(ws: seq<Worker>, i: nat, w: Worker, n: nat)
    requires i < |ws|
    ensures Carriers(ws[i := w], n) == Carriers(ws, n) - Carries(ws[i], n) + Carries(w, n)
  {
    if i > 0 {
      CarriersUpdate(ws[1..], i - 1, w, n);
      assert ws[i := w][1..] == ws[1..][i - 1 := w];
    } else {
      assert ws[0 := w][1..] == ws[1..];
    }
  }

  lemma {:induction false} LoadUpdate(ws: seq<Worker>, i: nat, w: Worker)
    requires i < |ws|
    ensures Load(ws[i := w]) == Load(ws) - Loaded(ws[i]) + Loaded(w)
  {
    if i > 0 {
      LoadUpdate(ws[1..], i - 1, w);
      assert ws[i := w][1..] == ws[1..][i - 1 := w];
    } else {
      assert ws[0 := w][1..] == ws[1..];
    }
  }

  lemma {:induction false} NoLoad(ws: seq<Worker>, n: nat)
    requires forall i :: 0 <= i < |ws| ==> ws[i].Exited? || ws[i].Idle?
    ensures Carriers(ws, n) == 0 && Load(ws) == 0
  {
    if ws != [] { NoLoad(ws[1..], n); }
  }

  // ---------------------------------------------------------------- the invariant

  ghost predicate AllExited(s: State) { forall i :: 0 <= i < |s.workers| ==> s.workers[i].Exited? }

  /** Each notification received is answered once, with one worker, or in the reader's hand. */
  predicate Placed(s: State, n: nat) {
    s.answers[n] + Carriers(s.workers, n) + Hand(s.main, n) == if n in s.received then 1 else 0
  }

  ghost predicate Conserved(s: State) {
    && |s.workers| == MAX_INFLIGHT
    && (forall n :: Placed(s, n))
    && s.receipts == s.sends + Load(s.workers) + Full(s.main)
    && (forall n :: n in s.pending ==> n !in s.received)
  }

  ghost predicate Ordered(s: State) {
    && (ChannelOpen(s.main) ==> forall i :: 0 <= i < |s.workers| ==> !s.workers[i].Exited?)
    && (s.main.Joining? ==> s.main.k <= |s.workers| && forall i :: 0 <= i < s.main.k ==> s.workers[i].Exited?)
    && (!ChannelOpen(s.main) && !s.main.Joining? ==> AllExited(s))
    && (s.exit.Some? <==> s.main.Finished?)
  }

  ghost predicate Timed(s: State) {
    && s.fired == (if s.timedOut then 1 else 0)
    && (s.watchdog.Absent? || s.watchdog.Sleeping? ==> !s.timedOut)
    && (s.main.Waiting? || s.main.Publishing? || s.main.Finished? ==> s.watchdog.Absent? || s.watchdog.Gone?)
    && (s.status == NO_EXIT || 0 <= s.status <= 255)
    && (s.main.Publishing? ==> s.main.code == Outcome(s.timedOut, s.status, s.waited))
    && (s.exit.Some? ==> s.exit.value == Outcome(s.timedOut, s.status, s.waited))
  }

  function HeldOut(d: Drain): seq<Byte> { if d.SendOut? || d.SendLastOut? then d.bytes else [] }

  function HeldErr(d: Drain): seq<Byte> { if d.SendErr? || d.SendLastErr? then d.bytes else [] }

  predicate SawExit(d: Drain) {
    d.LastOut? || d.SendLastOut? || d.LastErr? || d.SendLastErr? || d.SendExit?
  }

  /** Everything captured on stdout is in what was sent, in the drainer's hand, or in the buffer. */
  predicate OutKept(s: State) { s.outAll == OutOf(s.sent) + HeldOut(s.drain) + s.outBuf }

  predicate ErrKept(s: State) { s.errAll == ErrOf(s.sent) + HeldErr(s.drain) + s.errBuf }

  /** The drainer's last reads come after the exit code, and the code is sent last. */
  ghost predicate Closing(s: State) {
    && (SawExit(s.drain) ==> s.exit == Some(s.drain.code))
    && (s.drain.SendLastOut? || s.drain.LastErr? || s.drain.SendLastErr? || s.drain.SendExit? || s.drain.Closed?
        ==> s.outBuf == [])
    && (s.drain.SendLastErr? || s.drain.SendExit? || s.drain.Closed? ==> s.errBuf == [])
    && (if s.drain.Closed?
        then s.exit.Some? && s.sent != [] && DataOnly(s.sent[..|s.sent| - 1]) && s.sent[|s.sent| - 1] == ExitCode(s.exit.value)
        else DataOnly(s.sent))
  }

  ghost predicate Faithful(s: State) { OutKept(s) && ErrKept(s) && Closing(s) }

  ghost predicate Inv(s: State) {
    Conserved(s) && Ordered(s) && Timed(s) && Faithful(s)
  }

  lemma InitInv(s: State)
    requires Init(s)
    ensures Inv(s)
  {
    forall n ensures Placed(s, n) { NoLoad(s.workers, n); }
    NoLoad(s.workers, 0);
  }

  lemma MainConserves(s: State, m: MainStep)
    requires Conserved(s) && MainCan(s, m)
    ensures Conserved(MainDoes(s, m))
  {
    var t := MainDoes(s, m);
    if m.Handoff? {
      LoadUpdate(s.workers, m.w, t.workers[m.w]);
      forall n ensures Placed(t, n) {
        assert Placed(s, n);
        CarriersUpdate(s.workers, m.w, t.workers[m.w], n);
      }
    } else {
      forall n ensures Placed(t, n) { assert Placed(s, n); }
    }
  }

  lemma WorkerConserves(s: State, w: nat, a: WorkerStep)
    requires Conserved(s) && WorkerCan(s, w, a)
    ensures Conserved(WorkerDoes(s, w, a))
  {
    var t := WorkerDoes(s, w, a);
    LoadUpdate(s.workers, w, t.workers[w]);
    forall n ensures Placed(t, n) {
      assert Placed(s, n);
      CarriersUpdate(s.workers, w, t.workers[w], n);
    }
  }

  lemma MainOrders(s: State, m: MainStep)
    requires Ordered(s) && |s.workers| == MAX_INFLIGHT && MainCan(s, m)
    ensures Ordered(MainDoes(s, m))
  {
  }

  lemma MainTimes(s: State, m: MainStep)
    requires Ordered(s) && Timed(s) && MainCan(s, m)
    ensures Timed(MainDoes(s, m))
  {
  }

  lemma WorkerOrders(s: State, w: nat, a: WorkerStep)
    requires Ordered(s) && WorkerCan(s, w, a)
    ensures Ordered(WorkerDoes(s, w, a))
    ensures !s.main.Finished?
  {
  }

  lemma WorkerTimes(s: State, w: nat, a: WorkerStep)
    requires Ordered(s) && Timed(s) && WorkerCan(s, w, a)
    ensures Timed(WorkerDoes(s, w, a))
  {
  }

  /** Moving a buffer into an empty hand, or an empty hand aside. */
  lemma HandOver(sent: seq<Byte>, buf: seq<Byte>)
    ensures sent + [] + buf == sent + buf + []
    ensures sent + [] == sent
  {
  }

  lemma DrainerReads(s: State)
    requires Faithful(s) && (s.drain.Ticking? || s.drain.ReadErr? || s.drain.TryWait? || s.drain.LastOut? || s.drain.LastErr?)
    ensures Faithful(Drained(s))
  {
    HandOver(OutOf(s.sent), s.outBuf);
    HandOver(ErrOf(s.sent), s.errBuf);
    assert Drained(s).sent == s.sent;
  }

  lemma DrainerSendsOut(s: State)
    requires Faithful(s) && (s.drain.SendOut? || s.drain.SendLastOut?)
    ensures Faithful(Drained(s))
  {
    var (b, t) := (s.drain.bytes, Drained(s));
    AppendChunk(s.sent, b, Stdout(b));
    HandOver(OutOf(s.sent) + b, []);
    HandOver(ErrOf(s.sent), []);
    assert t.sent == s.sent + Data(b, Stdout(b));
    assert OutKept(t) && ErrKept(t);
  }

  lemma DrainerSendsErr(s: State)
    requires Faithful(s) && (s.drain.SendErr? || s.drain.SendLastErr?)
    ensures Faithful(Drained(s))
  {
    var (b, t) := (s.drain.bytes, Drained(s));
    AppendChunk(s.sent, b, Stderr(b));
    HandOver(ErrOf(s.sent) + b, []);
    HandOver(OutOf(s.sent), []);
    assert t.sent == s.sent + Data(b, Stderr(b));
    assert OutKept(t) && ErrKept(t);
  }

  lemma DrainerEnds(s: State)
    requires Faithful(s) && s.drain.SendExit?
    ensures Faithful(Drained(s))
  {
    var t := Drained(s);
    ChunksAppend(s.sent, [ExitCode(s.drain.code)]);
    assert t.sent[..|t.sent| - 1] == s.sent;
  }

  lemma AppendChunk(sent: seq<Chunk>, b: seq<Byte>, chunk: Chunk)
    requires DataOnly(sent) && (chunk == Stdout(b) || chunk == Stderr(b))
    ensures DataOnly(sent + Data(b, chunk))
    ensures OutOf(sent + Data(b, chunk)) == OutOf(sent) + if chunk.Stdout? then b else []
    ensures ErrOf(sent + Data(b, chunk)) == ErrOf(sent) + if chunk.Stderr? then b else []
  {
    if b == [] {
      assert sent + [] == sent;
    } else {
      ChunksAppend(sent, [chunk]);
    }
    HandOver(OutOf(sent), []);
    HandOver(ErrOf(sent), []);
  }

  lemma MainKeeps(s: State, m: MainStep)
    requires Inv(s) && MainCan(s, m)
    ensures Inv(MainDoes(s, m))
  {
    MainConserves(s, m);
    MainOrders(s, m);
    MainTimes(s, m);
  }

  lemma WorkerKeeps(s: State, w: nat, a: WorkerStep)
    requires Inv(s) && WorkerCan(s, w, a)
    ensures Inv(WorkerDoes(s, w, a))
  {
    WorkerConserves(s, w, a);
    WorkerOrders(s, w, a);
    WorkerTimes(s, w, a);
  }

  lemma DrainerStreams(s: State)
    requires Faithful(s) && !s.drain.Closed?
    ensures Faithful(Drained(s))
  {
    if s.drain.SendOut? || s.drain.SendLastOut? {
      DrainerSendsOut(s);
    } else if s.drain.SendErr? || s.drain.SendLastErr? {
      DrainerSendsErr(s);
    } else if s.drain.SendExit? {
      DrainerEnds(s);
    } else {
      DrainerReads(s);
    }
  }

  lemma RestKept(s: State, drain: Drain, sent: seq<Chunk>, outBuf: seq<Byte>, errBuf: seq<Byte>)
    requires Conserved(s) && Ordered(s) && Timed(s)
    ensures var t := s.(drain := drain, sent := sent, outBuf := outBuf, errBuf := errBuf);
            Conserved(t) && Ordered(t) && Timed(t)
  {
    var t := s.(drain := drain, sent := sent, outBuf := outBuf, errBuf := errBuf);
    forall n ensures Placed(t, n) { assert Placed(s, n); }
  }

  /** The drainer touches its own counter, the stream and the two buffers. */
  lemma DrainerTouches(s: State)
    ensures var t := Drained(s);
            t == s.(drain := t.drain, sent := t.sent, outBuf := t.outBuf, errBuf := t.errBuf)
  {
    match s.drain
    case Ticking =>
    case SendOut(_) =>
    case ReadErr =>
    case SendErr(_) =>
    case TryWait =>
    case LastOut(_) =>
    case SendLastOut(_, _) =>
    case LastErr(_) =>
    case SendLastErr(_, _) =>
    case SendExit(_) =>
    case Closed =>
  }

  lemma DrainerKeeps(s: State)
    requires Inv(s) && !s.drain.Closed?
    ensures Inv(Drained(s))
  {
    var t := Drained(s);
    DrainerStreams(s);
    DrainerTouches(s);
    RestKept(s, t.drain, t.sent, t.outBuf, t.errBuf);
  }

  lemma GuestKeeps(s: State, g: GuestStep)
    requires Inv(s) && GuestCan(s, g)
    ensures Inv(GuestDoes(s, g))
  {
    var t := GuestDoes(s, g);
    forall n ensures Placed(t, n) { assert Placed(s, n); }
  }

  lemma WatchdogKeeps(s: State, d: WatchdogStep)
    requires Inv(s) && WatchdogCan(s, d)
    ensures Inv(WatchdogDoes(s, d))
  {
    var t := WatchdogDoes(s, d);
    forall n ensures Placed(t, n) { assert Placed(s, n); }
  }

  lemma StepKeeps(s: State, step: Step)
    requires Inv(s) && Enabled(s, step)
    ensures Inv(After(s, step))
  {
    match step
    case ByGuest(g) => GuestKeeps(s, g);
    case ByMain(m) => MainKeeps(s, m);
    case ByWorker(w, a) => WorkerKeeps(s, w, a);
    case ByWatchdog(d) => WatchdogKeeps(s, d);
    case ByDrainer => DrainerKeeps(s);
  }

  lemma {:induction false} RunKeeps(s: State, run: seq<Step>)
    requires Inv(s) && Run(s, run)
    ensures Inv(AfterRun(s, run))
    decreases |run|
  {
    if run != [] {
      StepKeeps(s, run[0]);
      RunKeeps(After(s, run[0]), run[1..]);
    }
  }

  // ---------------------------------------------------------------- what every run guarantees

  /** Reader, channel and workers: nothing is answered twice, and at most nine are unanswered. */
  lemma PoolGuarantee(s0: State, run: seq<Step>)
    requires Init(s0) && Run(s0, run)
    ensures var s := AfterRun(s0, run);
            && |s.workers| == 8 && s.sends <= s.receipts <= s.sends + 9
            && (forall n :: s.answers[n] <= 1)
            && (forall n :: n in s.answers ==> n in s.received)
            && (s.main.Receiving? ==> s.receipts <= s.sends + 8)
  {
    InitInv(s0);
    RunKeeps(s0, run);
    var s := AfterRun(s0, run);
    forall n ensures s.answers[n] <= 1 && (n in s.answers ==> n in s.received) { assert Placed(s, n); }
  }

  /** When run returns, every notification received has been answered exactly once. */
  lemma AllAnsweredWhenRunReturns(s0: State, run: seq<Step>)
    requires Init(s0) && Run(s0, run)
    ensures var s := AfterRun(s0, run);
            !ChannelOpen(s.main) && !s.main.Joining? ==>
              && s.receipts == s.sends
              && forall n :: s.answers[n] == if n in s.received then 1 else 0
  {
    InitInv(s0);
    RunKeeps(s0, run);
    var s := AfterRun(s0, run);
    if !ChannelOpen(s.main) && !s.main.Joining? {
      NoLoad(s.workers, 0);
      forall n ensures s.answers[n] == if n in s.received then 1 else 0 {
        assert Placed(s, n);
        NoLoad(s.workers, n);
      }
    }
  }

  function OutOfStep(step: Step): seq<Byte> { if step.ByWorker? && step.a.WriteOut? then step.a.bytes else [] }

  function ErrOfStep(step: Step): seq<Byte> { if step.ByWorker? && step.a.WriteErr? then step.a.bytes else [] }

  /** What the calls of a run write, in order. */
  function OutWritten(run: seq<Step>): seq<Byte> {
    if run == [] then [] else OutOfStep(run[0]) + OutWritten(run[1..])
  }

  function ErrWritten(run: seq<Step>): seq<Byte> {
    if run == [] then [] else ErrOfStep(run[0]) + ErrWritten(run[1..])
  }

  lemma StepCaptures(s: State, step: Step)
    requires Enabled(s, step)
    ensures After(s, step).outAll == s.outAll + OutOfStep(step) && After(s, step).errAll == s.errAll + ErrOfStep(step)
  {
    match step
    case ByGuest(_) =>
    case ByMain(_) =>
    case ByWorker(_, _) =>
    case ByWatchdog(_) =>
    case ByDrainer => DrainerTouches(s);
  }

  lemma Regroup(a: seq<Byte>, b: seq<Byte>, more: seq<Byte>)
    ensures a + b + more == a + (b + more)
  {
  }

  lemma {:induction false} RunCaptures(s: State, run: seq<Step>)
    requires Run(s, run)
    ensures AfterRun(s, run).outAll == s.outAll + OutWritten(run)
    ensures AfterRun(s, run).errAll == s.errAll + ErrWritten(run)
    decreases |run|
  {
    if run != [] {
      StepCaptures(s, run[0]);
      RunCaptures(After(s, run[0]), run[1..]);
      Regroup(s.outAll, OutOfStep(run[0]), OutWritten(run[1..]));
      Regroup(s.errAll, ErrOfStep(run[0]), ErrWritten(run[1..]));
    }
  }

  lemma RunFaithful(s0: State, run: seq<Step>)
    requires Init(s0) && Run(s0, run)
    ensures Faithful(AfterRun(s0, run))
    ensures AfterRun(s0, run).outAll == OutWritten(run) && AfterRun(s0, run).errAll == ErrWritten(run)
  {
    InitInv(s0);
    RunKeeps(s0, run);
    RunCaptures(s0, run);
  }

  /** When the stream closes the client holds both outputs exactly as the calls wrote them, then the exit
      code, once, last. */
  lemma StreamIsExact(s0: State, run: seq<Step>)
    requires Init(s0) && Run(s0, run)
    ensures var s := AfterRun(s0, run);
            && OutOf(s.sent) <= OutWritten(run) && ErrOf(s.sent) <= ErrWritten(run)
            && (s.drain.Closed? ==>
                 && OutOf(s.sent) == OutWritten(run) && ErrOf(s.sent) == ErrWritten(run)
                 && s.exit.Some? && s.sent != []
                 && s.sent[|s.sent| - 1] == ExitCode(s.exit.value)
                 && DataOnly(s.sent[..|s.sent| - 1]))
  {
    RunFaithful(s0, run);
  }

  lemma MainKeepsOutput(s: State, m: MainStep)
    requires MainCan(s, m) && (s.exit.Some? ==> s.main.Finished?)
    ensures MainDoes(s, m).outAll == s.outAll && MainDoes(s, m).errAll == s.errAll
    ensures s.exit.Some? ==> MainDoes(s, m).exit == s.exit
  {
  }

  /** No output is captured after the exit code is published. */
  lemma NothingAfterExit(s: State, step: Step)
    requires Inv(s) && Enabled(s, step) && s.exit.Some?
    ensures After(s, step).outAll == s.outAll && After(s, step).errAll == s.errAll && After(s, step).exit == s.exit
  {
    match step
    case ByGuest(_) =>
    case ByMain(m) => MainKeepsOutput(s, m);
    case ByWorker(w, a) => WorkerOrders(s, w, a);
    case ByWatchdog(_) =>
    case ByDrainer => DrainerTouches(s);
  }

  /** A watchdog that is gone without having fired was let go. */
  predicate LetGo(s: State) {
    (s.watchdog.Gone? && !s.timedOut ==> SenderDropped(s.main)) && (s.watchdog.Killing? ==> s.timedOut)
  }

  lemma {:induction false} RunLetsGo(s: State, run: seq<Step>)
    requires LetGo(s) && Run(s, run)
    ensures LetGo(AfterRun(s, run))
    decreases |run|
  {
    if run != [] {
      RunLetsGo(After(s, run[0]), run[1..]);
    }
  }

  /** The watchdog fires at most once, and can neither fire nor kill once waitpid has started; until every
      notification is answered and all workers have left, it is not called off. */
  lemma WatchdogGuarantee(s0: State, run: seq<Step>)
    requires Init(s0) && Run(s0, run)
    ensures var s := AfterRun(s0, run);
            && s.fired <= 1 && (s.timedOut <==> s.fired == 1)
            && (s.watchdog.Gone? && !s.timedOut ==> AllExited(s) && s.sends == s.receipts)
            && (s.main.Waiting? || s.main.Publishing? || s.main.Finished? ==>
                 !WatchdogCan(s, Fire) && !WatchdogCan(s, Kill) && !WatchdogCan(s, Dismiss))
  {
    InitInv(s0);
    RunKeeps(s0, run);
    RunLetsGo(s0, run);
    AllAnsweredWhenRunReturns(s0, run);
  }

  /** The init's exit call leaves the low eight bits of its argument, the first time. */
  lemma ExitRecordsLowByte(s: State, w: nat, n: nat)
    requires WorkerCan(s, w, RecordExit(n)) && s.status == NO_EXIT
    ensures var status := WorkerDoes(s, w, RecordExit(n)).status;
            0 <= status <= 255 && (n - status) % 256 == 0 && (n < 256 ==> status == n)
  {
  }

  /** The argument of the first exit call of a run, and the result of its waitpid. */
  function FirstExit(run: seq<Step>): Option<nat> {
    if run == [] then None
    else if run[0].ByWorker? && run[0].a.RecordExit? then Some(run[0].a.arg)
    else FirstExit(run[1..])
  }

  function WaitResult(run: seq<Step>): Option<Option<int>> {
    if run == [] then None
    else if run[0].ByMain? && run[0].m.WaitPid? then Some(run[0].m.result)
    else WaitResult(run[1..])
  }

  lemma StepStatus(s: State, step: Step)
    requires Enabled(s, step)
    ensures s.status == NO_EXIT ==>
              After(s, step).status == if step.ByWorker? && step.a.RecordExit? then step.a.arg % 256 else NO_EXIT
    ensures s.status != NO_EXIT ==> After(s, step).status == s.status
    ensures After(s, step).timedOut == (s.timedOut || step == ByWatchdog(Fire))
  {
    match step
    case ByGuest(_) =>
    case ByMain(_) =>
    case ByWorker(_, _) =>
    case ByWatchdog(_) =>
    case ByDrainer => DrainerTouches(s);
  }

  lemma {:induction false} StatusOfRun(s: State, run: seq<Step>)
    requires Run(s, run)
    ensures s.status == NO_EXIT ==>
              AfterRun(s, run).status == if FirstExit(run).Some? then FirstExit(run).value % 256 else NO_EXIT
    ensures AfterRun(s, run).timedOut == (s.timedOut || ByWatchdog(Fire) in run)
    decreases |run|
  {
    if run != [] {
      StepStatus(s, run[0]);
      StatusOfRun(After(s, run[0]), run[1..]);
      if s.status == NO_EXIT && After(s, run[0]).status != NO_EXIT { FirstStatusStays(After(s, run[0]), run[1..]); }
    }
  }

  predicate PastWait(m: Main) { m.Publishing? || m.Finished? }

  lemma StepWaits(s: State, step: Step)
    requires Enabled(s, step)
    ensures PastWait(After(s, step).main) <==> PastWait(s.main) || (step.ByMain? && step.m.WaitPid?)
    ensures After(s, step).waited == if step.ByMain? && step.m.WaitPid? then step.m.result else s.waited
    ensures PastWait(s.main) ==> !(step.ByMain? && step.m.WaitPid?)
  {
    match step
    case ByGuest(_) =>
    case ByMain(_) =>
    case ByWorker(_, _) =>
    case ByWatchdog(_) =>
    case ByDrainer => DrainerTouches(s);
  }

  /** The reaper publishes after its one waitpid. */
  lemma {:induction false} WaitOfRun(s: State, run: seq<Step>)
    requires Run(s, run)
    ensures PastWait(AfterRun(s, run).main) <==> PastWait(s.main) || WaitResult(run).Some?
    ensures AfterRun(s, run).waited == if WaitResult(run).Some? then WaitResult(run).value else s.waited
    ensures PastWait(s.main) ==> WaitResult(run).None?
    decreases |run|
  {
    if run != [] {
      StepWaits(s, run[0]);
      WaitOfRun(After(s, run[0]), run[1..]);
    }
  }

  lemma StepKills(s: State, step: Step)
    requires Timed(s) && Enabled(s, step) && !(s.timedOut && s.watchdog.Gone?)
    ensures After(s, step).timedOut && After(s, step).watchdog.Gone? ==> step == ByWatchdog(Kill)
  {
    match step
    case ByGuest(_) =>
    case ByMain(_) =>
    case ByWorker(_, _) =>
    case ByWatchdog(_) =>
    case ByDrainer => DrainerTouches(s);
  }

  /** A watchdog that fired and is gone has killed the guest. */
  lemma {:induction false} KillOfRun(s: State, run: seq<Step>)
    requires Inv(s) && Run(s, run) && !(s.timedOut && s.watchdog.Gone?)
    ensures AfterRun(s, run).timedOut && AfterRun(s, run).watchdog.Gone? ==> ByWatchdog(Kill) in run
    decreases |run|
  {
    if run != [] {
      StepKeeps(s, run[0]);
      StepKills(s, run[0]);
      if run[0] != ByWatchdog(Kill) { KillOfRun(After(s, run[0]), run[1..]); }
    }
  }

  /** The published code is settled by the run: 137 if the watchdog fired, which then has killed the guest;
      else the low byte of the first exit call's argument; else what waitpid said, or -1. */
  lemma PublishedCode(s0: State, run: seq<Step>)
    requires Init(s0) && Run(s0, run)
    ensures var exit := AfterRun(s0, run).exit;
            exit.Some? ==>
              && WaitResult(run).Some?
              && (ByWatchdog(Fire) in run ==> exit.value == 137 && ByWatchdog(Kill) in run)
              && (ByWatchdog(Fire) !in run ==>
                    exit.value == if FirstExit(run).Some? then FirstExit(run).value % 256
                                  else if WaitResult(run).value.Some? then WaitResult(run).value.value else -1)
  {
    InitInv(s0);
    RunKeeps(s0, run);
    StatusOfRun(s0, run);
    WaitOfRun(s0, run);
    KillOfRun(s0, run);
    var s := AfterRun(s0, run);
    if s.timedOut && s.exit.Some? { assert s.watchdog.Gone?; }
  }

  /** The first recorded exit status stays, whatever runs later. */
  lemma {:induction false} FirstStatusStays(s: State, run: seq<Step>)
    requires Run(s, run) && s.status != NO_EXIT
    ensures AfterRun(s, run).status == s.status
    decreases |run|
  {
    if run != [] {
      FirstStatusStays(After(s, run[0]), run[1..]);
    }
  }

  // ---------------------------------------------------------------- no deadlock, and an end

  predicate BySession(step: Step) {
    (step.ByMain? && !(step.m.EndLoop? && step.m.failed)) || step.ByWorker? || step.ByWatchdog?
  }

  predicate AwaitsGuest(s: State) { s.main.Receiving? && s.pending == {} && !s.hungUp }

  function WorkerMove(w: nat, pc: Worker): Step
    requires !pc.Exited?
  {
    ByWorker(w, if pc.Busy? then Return else if pc.Replying? then Send else Leave)
  }

  /** Unless it waits for the guest or is done, some thread of the session can always move. */
  lemma NoDeadlock(s: State) returns (step: Step)
    requires Inv(s) && !s.main.Finished? && !AwaitsGuest(s)
    ensures BySession(step) && Enabled(s, step)
  {
    match s.main
    case Receiving =>
      if s.hungUp {
        step := ByMain(EndLoop(false));
      } else {
        var n :| n in s.pending;
        step := ByMain(Recv(n));
      }
    case Holding(_) =>
      step := if s.workers[0].Idle? then ByMain(Handoff(0, 0)) else WorkerMove(0, s.workers[0]);
    case Joining(k) =>
      step := if k == |s.workers| || s.workers[k].Exited? then ByMain(JoinWorker) else WorkerMove(k, s.workers[k]);
    case Stopping => step := ByMain(DropSender);
    case JoiningWatchdog =>
      step := if s.watchdog.Sleeping? then ByWatchdog(Dismiss)
              else if s.watchdog.Killing? then ByWatchdog(Kill) else ByMain(JoinWatchdog);
    case Waiting => step := ByMain(WaitPid(None));
    case Publishing(_) => step := ByMain(Publish);
  }

  function Stage(m: Main): nat {
    match m
    case Receiving => 15
    case Holding(_) => 15
    case Joining(k) => if k <= 8 then 14 - k else 6
    case Stopping => 5
    case JoiningWatchdog => 4
    case Waiting => 3
    case Publishing(_) => 2
    case Finished => 0
  }

  function Toil(w: Worker): nat {
    match w
    case Idle => 1
    case Busy(_, effects) => effects + 3
    case Replying(_) => 2
    case Exited => 0
  }

  function TotalToil(ws: seq<Worker>): nat { if ws == [] then 0 else Toil(ws[0]) + TotalToil(ws[1..]) }

  function Alarm(d: Watchdog): nat { if d.Sleeping? then 2 else if d.Killing? then 1 else 0 }

  /** A lexicographic rank. */
  datatype Rank = Rank(stage: nat, queue: nat, toil: nat)

  function RankOf(s: State): Rank {
    Rank(Stage(s.main), 2 * |s.pending| + Full(s.main), TotalToil(s.workers) + Alarm(s.watchdog))
  }

  predicate Below(a: Rank, b: Rank) {
    a.stage < b.stage || (a.stage == b.stage && (a.queue < b.queue || (a.queue == b.queue && a.toil < b.toil)))
  }

  lemma {:induction false} ToilUpdate(ws: seq<Worker>, i: nat, w: Worker)
    requires i < |ws|
    ensures TotalToil(ws[i := w]) == TotalToil(ws) - Toil(ws[i]) + Toil(w)
  {
    if i > 0 {
      ToilUpdate(ws[1..], i - 1, w);
      assert ws[i := w][1..] == ws[1..][i - 1 := w];
    } else {
      assert ws[0 := w][1..] == ws[1..];
    }
  }

  lemma MainDescends(s: State, m: MainStep)
    requires MainCan(s, m) && |s.workers| == MAX_INFLIGHT
    ensures Below(RankOf(MainDoes(s, m)), RankOf(s))
  {
  }

  lemma WorkerDescends(s: State, w: nat, a: WorkerStep)
    requires WorkerCan(s, w, a)
    ensures Below(RankOf(WorkerDoes(s, w, a)), RankOf(s))
  {
    ToilUpdate(s.workers, w, NextWorker(s.workers[w], a));
    var t := WorkerDoes(s, w, a);
    assert t.main == s.main && t.pending == s.pending && t.watchdog == s.watchdog;
  }

  /** Every move of the session lowers the rank, so with no new notifications it ends however it
      is scheduled; by NoDeadlock it can only end with the exit code published. */
  lemma SessionStepsDescend(s: State, step: Step)
    requires Inv(s) && Enabled(s, step) && (step.ByMain? || step.ByWorker? || step.ByWatchdog?)
    ensures Below(RankOf(After(s, step)), RankOf(s))
  {
    match step
    case ByMain(m) => MainDescends(s, m);
    case ByWorker(w, a) => WorkerDescends(s, w, a);
    case ByWatchdog(d) =>
  }

  function DrainRank(d: Drain): nat {
    match d
    case Ticking => 10
    case SendOut(_) => 9
    case ReadErr => 8
    case SendErr(_) => 7
    case TryWait => 6
    case LastOut(_) => 5
    case SendLastOut(_, _) => 4
    case LastErr(_) => 3
    case SendLastErr(_, _) => 2
    case SendExit(_) => 1
    case Closed => 0
  }

  function Drains(s: State, steps: nat): State
    decreases steps
  {
    if steps == 0 || s.drain.Closed? then s else Drains(Drained(s), steps - 1)
  }

  /** Once the exit code is published the drainer closes the stream within ten of its steps. */
  lemma {:induction false} DrainerCloses(s: State, steps: nat)
    requires s.exit.Some? && DrainRank(s.drain) <= steps
    ensures Drains(s, steps).drain.Closed?
    decreases steps
  {
    if !s.drain.Closed? { DrainerCloses(Drained(s), steps - 1); }
  }
}
