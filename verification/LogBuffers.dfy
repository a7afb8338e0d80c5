/** The captured output of a guest and the loop that streams it to a client. */
module LogBuffers {
  import opened FileData
  import opened Results

  datatype Chunk = Stdout(bytes: seq<Byte>) | Stderr(bytes: seq<Byte>) | ExitCode(code: int)

  /** All stdout bytes in a stream of chunks, in order. */
  function OutOf(chunks: seq<Chunk>): seq<Byte> {
    if chunks == [] then []
    else (if chunks[0].Stdout? then chunks[0].bytes else []) + OutOf(chunks[1..])
  }

  function ErrOf(chunks: seq<Chunk>): seq<Byte> {
    if chunks == [] then []
    else (if chunks[0].Stderr? then chunks[0].bytes else []) + ErrOf(chunks[1..])
  }

  /** Only output chunks, none of them empty. */
  predicate DataOnly(chunks: seq<Chunk>) {
    forall i :: 0 <= i < |chunks| ==> !chunks[i].ExitCode? && chunks[i].bytes != []
  }

  lemma {:induction false} OutAppend(a: seq<Chunk>, b: seq<Chunk>)
    ensures OutOf(a + b) == OutOf(a) + OutOf(b)
  {
    if a == [] {
      assert a + b == b;
    } else {
      assert (a + b)[1..] == a[1..] + b;
      OutAppend(a[1..], b);
    }
  }

  lemma {:induction false} ErrAppend(a: seq<Chunk>, b: seq<Chunk>)
    ensures ErrOf(a + b) == ErrOf(a) + ErrOf(b)
  {
    if a == [] {
      assert a + b == b;
    } else {
      assert (a + b)[1..] == a[1..] + b;
      ErrAppend(a[1..], b);
    }
  }

  lemma ChunksAppend(a: seq<Chunk>, b: seq<Chunk>)
    ensures OutOf(a + b) == OutOf(a) + OutOf(b)
    ensures ErrOf(a + b) == ErrOf(a) + ErrOf(b)
  {
    OutAppend(a, b);
    ErrAppend(a, b);
  }

  class LogBuffer {
    var inner: seq<Byte>

    constructor ()
      ensures inner == []
    {
      inner := [];
    }

    method Write(data: seq<Byte>)
      modifies this
      ensures inner == old(inner) + data
    {
      inner := inner + data;
    }

    method Read() returns (data: seq<Byte>)
      modifies this
      ensures data == old(inner) && inner == []
    {
      data := inner;
      inner := [];
    }
  }

  /** What the rest of the session does during one turn of the stream loop: bytes captured before
      each of the two reads, bytes captured after them, and whether the exit code is published
      before try_wait. */
  datatype Tick = Tick(out: seq<Byte>, err: seq<Byte>, lateOut: seq<Byte>, lateErr: seq<Byte>, exit: Option<int>)

  /** The stdout bytes captured during the first n turns. */
  function OutThrough(sched: seq<Tick>, n: nat): seq<Byte>
    requires n <= |sched|
  {
    if n == 0 then [] else OutThrough(sched, n - 1) + sched[n - 1].out + sched[n - 1].lateOut
  }

  function ErrThrough(sched: seq<Tick>, n: nat): seq<Byte>
    requires n <= |sched|
  {
    if n == 0 then [] else ErrThrough(sched, n - 1) + sched[n - 1].err + sched[n - 1].lateErr
  }

  /** Drain a buffer and send what it held, unless it was empty. */
  method Forward(buffer: LogBuffer, isErr: bool, sent: seq<Chunk>) returns (sent': seq<Chunk>)
    requires DataOnly(sent)
    modifies buffer
    ensures buffer.inner == [] && DataOnly(sent')
    ensures OutOf(sent') == if isErr then OutOf(sent) else OutOf(sent) + old(buffer.inner)
    ensures ErrOf(sent') == if isErr then ErrOf(sent) + old(buffer.inner) else ErrOf(sent)
  {
    var data := buffer.Read();
    sent' := sent;
    if data != [] {
      var chunk := if isErr then Stderr(data) else Stdout(data);
      ChunksAppend(sent, [chunk]);
      sent' := sent + [chunk];
    }
  }

  /** One turn up to try_wait: read and send each stream, while more output arrives. */
  method Turn(stdout: LogBuffer, stderr: LogBuffer, tick: Tick, sent: seq<Chunk>) returns (sent': seq<Chunk>)
    requires stdout != stderr && DataOnly(sent)
    modifies stdout, stderr
    ensures DataOnly(sent')
    ensures OutOf(sent') + stdout.inner == OutOf(sent) + old(stdout.inner) + tick.out + tick.lateOut
    ensures ErrOf(sent') + stderr.inner == ErrOf(sent) + old(stderr.inner) + tick.err + tick.lateErr
  {
    stdout.Write(tick.out);
    sent' := Forward(stdout, false, sent);
    stderr.Write(tick.err);
    sent' := Forward(stderr, true, sent');
    stdout.Write(tick.lateOut);
    stderr.Write(tick.lateErr);
    Regroup(OutOf(sent), old(stdout.inner), tick.out, tick.lateOut);
    Regroup(ErrOf(sent), old(stderr.inner), tick.err, tick.lateErr);
  }

  lemma Regroup(a: seq<Byte>, b: seq<Byte>, c: seq<Byte>, d: seq<Byte>)
    ensures a + (b + c) + ([] + d) == a + b + c + d
    ensures [] + d == d
  {
  }

  /** The last turn: what the buffers still hold, then the exit code. */
  method Finish(stdout: LogBuffer, stderr: LogBuffer, code: int, sent: seq<Chunk>) returns (sent': seq<Chunk>)
    requires stdout != stderr && DataOnly(sent)
    modifies stdout, stderr
    ensures stdout.inner == stderr.inner == []
    ensures OutOf(sent') == OutOf(sent) + old(stdout.inner)
    ensures ErrOf(sent') == ErrOf(sent) + old(stderr.inner)
    ensures sent' != [] && DataOnly(sent'[..|sent'| - 1]) && sent'[|sent'| - 1] == ExitCode(code)
  {
    var data := Forward(stdout, false, sent);
    data := Forward(stderr, true, data);
    ChunksAppend(data, [ExitCode(code)]);
    sent' := data + [ExitCode(code)];
    assert sent'[..|sent'| - 1] == data;
  }

  lemma CapturedOut(start: seq<Byte>, sched: seq<Tick>, n: nat)
    requires n < |sched|
    ensures start + OutThrough(sched, n) + sched[n].out + sched[n].lateOut == start + OutThrough(sched, n + 1)
  {
    assert OutThrough(sched, n + 1) == OutThrough(sched, n) + sched[n].out + sched[n].lateOut;
  }

  lemma CapturedErr(start: seq<Byte>, sched: seq<Tick>, n: nat)
    requires n < |sched|
    ensures start + ErrThrough(sched, n) + sched[n].err + sched[n].lateErr == start + ErrThrough(sched, n + 1)
  {
    assert ErrThrough(sched, n + 1) == ErrThrough(sched, n) + sched[n].err + sched[n].lateErr;
  }

  /** The run_stream loop against a schedule of the rest of the session. It stops at the first
      turn that finds the exit code, having sent every byte captured until then, in order. */
  method RunStream(stdout: LogBuffer, stderr: LogBuffer, sched: seq<Tick>) returns (sent: seq<Chunk>, turns: nat, closed: bool)
    requires stdout != stderr
    modifies stdout, stderr
    ensures turns <= |sched|
    ensures forall i :: 0 <= i < turns - (if closed then 1 else 0) ==> sched[i].exit.None?
    ensures !closed ==> turns == |sched| && DataOnly(sent)
    ensures !closed ==> OutOf(sent) + stdout.inner == old(stdout.inner) + OutThrough(sched, turns)
    ensures !closed ==> ErrOf(sent) + stderr.inner == old(stderr.inner) + ErrThrough(sched, turns)
    ensures closed ==> turns > 0 && sched[turns - 1].exit.Some? && stdout.inner == stderr.inner == []
    ensures closed ==> OutOf(sent) == old(stdout.inner) + OutThrough(sched, turns)
    ensures closed ==> ErrOf(sent) == old(stderr.inner) + ErrThrough(sched, turns)
    ensures closed ==> sent != [] && DataOnly(sent[..|sent| - 1]) && sent[|sent| - 1] == ExitCode(sched[turns - 1].exit.value)
  {
    sent, turns, closed := [], 0, false;
    ghost var out0, err0 := stdout.inner, stderr.inner;
    while turns < |sched|
      invariant turns <= |sched| && DataOnly(sent)
      invariant forall i :: 0 <= i < turns ==> sched[i].exit.None?
      invariant OutOf(sent) + stdout.inner == out0 + OutThrough(sched, turns)
      invariant ErrOf(sent) + stderr.inner == err0 + ErrThrough(sched, turns)
    {
      var tick := sched[turns];
      CapturedOut(out0, sched, turns);
      CapturedErr(err0, sched, turns);
      sent := Turn(stdout, stderr, tick, sent);
      turns := turns + 1;
      if tick.exit.Some? {
        sent := Finish(stdout, stderr, tick.exit.value, sent);
        return sent, turns, true;
      }
    }
  }
}
