/** Blocking reads and receives on behalf of a guest, which must end when the guest does. */
module BlockingReads {
  import opened FileData
  import opened Results

  /** One poll slice: the bytes that arrive during it, whether the peer hangs up, and whether the
      guest's notification is still valid at its end. */
  datatype Slice = Slice(arrived: seq<Byte>, hup: bool, valid: bool)

  datatype Outcome = Got(bytes: seq<Byte>) | Failed(errno: Errno) | Waiting

  function Arrived(slices: seq<Slice>): seq<Byte> {
    if slices == [] then [] else Arrived(slices[..|slices| - 1]) + slices[|slices| - 1].arrived
  }

  function Least(a: nat, b: nat): nat { if a < b then a else b }

  /** A slice after which the caller goes on waiting: nothing to read, and someone still waits for it. */
  predicate Idle(s: Slice) { s.arrived == [] && !s.hup && s.valid }

  lemma {:induction false} IdleBringsNothing(slices: seq<Slice>, n: nat)
    requires n <= |slices| && forall i :: 0 <= i < n ==> Idle(slices[i])
    ensures Arrived(slices[..n]) == []
    decreases n
  {
    if n > 0 {
      assert slices[..n][..n - 1] == slices[..n - 1];
      assert Idle(slices[n - 1]);
      IdleBringsNothing(slices, n - 1);
    }
  }

  lemma ArrivedStep(slices: seq<Slice>, n: nat)
    requires n < |slices|
    ensures Arrived(slices[..n + 1]) == Arrived(slices[..n]) + slices[n].arrived
  {
    assert slices[..n + 1][..n] == slices[..n];
  }

  class Source {
    var queue: seq<Byte>
    var hungUp: bool

    /** One read of `len` bytes, or of what there is. */
    method Read(len: nat) returns (bytes: seq<Byte>)
      modifies this`queue
      ensures bytes + queue == old(queue) && |bytes| == Least(len, |old(queue)|)
    {
      var n := if len < |queue| then len else |queue|;
      bytes, queue := queue[..n], queue[n..];
    }

    predicate Readable()
      reads this
    {
      queue != [] || hungUp
    }

    method Pass(s: Slice)
      modifies this
      ensures queue == old(queue) + s.arrived && hungUp == (old(hungUp) || s.hup)
    {
      queue, hungUp := queue + s.arrived, hungUp || s.hup;
    }

    /** Read while polling in slices. It reads once, at the first slice that finds something; gives up
        at the first that finds nothing and a dead notification, with no byte taken; and loses none. */
    method ReadBlocking(len: nat, canBlock: bool, slices: seq<Slice>) returns (r: Outcome, ghost used: nat)
      modifies this
      ensures used <= |slices| && (canBlock ==> forall i :: 0 <= i < used - 1 ==> Idle(slices[i]))
      ensures (if r.Got? then r.bytes else []) + queue == old(queue) + Arrived(slices[..used])
      ensures r.Got? ==> |r.bytes| == Least(len, |old(queue) + Arrived(slices[..used])|) && (canBlock ==> used > 0)
      ensures r.Got? && canBlock ==> old(queue) + Arrived(slices[..used]) != [] || old(hungUp) || slices[used - 1].hup
      ensures r.Failed? <==> canBlock && used > 0 && old(queue) == [] && !old(hungUp)
                             && slices[used - 1] == Slice([], false, false)
      ensures r.Failed? ==> r.errno == INTR && queue == []
      ensures r.Waiting? ==> used == |slices| && forall i :: 0 <= i < used ==> Idle(slices[i])
      ensures !canBlock ==> r.Got? && used == 0
      ensures canBlock && (old(queue) != [] || old(hungUp)) && slices != [] ==> r.Got? && used == 1
    {
      used := 0;
      if !canBlock {
        var bytes := Read(len);
        assert slices[..0] == [];
        return Got(bytes), 0;
      }
      var i := 0;
      while i < |slices|
        invariant 0 <= i <= |slices| && used == i
        invariant forall k :: 0 <= k < i ==> Idle(slices[k])
        invariant queue == old(queue) && hungUp == old(hungUp)
        invariant i > 0 ==> old(queue) == [] && !old(hungUp)
      {
        IdleBringsNothing(slices, i);
        ArrivedStep(slices, i);
        Pass(slices[i]);
        i, used := i + 1, used + 1;
        if Readable() {
          var bytes := Read(len);
          return Got(bytes), used;
        }
        if !slices[i - 1].valid { return Failed(INTR), used; }
      }
      IdleBringsNothing(slices, i);
      return Waiting, used;
    }

    /** Receive on a blocking socket: try first, and only then wait a slice. A slice that ends with a
        dead notification gives up even if bytes came in during it; they stay queued. */
    method RecvBlocking(len: nat, slices: seq<Slice>) returns (r: Outcome, ghost used: nat)
      modifies this
      ensures used <= |slices| && forall i :: 0 <= i < used - 1 ==> Idle(slices[i])
      ensures (if r.Got? then r.bytes else []) + queue == old(queue) + Arrived(slices[..used])
      ensures r.Got? ==> |r.bytes| == Least(len, |old(queue) + Arrived(slices[..used])|)
      ensures r.Got? ==> old(queue) + Arrived(slices[..used]) != [] || old(hungUp) || (used > 0 && slices[used - 1].hup)
      ensures r.Failed? <==> used > 0 && old(queue) == [] && !old(hungUp) && !slices[used - 1].valid
      ensures r.Failed? ==> r.errno == INTR
      ensures r.Waiting? ==> used == |slices| && forall i :: 0 <= i < used ==> Idle(slices[i])
      ensures old(queue) != [] || old(hungUp) ==> r.Got? && used == 0
    {
      used := 0;
      var i := 0;
      assert slices[..0] == [];
      while true
        invariant 0 <= i <= |slices| && used == i
        invariant forall k :: 0 <= k < i - 1 ==> Idle(slices[k])
        invariant i > 0 ==> old(queue) == [] && !old(hungUp) && slices[i - 1].valid
        invariant i > 0 ==> queue == slices[i - 1].arrived && hungUp == slices[i - 1].hup
        invariant i == 0 ==> queue == old(queue) && hungUp == old(hungUp)
        invariant queue == old(queue) + Arrived(slices[..i])
        decreases |slices| - i
      {
        if Readable() {
          var bytes := Read(len);
          return Got(bytes), used;
        }
        if i == |slices| { return Waiting, used; }
        ArrivedStep(slices, i);
        Pass(slices[i]);
        i, used := i + 1, used + 1;
        if !slices[i - 1].valid { return Failed(INTR), used; }
      }
    }
  }
}
