/** Gathering and scattering guest buffers described by an iovec array in guest memory.

    Guest memory is a partial map from addresses to bytes; a transfer that meets an unmapped address
    fails with EFAULT as a whole. */
module Iovec {
  import opened FileData
  import opened Results

  type Memory = map<nat, Byte>

  const IO_CHUNK: nat := 128 * 1024
  const MAX_IOV: nat := 16

  datatype Iov = Iov(base: nat, len: nat)

  function Min(a: nat, b: nat): nat { if a < b then a else b }

  // ---------------------------------------------------------------- memory

  predicate Mapped(m: Memory, a: nat, n: nat) { forall k :: a <= k < a + n ==> k in m }

  function Bytes(m: Memory, a: nat, n: nat): seq<Byte>
    requires Mapped(m, a, n)
  {
    seq(n, i requires 0 <= i < n => m[a + i])
  }

  function Poke(m: Memory, a: nat, data: seq<Byte>): Memory {
    map k | k in m :: if a <= k < a + |data| then data[k - a] else m[k]
  }

  /** A little-endian number. */
  function Le(s: seq<Byte>): nat { if s == [] then 0 else s[0] + 256 * Le(s[1..]) }

  function WordAt(m: Memory, a: nat): nat
    requires Mapped(m, a, 8)
  {
    Le(Bytes(m, a, 8))
  }

  // ---------------------------------------------------------------- the iovec array

  predicate HasEntry(m: Memory, ptr: nat, i: nat) { Mapped(m, ptr + 16 * i, 16) }

  function EntryAt(m: Memory, ptr: nat, i: nat): Iov
    requires HasEntry(m, ptr, i)
  {
    var a := ptr + 16 * i;
    Iov(WordAt(m, a), WordAt(m, a + 8))
  }

  /** The k low bytes of a number, lowest first. */
  function LowBytes(n: nat, k: nat): (s: seq<Byte>)
    ensures |s| == k
  {
    if k == 0 then [] else [n % 256] + LowBytes(n / 256, k - 1)
  }

  function Pow256(k: nat): nat { if k == 0 then 1 else 256 * Pow256(k - 1) }

  lemma {:induction false} LeReadsBack(n: nat, k: nat)
    requires n < Pow256(k)
    ensures Le(LowBytes(n, k)) == n
    decreases k
  {
    if k > 0 {
      assert n / 256 < Pow256(k - 1);
      LeReadsBack(n / 256, k - 1);
      assert LowBytes(n, k)[1..] == LowBytes(n / 256, k - 1);
    }
  }

  /** The eight bytes of a 64-bit word, lowest first. */
  predicate Stores(m: Memory, a: nat, n: nat) { forall b :: a <= b < a + 8 ==> b in m && m[b] == LowBytes(n, 8)[b - a] }

  lemma StoredWord(m: Memory, a: nat, n: nat)
    requires n < 0x1_0000_0000_0000_0000 && Stores(m, a, n)
    ensures Mapped(m, a, 8) && WordAt(m, a) == n
  {
    assert Bytes(m, a, 8) == LowBytes(n, 8);
    LeReadsBack(n, 8);
  }

  /** A guest that stores a buffer's address and then its length has made entry i. */
  lemma StoredEntry(m: Memory, ptr: nat, i: nat, base: nat, len: nat)
    requires base < 0x1_0000_0000_0000_0000 && len < 0x1_0000_0000_0000_0000
    requires Stores(m, ptr + 16 * i, base) && Stores(m, ptr + 16 * i + 8, len)
    ensures HasEntry(m, ptr, i) && EntryAt(m, ptr, i) == Iov(base, len)
  {
    StoredWord(m, ptr + 16 * i, base);
    StoredWord(m, ptr + 16 * i + 8, len);
  }

  function LenAt(m: Memory, ptr: nat, i: nat): nat {
    if HasEntry(m, ptr, i) then EntryAt(m, ptr, i).len else 0
  }

  /** The length of the first i buffers together. */
  function Before(m: Memory, ptr: nat, i: nat): nat {
    if i == 0 then 0 else Before(m, ptr, i - 1) + LenAt(m, ptr, i - 1)
  }

  lemma {:induction false} BeforeGrows(m: Memory, ptr: nat, i: nat, j: nat)
    requires i <= j
    ensures Before(m, ptr, i) <= Before(m, ptr, j)
    decreases j
  {
    if i < j { BeforeGrows(m, ptr, i, j - 1); }
  }

  // ---------------------------------------------------------------- gather

  /** How much of buffer i fits under the cap. */
  function Room(m: Memory, ptr: nat, i: nat): nat {
    if Before(m, ptr, i) >= IO_CHUNK then 0 else Min(LenAt(m, ptr, i), IO_CHUNK - Before(m, ptr, i))
  }

  /** The loop looks at entry i unless the cap was already reached when it looked at the one before. */
  predicate Reached(m: Memory, ptr: nat, i: nat) { i == 0 || Before(m, ptr, i - 1) < IO_CHUNK }

  /** The part of buffer i under the cap, if any, is mapped. */
  predicate Fits(m: Memory, ptr: nat, i: nat) {
    Room(m, ptr, i) > 0 ==> Mapped(m, EntryAt(m, ptr, i).base, Room(m, ptr, i))
  }

  /** The part of buffer i under the cap. */
  function Piece(m: Memory, ptr: nat, i: nat): (s: seq<Byte>)
    requires Fits(m, ptr, i)
    ensures |s| == Room(m, ptr, i)
  {
    if Room(m, ptr, i) == 0 then [] else Bytes(m, EntryAt(m, ptr, i).base, Room(m, ptr, i))
  }

  /** The first n buffers, cut where the cap falls. */
  function Gathered(m: Memory, ptr: nat, n: nat): (s: seq<Byte>)
    requires forall i :: 0 <= i < n ==> Fits(m, ptr, i)
    ensures |s| == Min(Before(m, ptr, n), IO_CHUNK)
  {
    if n == 0 then [] else Gathered(m, ptr, n - 1) + Piece(m, ptr, n - 1)
  }

  predicate Whole(m: Memory, ptr: nat, i: nat) {
    HasEntry(m, ptr, i) && Mapped(m, EntryAt(m, ptr, i).base, LenAt(m, ptr, i))
  }

  /** The first n buffers, concatenated whole. */
  function Joined(m: Memory, ptr: nat, n: nat): seq<Byte>
    requires forall i :: 0 <= i < n ==> Whole(m, ptr, i)
  {
    if n == 0 then []
    else
      assert Whole(m, ptr, n - 1);
      Joined(m, ptr, n - 1) + Bytes(m, EntryAt(m, ptr, n - 1).base, LenAt(m, ptr, n - 1))
  }

  lemma PieceIsPrefix(m: Memory, ptr: nat, i: nat)
    requires Whole(m, ptr, i)
    ensures Fits(m, ptr, i)
    ensures Piece(m, ptr, i) == Bytes(m, EntryAt(m, ptr, i).base, LenAt(m, ptr, i))[..Room(m, ptr, i)]
  {
  }

  /** The first i of some sequences, joined. */
  function Concat(cs: seq<seq<Byte>>, i: nat): seq<Byte>
    requires i <= |cs|
  {
    if i == 0 then [] else Concat(cs, i - 1) + cs[i - 1]
  }

  /** The k-th piece is what the cap leaves of the k-th sequence. */
  predicate CutAt(cs: seq<seq<Byte>>, ps: seq<seq<Byte>>, k: nat)
    requires k < |cs| == |ps|
  {
    ps[k] == cs[k][..if |Concat(cs, k)| >= IO_CHUNK then 0 else Min(|cs[k]|, IO_CHUNK - |Concat(cs, k)|)]
  }

  /** Cutting piece by piece is cutting the whole. */
  lemma {:induction false} ConcatCut(cs: seq<seq<Byte>>, ps: seq<seq<Byte>>, i: nat)
    requires i <= |cs| == |ps| && forall k :: 0 <= k < i ==> CutAt(cs, ps, k)
    ensures Concat(ps, i) == Concat(cs, i)[..Min(IO_CHUNK, |Concat(cs, i)|)]
    decreases i
  {
    if i > 0 {
      ConcatCut(cs, ps, i - 1);
      assert CutAt(cs, ps, i - 1);
    }
  }

  predicate IsBuffer(m: Memory, ptr: nat, cs: seq<seq<Byte>>, k: nat)
    requires k < |cs|
  {
    Whole(m, ptr, k) && cs[k] == Bytes(m, EntryAt(m, ptr, k).base, LenAt(m, ptr, k))
  }

  lemma {:induction false} JoinedIsConcat(m: Memory, ptr: nat, n: nat, cs: seq<seq<Byte>>)
    requires n <= |cs| && forall k :: 0 <= k < n ==> IsBuffer(m, ptr, cs, k)
    ensures forall k :: 0 <= k < n ==> Whole(m, ptr, k)
    ensures Joined(m, ptr, n) == Concat(cs, n) && |Concat(cs, n)| == Before(m, ptr, n)
    decreases n
  {
    if n > 0 {
      JoinedIsConcat(m, ptr, n - 1, cs);
      assert IsBuffer(m, ptr, cs, n - 1);
      forall k | 0 <= k < n ensures Whole(m, ptr, k) { assert IsBuffer(m, ptr, cs, k); }
    }
  }

  predicate IsPiece(m: Memory, ptr: nat, ps: seq<seq<Byte>>, k: nat)
    requires k < |ps|
  {
    Fits(m, ptr, k) && ps[k] == Piece(m, ptr, k)
  }

  lemma {:induction false} GatheredIsConcat(m: Memory, ptr: nat, n: nat, ps: seq<seq<Byte>>)
    requires n <= |ps| && forall k :: 0 <= k < n ==> IsPiece(m, ptr, ps, k)
    ensures forall k :: 0 <= k < n ==> Fits(m, ptr, k)
    ensures Gathered(m, ptr, n) == Concat(ps, n)
    decreases n
  {
    if n > 0 {
      GatheredIsConcat(m, ptr, n - 1, ps);
      assert IsPiece(m, ptr, ps, n - 1);
      forall k | 0 <= k < n ensures Fits(m, ptr, k) { assert IsPiece(m, ptr, ps, k); }
    }
  }

  /** Cutting buffer by buffer is cutting the concatenation: the gathered bytes are exactly the first
      128 KiB of it, or all. */
  lemma GatheredIsPrefix(m: Memory, ptr: nat, n: nat)
    requires forall i :: 0 <= i < n ==> Whole(m, ptr, i)
    ensures forall i :: 0 <= i < n ==> Fits(m, ptr, i)
    ensures |Joined(m, ptr, n)| == Before(m, ptr, n)
    ensures Gathered(m, ptr, n) == Joined(m, ptr, n)[..Min(131072, Before(m, ptr, n))]
  {
    var cs := seq(n, k requires 0 <= k < n && Whole(m, ptr, k) => Bytes(m, EntryAt(m, ptr, k).base, LenAt(m, ptr, k)));
    forall k | 0 <= k < n ensures Fits(m, ptr, k) { PieceIsPrefix(m, ptr, k); }
    var ps := seq(n, k requires 0 <= k < n && Fits(m, ptr, k) => Piece(m, ptr, k));
    forall k: nat | k < n ensures IsBuffer(m, ptr, cs, k) { assert Whole(m, ptr, k); }
    forall k: nat | k < n ensures IsPiece(m, ptr, ps, k) { assert Fits(m, ptr, k); }
    forall k: nat | k < n ensures CutAt(cs, ps, k) { PieceIsCut(m, ptr, k, cs, ps); }
    JoinedIsConcat(m, ptr, n, cs);
    GatheredIsConcat(m, ptr, n, ps);
    ConcatCut(cs, ps, n);
  }

  lemma PieceIsCut(m: Memory, ptr: nat, k: nat, cs: seq<seq<Byte>>, ps: seq<seq<Byte>>)
    requires k < |cs| == |ps| && IsPiece(m, ptr, ps, k) && forall i :: 0 <= i <= k ==> IsBuffer(m, ptr, cs, i)
    ensures CutAt(cs, ps, k)
  {
    JoinedIsConcat(m, ptr, k, cs);
    assert IsBuffer(m, ptr, cs, k);
    PieceIsPrefix(m, ptr, k);
  }

  /** What the loop can fail on at entry i. */
  predicate EntryReads(m: Memory, ptr: nat, i: nat) { HasEntry(m, ptr, i) && Fits(m, ptr, i) }

  lemma PastCap(m: Memory, ptr: nat, i: nat, k: nat)
    requires i <= k && Before(m, ptr, i) >= IO_CHUNK
    ensures Room(m, ptr, k) == 0 && Fits(m, ptr, k) && Piece(m, ptr, k) == []
    ensures i < k ==> !Reached(m, ptr, k)
  {
    BeforeGrows(m, ptr, i, k);
    if i < k { BeforeGrows(m, ptr, i, k - 1); }
  }

  lemma {:induction false} NothingAdded(m: Memory, ptr: nat, i: nat, n: nat)
    requires i <= n && Before(m, ptr, i) >= IO_CHUNK
    requires forall k :: 0 <= k < n ==> Fits(m, ptr, k)
    ensures Gathered(m, ptr, n) == Gathered(m, ptr, i)
    decreases n
  {
    if i < n {
      NothingAdded(m, ptr, i, n - 1);
      PastCap(m, ptr, i, n - 1);
    }
  }

  /** Entries past the cap are not reached and add nothing. */
  lemma Capped(m: Memory, ptr: nat, i: nat, n: nat)
    requires i <= n && Before(m, ptr, i) >= IO_CHUNK
    requires forall k :: 0 <= k < i ==> Fits(m, ptr, k)
    ensures forall k :: i < k < n ==> !Reached(m, ptr, k)
    ensures forall k :: 0 <= k < n ==> Fits(m, ptr, k)
    ensures Gathered(m, ptr, n) == Gathered(m, ptr, i)
  {
    forall k | i < k < n ensures !Reached(m, ptr, k) { PastCap(m, ptr, i, k); }
    forall k | 0 <= k < n ensures Fits(m, ptr, k) { if i <= k { PastCap(m, ptr, i, k); } }
    NothingAdded(m, ptr, i, n);
  }

  ghost predicate ReadsTo(m: Memory, ptr: nat, i: nat) { forall k :: 0 <= k < i ==> EntryReads(m, ptr, k) }

  lemma ReadsOne(m: Memory, ptr: nat, i: nat)
    requires ReadsTo(m, ptr, i) && EntryReads(m, ptr, i)
    ensures ReadsTo(m, ptr, i + 1)
    ensures forall k :: 0 <= k <= i ==> Fits(m, ptr, k)
  {
    forall k | 0 <= k < i + 1 ensures EntryReads(m, ptr, k) { if k == i {} }
    forall k | 0 <= k < i + 1 ensures Fits(m, ptr, k) { assert EntryReads(m, ptr, k); }
  }

  /** Where the loop stops at the cap, it has read every entry it reached, and has all the bytes. */
  lemma CapStops(m: Memory, ptr: nat, i: nat, n: nat)
    requires i < n && Before(m, ptr, i) >= IO_CHUNK && HasEntry(m, ptr, i)
    requires ReadsTo(m, ptr, i)
    ensures forall k :: 0 <= k < n && Reached(m, ptr, k) ==> EntryReads(m, ptr, k)
    ensures forall k :: 0 <= k < n ==> Fits(m, ptr, k)
    ensures Gathered(m, ptr, n) == Gathered(m, ptr, i)
  {
    forall k | 0 <= k < i ensures Fits(m, ptr, k) { assert EntryReads(m, ptr, k); }
    Capped(m, ptr, i, n);
    PastCap(m, ptr, i, i);
  }

  // ---------------------------------------------------------------- scatter

  /** Write `rest` over buffers i, i+1, ..., n-1 until it runs out; the array is read as it goes. */
  function ScatterFrom(m: Memory, ptr: nat, i: nat, n: nat, rest: seq<Byte>): (Memory, Result<()>)
    requires i <= n
    decreases n - i
  {
    if i == n || rest == [] then (m, Ok(()))
    else if !HasEntry(m, ptr, i) then (m, Err(FAULT))
    else
      var e := EntryAt(m, ptr, i);
      var take := Min(e.len, |rest|);
      if !Mapped(m, e.base, take) then (m, Err(FAULT))
      else ScatterFrom(Poke(m, e.base, rest[..take]), ptr, i + 1, n, rest[take..])
  }

  // A fixed table of buffers.

  type Table = seq<Iov>

  predicate In(t: Table, i: nat, a: nat)
    requires i < |t|
  {
    t[i].base <= a < t[i].base + t[i].len
  }

  function Sum(t: Table, i: nat): nat
    requires i <= |t|
  {
    if i == 0 then 0 else Sum(t, i - 1) + t[i - 1].len
  }

  lemma {:induction false} SumGrows(t: Table, i: nat, j: nat)
    requires i <= j <= |t|
    ensures Sum(t, i) <= Sum(t, j)
    decreases j
  {
    if i < j { SumGrows(t, i, j - 1); }
  }

  /** The buffers are mapped and share no address. */
  predicate Disjoint(m: Memory, t: Table) {
    && (forall i :: 0 <= i < |t| ==> Mapped(m, t[i].base, t[i].len))
    && (forall i, j :: 0 <= i < j < |t| ==> Clear(t[i], t[j]))
  }

  predicate Clear(x: Iov, y: Iov) {
    x.len == 0 || y.len == 0 || x.base + x.len <= y.base || y.base + y.len <= x.base
  }

  function ScatterList(m: Memory, t: Table, i: nat, rest: seq<Byte>): (Memory, Result<()>)
    requires i <= |t|
    decreases |t| - i
  {
    if i == |t| || rest == [] then (m, Ok(()))
    else
      var take := Min(t[i].len, |rest|);
      if !Mapped(m, t[i].base, take) then (m, Err(FAULT))
      else ScatterList(Poke(m, t[i].base, rest[..take]), t, i + 1, rest[take..])
  }

  /** The byte that belongs at an address of buffer i once `data` has been scattered over memory m. */
  function Landed(m: Memory, t: Table, data: seq<Byte>, i: nat, a: nat): Byte
    requires i < |t| && In(t, i, a) && a in m
  {
    var p := Sum(t, i) + (a - t[i].base);
    if p < |data| then data[p] else m[a]
  }

  /** What address a holds once `data` has been written over the first i buffers of m. */
  function Expected(m: Memory, t: Table, data: seq<Byte>, i: nat, a: nat): Byte
    requires i <= |t| && a in m
  {
    if i == 0 then m[a]
    else if In(t, i - 1, a) then Landed(m, t, data, i - 1, a)
    else Expected(m, t, data, i - 1, a)
  }

  ghost predicate ScatteredTo(m: Memory, l: Memory, t: Table, data: seq<Byte>, i: nat)
    requires i <= |t|
  {
    l.Keys == m.Keys && forall a :: a in m ==> l[a] == Expected(m, t, data, i, a)
  }

  lemma {:induction false} ExpectedOutside(m: Memory, t: Table, data: seq<Byte>, i: nat, a: nat)
    requires i <= |t| && a in m && forall k :: 0 <= k < i ==> !In(t, k, a)
    ensures Expected(m, t, data, i, a) == m[a]
    decreases i
  {
    if i > 0 { ExpectedOutside(m, t, data, i - 1, a); }
  }

  lemma {:induction false} ExpectedInside(m: Memory, t: Table, data: seq<Byte>, k: nat, n: nat, a: nat)
    requires Disjoint(m, t) && k < n <= |t| && a in m && In(t, k, a)
    ensures Expected(m, t, data, n, a) == Landed(m, t, data, k, a)
    decreases n
  {
    if k < n - 1 {
      assert Clear(t[k], t[n - 1]);
      ExpectedInside(m, t, data, k, n - 1, a);
    }
  }

  lemma ClearOutside(m: Memory, t: Table, data: seq<Byte>, i: nat, a: nat)
    requires Disjoint(m, t) && i < |t| && a in m && In(t, i, a)
    ensures Expected(m, t, data, i, a) == m[a]
  {
    forall k | 0 <= k < i ensures !In(t, k, a) { assert Clear(t[k], t[i]); }
    ExpectedOutside(m, t, data, i, a);
  }

  lemma ScatterOneAt(m: Memory, t: Table, data: seq<Byte>, i: nat, a: nat, was: Byte, piece: seq<Byte>)
    requires Disjoint(m, t) && i < |t| && Sum(t, i) <= |data| && a in m
    requires |piece| == Min(t[i].len, |data| - Sum(t, i))
    requires forall k :: 0 <= k < |piece| ==> piece[k] == data[Sum(t, i) + k]
    requires was == Expected(m, t, data, i, a)
    ensures Expected(m, t, data, i + 1, a)
            == if t[i].base <= a < t[i].base + |piece| then piece[a - t[i].base] else was
  {
    if In(t, i, a) { ClearOutside(m, t, data, i, a); }
  }

  /** Writing the next buffer's share. */
  lemma ScatterOne(m: Memory, l: Memory, t: Table, data: seq<Byte>, i: nat, piece: seq<Byte>)
    requires Disjoint(m, t) && i < |t| && ScatteredTo(m, l, t, data, i) && Sum(t, i) <= |data|
    requires |piece| == Min(t[i].len, |data| - Sum(t, i))
    requires forall k :: 0 <= k < |piece| ==> piece[k] == data[Sum(t, i) + k]
    ensures ScatteredTo(m, Poke(l, t[i].base, piece), t, data, i + 1)
  {
    forall a | a in m ensures Poke(l, t[i].base, piece)[a] == Expected(m, t, data, i + 1, a) {
      ScatterOneAt(m, t, data, i, a, l[a], piece);
    }
  }

  /** With nothing left to write, the remaining buffers count as written. */
  lemma {:induction false} NothingLeft(m: Memory, l: Memory, t: Table, data: seq<Byte>, i: nat, n: nat)
    requires Disjoint(m, t) && i <= n <= |t| && ScatteredTo(m, l, t, data, i) && Sum(t, i) >= |data|
    ensures ScatteredTo(m, l, t, data, n)
    decreases n
  {
    if i < n {
      NothingLeft(m, l, t, data, i, n - 1);
      SumGrows(t, i, n - 1);
      forall a | a in m ensures l[a] == Expected(m, t, data, n, a) {
        if In(t, n - 1, a) { ClearOutside(m, t, data, n - 1, a); }
      }
    }
  }

  /** One turn: what has been written by then, and what is left. */
  lemma TurnWrites(m: Memory, l: Memory, t: Table, data: seq<Byte>, i: nat, rest: seq<Byte>)
    requires Disjoint(m, t) && i < |t| && ScatteredTo(m, l, t, data, i)
    requires Sum(t, i) <= |data| && rest == data[Sum(t, i)..]
    ensures var take := Min(t[i].len, |rest|);
            && Mapped(l, t[i].base, t[i].len)
            && ScatteredTo(m, Poke(l, t[i].base, rest[..take]), t, data, i + 1)
            && (take == t[i].len ==> Sum(t, i + 1) <= |data| && rest[take..] == data[Sum(t, i + 1)..])
            && (take < t[i].len ==> Sum(t, i + 1) >= |data|)
  {
    ScatterOne(m, l, t, data, i, rest[..Min(t[i].len, |rest|)]);
    assert Mapped(m, t[i].base, t[i].len);
  }

  lemma {:induction false} ScatterRun(m: Memory, l: Memory, t: Table, data: seq<Byte>, i: nat, rest: seq<Byte>)
    requires Disjoint(m, t) && i <= |t| && ScatteredTo(m, l, t, data, i)
    requires Sum(t, i) <= |data| && rest == data[Sum(t, i)..]
    ensures ScatterList(l, t, i, rest).1 == Ok(()) && ScatteredTo(m, ScatterList(l, t, i, rest).0, t, data, |t|)
    decreases |t| - i
  {
    if rest == [] {
      NothingLeft(m, l, t, data, i, |t|);
    } else if i < |t| {
      var take := Min(t[i].len, |rest|);
      var h := Poke(l, t[i].base, rest[..take]);
      TurnWrites(m, l, t, data, i, rest);
      if take == t[i].len {
        ScatterRun(m, h, t, data, i + 1, rest[take..]);
      } else {
        NothingLeft(m, h, t, data, i + 1, |t|);
      }
    }
  }

  // The array in memory is such a table as long as no buffer covers it.

  function TableAt(m: Memory, ptr: nat, n: nat): (t: Table)
    requires forall i :: 0 <= i < n ==> HasEntry(m, ptr, i)
    ensures |t| == n && forall i :: 0 <= i < n ==> t[i] == EntryAt(m, ptr, i)
  {
    if n == 0 then [] else TableAt(m, ptr, n - 1) + [EntryAt(m, ptr, n - 1)]
  }

  lemma {:induction false} SumIsBefore(m: Memory, ptr: nat, n: nat, i: nat)
    requires i <= n && forall k :: 0 <= k < n ==> HasEntry(m, ptr, k)
    ensures Sum(TableAt(m, ptr, n), i) == Before(m, ptr, i)
    decreases i
  {
    if i > 0 { SumIsBefore(m, ptr, n, i - 1); }
  }

  /** The first n buffers are mapped, apart from each other and from the array that describes them. */
  predicate Separate(m: Memory, ptr: nat, n: nat) {
    && (forall i :: 0 <= i < n ==> HasEntry(m, ptr, i))
    && Disjoint(m, TableAt(m, ptr, n))
    && (forall i :: 0 <= i < n ==> Clear(TableAt(m, ptr, n)[i], Iov(ptr, 16 * n)))
  }

  /** Two memories that differ only outside the array describe the same buffers. */
  ghost predicate SameArray(m: Memory, l: Memory, ptr: nat, n: nat) {
    l.Keys == m.Keys && forall a :: ptr <= a < ptr + 16 * n && a in m ==> l[a] == m[a]
  }

  lemma SameEntry(m: Memory, l: Memory, ptr: nat, n: nat, i: nat)
    requires SameArray(m, l, ptr, n) && i < n && HasEntry(m, ptr, i)
    ensures HasEntry(l, ptr, i) && EntryAt(l, ptr, i) == EntryAt(m, ptr, i)
  {
    var a := ptr + 16 * i;
    assert Bytes(l, a, 8) == Bytes(m, a, 8) && Bytes(l, a + 8, 8) == Bytes(m, a + 8, 8);
  }

  lemma SameTable(m: Memory, l: Memory, ptr: nat, n: nat)
    requires SameArray(m, l, ptr, n) && forall i :: 0 <= i < n ==> HasEntry(m, ptr, i)
    ensures forall i :: 0 <= i < n ==> HasEntry(l, ptr, i)
    ensures TableAt(l, ptr, n) == TableAt(m, ptr, n)
  {
    forall i | 0 <= i < n ensures HasEntry(l, ptr, i) && EntryAt(l, ptr, i) == EntryAt(m, ptr, i) {
      SameEntry(m, l, ptr, n, i);
    }
  }

  lemma TurnReady(m: Memory, l: Memory, ptr: nat, i: nat, n: nat, t: Table, rest: seq<Byte>)
    requires Separate(m, ptr, n) && SameArray(m, l, ptr, n) && i < n && t == TableAt(m, ptr, n)
    ensures HasEntry(l, ptr, i) && EntryAt(l, ptr, i) == t[i]
    ensures Mapped(l, t[i].base, Min(t[i].len, |rest|))
    ensures SameArray(m, Poke(l, t[i].base, rest[..Min(t[i].len, |rest|)]), ptr, n)
  {
    SameEntry(m, l, ptr, n, i);
    assert Mapped(m, t[i].base, t[i].len);
  }

  lemma {:induction false} ScatterByTable(m: Memory, l: Memory, ptr: nat, i: nat, n: nat, t: Table, rest: seq<Byte>)
    requires Separate(m, ptr, n) && SameArray(m, l, ptr, n) && i <= n && t == TableAt(m, ptr, n)
    ensures ScatterFrom(l, ptr, i, n, rest) == ScatterList(l, t, i, rest)
    decreases n - i
  {
    if i < n && rest != [] {
      TurnReady(m, l, ptr, i, n, t, rest);
      var h := Poke(l, t[i].base, rest[..Min(t[i].len, |rest|)]);
      ScatterByTable(m, h, ptr, i + 1, n, t, rest[Min(t[i].len, |rest|)..]);
    } else {
    }
  }

  /** No buffer covers the array. */
  predicate ArrayClear(m: Memory, ptr: nat, n: nat) {
    forall k :: 0 <= k < n && HasEntry(m, ptr, k) ==> Clear(EntryAt(m, ptr, k), Iov(ptr, 16 * n))
  }

  /** With `total` bytes to place, some are left for buffer k, and it or its entry is not mapped. */
  predicate Faults(m: Memory, ptr: nat, k: nat, total: nat) {
    Before(m, ptr, k) < total
    && !(HasEntry(m, ptr, k) && Mapped(m, EntryAt(m, ptr, k).base, Min(EntryAt(m, ptr, k).len, total - Before(m, ptr, k))))
  }

  predicate FaultFree(m: Memory, ptr: nat, i: nat, n: nat, total: nat) { forall k :: i <= k < n ==> !Faults(m, ptr, k, total) }

  lemma FaultFreeStep(m: Memory, ptr: nat, i: nat, n: nat, total: nat)
    requires !Faults(m, ptr, i, total) && FaultFree(m, ptr, i + 1, n, total)
    ensures FaultFree(m, ptr, i, n, total)
  {
    forall k | i <= k < n ensures !Faults(m, ptr, k, total) { if k == i {} else {} }
  }

  lemma NothingFaults(m: Memory, ptr: nat, i: nat, n: nat, total: nat)
    requires total <= Before(m, ptr, i)
    ensures FaultFree(m, ptr, i, n, total)
  {
    forall k | i <= k < n ensures !Faults(m, ptr, k, total) { BeforeGrows(m, ptr, i, k); }
  }

  /** The memory after one turn of the loop. */
  function Turned(l: Memory, e: Iov, rest: seq<Byte>): Memory { Poke(l, e.base, rest[..Min(e.len, |rest|)]) }

  /** A turn that meets no fault: the entry is as it was, and the loop goes on with what is left. */
  lemma TurnGoesOn(m: Memory, l: Memory, ptr: nat, i: nat, n: nat, rest: seq<Byte>, total: nat)
    requires SameArray(m, l, ptr, n) && ArrayClear(m, ptr, n) && i < n
    requires |rest| == total - Before(m, ptr, i) > 0 && !Faults(m, ptr, i, total)
    ensures HasEntry(l, ptr, i)
    ensures var e := EntryAt(l, ptr, i);
            var left := rest[Min(e.len, |rest|)..];
            && Mapped(l, e.base, Min(e.len, |rest|)) && SameArray(m, Turned(l, e, rest), ptr, n)
            && |left| == if total > Before(m, ptr, i + 1) then total - Before(m, ptr, i + 1) else 0
  {
    SameEntry(m, l, ptr, n, i);
    var e := EntryAt(l, ptr, i);
  }

  lemma TurnFaults(m: Memory, l: Memory, ptr: nat, i: nat, n: nat, rest: seq<Byte>, total: nat)
    requires SameArray(m, l, ptr, n) && i < n
    requires |rest| == total - Before(m, ptr, i) > 0 && Faults(m, ptr, i, total)
    ensures ScatterFrom(l, ptr, i, n, rest) == (l, Err(FAULT)) && ScatterFrom(l, ptr, i, i, rest) == (l, Ok(()))
  {
    if HasEntry(m, ptr, i) { SameEntry(m, l, ptr, n, i); }
  }

  /** Scattering over the buffers before `at` succeeds, and over all n leaves the same and fails if at < n. */
  predicate StopsAt(l: Memory, ptr: nat, i: nat, at: nat, n: nat, rest: seq<Byte>)
    requires i <= at <= n
  {
    && ScatterFrom(l, ptr, i, at, rest).1 == Ok(())
    && ScatterFrom(l, ptr, i, n, rest) == (ScatterFrom(l, ptr, i, at, rest).0, if at < n then Err(FAULT) else Ok(()))
  }

  /** Where the first fault is, or the end. */
  lemma {:induction false} FaultsFrom(m: Memory, l: Memory, ptr: nat, i: nat, n: nat, rest: seq<Byte>, total: nat) returns (at: nat)
    requires SameArray(m, l, ptr, n) && ArrayClear(m, ptr, n) && i <= n
    requires |rest| == if total > Before(m, ptr, i) then total - Before(m, ptr, i) else 0
    ensures i <= at <= n && FaultFree(m, ptr, i, at, total) && (at < n ==> Faults(m, ptr, at, total))
    ensures StopsAt(l, ptr, i, at, n, rest)
    decreases n - i
  {
    if i == n || rest == [] {
      if i < n { NothingFaults(m, ptr, i, n, total); }
      at := n;
    } else if Faults(m, ptr, i, total) {
      TurnFaults(m, l, ptr, i, n, rest, total);
      at := i;
    } else {
      TurnGoesOn(m, l, ptr, i, n, rest, total);
      var e := EntryAt(l, ptr, i);
      at := FaultsFrom(m, Turned(l, e, rest), ptr, i + 1, n, rest[Min(e.len, |rest|)..], total);
      FaultFreeStep(m, ptr, i, at, total);
    }
  }

  /** As long as no buffer covers the array, scattering fails exactly if data is left for a buffer that is not
      mapped as far as it is needed, or whose entry is not; the buffers before the first such one are filled. */
  lemma ScatterFaultsExact(m: Memory, ptr: nat, n: nat, data: seq<Byte>)
    requires ArrayClear(m, ptr, n)
    ensures var (g, r) := ScatterFrom(m, ptr, 0, n, data);
            && (r.Err? <==> exists k :: 0 <= k < n && Faults(m, ptr, k, |data|))
            && (r.Err? ==> r == Err(FAULT))
            && (r.Err? ==> exists k :: 0 <= k < n && Faults(m, ptr, k, |data|) && FaultFree(m, ptr, 0, k, |data|)
                                       && ScatterFrom(m, ptr, 0, k, data) == (g, Ok(())))
  {
    var at := FaultsFrom(m, m, ptr, 0, n, data, |data|);
  }

  /** Over separate buffers, scattering succeeds, puts the data into them in order, as far as they
      reach, and touches nothing else. */
  lemma ScatterExact(m: Memory, ptr: nat, n: nat, data: seq<Byte>)
    requires Separate(m, ptr, n)
    ensures var (g, r) := ScatterFrom(m, ptr, 0, n, data);
            var t := TableAt(m, ptr, n);
            && r == Ok(()) && ScatteredTo(m, g, t, data, n) && g.Keys == m.Keys
            && (forall i, a :: 0 <= i < n && a in m && In(t, i, a) ==> g[a] == Landed(m, t, data, i, a))
            && (forall a :: a in m && (forall i :: 0 <= i < n ==> !In(t, i, a)) ==> g[a] == m[a])
  {
    var (g, t) := (ScatterFrom(m, ptr, 0, n, data).0, TableAt(m, ptr, n));
    ScatterByTable(m, m, ptr, 0, n, t, data);
    ScatterRun(m, m, t, data, 0, data);
    forall i, a | 0 <= i < n && a in m && In(t, i, a) ensures g[a] == Landed(m, t, data, i, a) {
      ExpectedInside(m, t, data, i, n, a);
    }
    forall a | a in m && (forall i :: 0 <= i < n ==> !In(t, i, a)) ensures g[a] == m[a] {
      ExpectedOutside(m, t, data, n, a);
    }
  }

  /** So the array itself still describes the same buffers. */
  lemma ScatterKeepsTable(m: Memory, ptr: nat, n: nat, data: seq<Byte>)
    requires Separate(m, ptr, n)
    ensures var g := ScatterFrom(m, ptr, 0, n, data).0;
            && (forall i :: 0 <= i < n ==> HasEntry(g, ptr, i)) && TableAt(g, ptr, n) == TableAt(m, ptr, n)
            && g.Keys == m.Keys
  {
    var g := ScatterFrom(m, ptr, 0, n, data).0;
    ScatterExact(m, ptr, n, data);
    SameTable(m, g, ptr, n);
  }

  // ---------------------------------------------------------------- gather after scatter

  /** What the buffers of a table hold. */
  function Contents(m: Memory, t: Table): (cs: seq<seq<Byte>>)
    requires forall k :: 0 <= k < |t| ==> Mapped(m, t[k].base, t[k].len)
    ensures |cs| == |t| && forall k :: 0 <= k < |t| ==> |cs[k]| == t[k].len
  {
    seq(|t|, k requires 0 <= k < |t| && Mapped(m, t[k].base, t[k].len) => Bytes(m, t[k].base, t[k].len))
  }

  lemma {:induction false} ConcatLength(cs: seq<seq<Byte>>, t: Table, i: nat)
    requires i <= |t| == |cs| && forall k :: 0 <= k < |t| ==> |cs[k]| == t[k].len
    ensures |Concat(cs, i)| == Sum(t, i)
    decreases i
  {
    if i > 0 { ConcatLength(cs, t, i - 1); }
  }

  /** data written over the start of s, as far as s reaches. */
  function Overlay(s: seq<Byte>, data: seq<Byte>): (o: seq<Byte>)
    ensures |o| == |s|
  {
    if |data| >= |s| then data[..|s|] else data + s[|data|..]
  }

  function From(data: seq<Byte>, i: nat): seq<Byte> { if i <= |data| then data[i..] else [] }

  lemma OverlayAppend(s: seq<Byte>, u: seq<Byte>, data: seq<Byte>)
    ensures Overlay(s + u, data) == Overlay(s, data) + Overlay(u, From(data, |s|))
  {
    var (x, y) := (Overlay(s + u, data), Overlay(s, data) + Overlay(u, From(data, |s|)));
    assert |x| == |y|;
    forall k | 0 <= k < |x| ensures x[k] == y[k] {}
  }

  lemma BufferByte(m: Memory, g: Memory, base: nat, len: nat, data: seq<Byte>, b: nat, k: nat)
    requires Mapped(m, base, len) && Mapped(g, base, len) && k < len
    requires g[base + k] == if b + k < |data| then data[b + k] else m[base + k]
    ensures Bytes(g, base, len)[k] == Overlay(Bytes(m, base, len), From(data, b))[k]
  {
  }

  lemma BufferByteAfter(m: Memory, g: Memory, t: Table, data: seq<Byte>, i: nat, k: nat)
    requires Disjoint(m, t) && i < |t| && k < t[i].len
    requires Mapped(m, t[i].base, t[i].len) && Mapped(g, t[i].base, t[i].len)
    requires g[t[i].base + k] == Expected(m, t, data, |t|, t[i].base + k)
    ensures Bytes(g, t[i].base, t[i].len)[k] == Overlay(Bytes(m, t[i].base, t[i].len), From(data, Sum(t, i)))[k]
  {
    ExpectedInside(m, t, data, i, |t|, t[i].base + k);
    BufferByte(m, g, t[i].base, t[i].len, data, Sum(t, i), k);
  }

  lemma BufferAfter(m: Memory, g: Memory, t: Table, data: seq<Byte>, i: nat)
    requires Disjoint(m, t) && i < |t| && ScatteredTo(m, g, t, data, |t|)
    ensures Mapped(m, t[i].base, t[i].len) && Mapped(g, t[i].base, t[i].len)
    ensures Bytes(g, t[i].base, t[i].len) == Overlay(Bytes(m, t[i].base, t[i].len), From(data, Sum(t, i)))
  {
    var (x, y) := (Bytes(g, t[i].base, t[i].len), Overlay(Bytes(m, t[i].base, t[i].len), From(data, Sum(t, i))));
    forall k: nat | k < t[i].len ensures x[k] == y[k] {
      assert t[i].base + k in m;
      BufferByteAfter(m, g, t, data, i, k);
    }
  }

  predicate OverlaidAt(cs: seq<seq<Byte>>, ds: seq<seq<Byte>>, data: seq<Byte>, k: nat)
    requires k < |cs| == |ds|
  {
    ds[k] == Overlay(cs[k], From(data, |Concat(cs, k)|))
  }

  /** Writing data over each piece in turn is writing it over the whole. */
  lemma {:induction false} ConcatOverlay(cs: seq<seq<Byte>>, ds: seq<seq<Byte>>, data: seq<Byte>, i: nat)
    requires i <= |cs| == |ds| && forall k :: 0 <= k < i ==> OverlaidAt(cs, ds, data, k)
    ensures Concat(ds, i) == Overlay(Concat(cs, i), data)
    decreases i
  {
    if i > 0 {
      ConcatOverlay(cs, ds, data, i - 1);
      assert OverlaidAt(cs, ds, data, i - 1);
      OverlayAppend(Concat(cs, i - 1), cs[i - 1], data);
    }
  }

  /** Joining the buffers after a scatter gives the data, then what the buffers held beyond it. */
  lemma ContentsAfter(m: Memory, g: Memory, t: Table, data: seq<Byte>)
    requires Disjoint(m, t) && ScatteredTo(m, g, t, data, |t|)
    ensures forall k :: 0 <= k < |t| ==> Mapped(m, t[k].base, t[k].len) && Mapped(g, t[k].base, t[k].len)
    ensures Concat(Contents(g, t), |t|) == Overlay(Concat(Contents(m, t), |t|), data)
  {
    forall k | 0 <= k < |t| ensures Mapped(g, t[k].base, t[k].len) { BufferAfter(m, g, t, data, k); }
    var (cs, ds) := (Contents(m, t), Contents(g, t));
    forall k: nat | k < |t| ensures OverlaidAt(cs, ds, data, k) {
      BufferAfter(m, g, t, data, k);
      ConcatLength(cs, t, k);
      assert cs[k] == Bytes(m, t[k].base, t[k].len) && ds[k] == Bytes(g, t[k].base, t[k].len);
    }
    ConcatOverlay(cs, ds, data, |t|);
  }

  /** The buffers of the array are those of the table. */
  lemma BuffersAre(m: Memory, g: Memory, ptr: nat, n: nat)
    requires Separate(m, ptr, n) && g.Keys == m.Keys
    requires (forall k :: 0 <= k < n ==> HasEntry(g, ptr, k)) && TableAt(g, ptr, n) == TableAt(m, ptr, n)
    requires forall k :: 0 <= k < n ==> Mapped(g, TableAt(m, ptr, n)[k].base, TableAt(m, ptr, n)[k].len)
    ensures forall k :: 0 <= k < n ==> Whole(g, ptr, k)
    ensures Joined(g, ptr, n) == Concat(Contents(g, TableAt(m, ptr, n)), n)
  {
    var t := TableAt(m, ptr, n);
    var cs := Contents(g, t);
    forall k: nat | k < n ensures IsBuffer(g, ptr, cs, k) {}
    JoinedIsConcat(g, ptr, n, cs);
  }

  /** What is joined after a scatter. */
  lemma ScatterJoined(m: Memory, ptr: nat, n: nat, data: seq<Byte>) returns (was: seq<Byte>)
    requires Separate(m, ptr, n)
    ensures var g := ScatterFrom(m, ptr, 0, n, data).0;
            && (forall i :: 0 <= i < n ==> Whole(g, ptr, i))
            && Joined(g, ptr, n) == Overlay(was, data) && |was| == Before(m, ptr, n)
  {
    var (g, t) := (ScatterFrom(m, ptr, 0, n, data).0, TableAt(m, ptr, n));
    ScatterExact(m, ptr, n, data);
    ScatterKeepsTable(m, ptr, n, data);
    ContentsAfter(m, g, t, data);
    BuffersAre(m, g, ptr, n);
    was := Concat(Contents(m, t), n);
    ConcatLength(Contents(m, t), t, n);
    SumIsBefore(m, ptr, n, n);
  }

  /** Gathering what was scattered gives back the data exactly when it fills the buffers to the cap. */
  lemma ScatterGather(m: Memory, ptr: nat, n: nat, data: seq<Byte>)
    requires Separate(m, ptr, n)
    ensures var g := ScatterFrom(m, ptr, 0, n, data).0;
            && (forall i :: 0 <= i < n ==> Fits(g, ptr, i))
            && (Gathered(g, ptr, n) == data <==> |data| == Min(Before(m, ptr, n), 131072))
  {
    var g := ScatterFrom(m, ptr, 0, n, data).0;
    var was := ScatterJoined(m, ptr, n, data);
    GatheredIsPrefix(g, ptr, n);
  }

  class GuestMem {
    var bytes: Memory

    method ReadBytes(a: nat, n: nat) returns (r: Result<seq<Byte>>)
      ensures r == if Mapped(bytes, a, n) then Ok(Bytes(bytes, a, n)) else Err(FAULT)
    {
      if forall k :: a <= k < a + n ==> k in bytes {
        return Ok(Bytes(bytes, a, n));
      }
      return Err(FAULT);
    }

    method WriteBytes(a: nat, data: seq<Byte>) returns (r: Result<()>)
      modifies this
      ensures r == if Mapped(old(bytes), a, |data|) then Ok(()) else Err(FAULT)
      ensures bytes == if r.Ok? then Poke(old(bytes), a, data) else old(bytes)
    {
      if forall k :: a <= k < a + |data| ==> k in bytes {
        bytes := Poke(bytes, a, data);
        return Ok(());
      }
      return Err(FAULT);
    }

    /** read_val of a u64. */
    method ReadWord(a: nat) returns (r: Result<nat>)
      ensures r == if Mapped(bytes, a, 8) then Ok(WordAt(bytes, a)) else Err(FAULT)
    {
      if forall k :: a <= k < a + 8 ==> k in bytes { return Ok(WordAt(bytes, a)); }
      return Err(FAULT);
    }

    method ReadEntry(ptr: nat, i: nat) returns (r: Result<Iov>)
      ensures r == if HasEntry(bytes, ptr, i) then Ok(EntryAt(bytes, ptr, i)) else Err(FAULT)
    {
      var a := ptr + 16 * i;
      assert HasEntry(bytes, ptr, i) <==> Mapped(bytes, a, 8) && Mapped(bytes, a + 8, 8);
      var base := ReadWord(a);
      if base.Err? { return Err(FAULT); }
      var len := ReadWord(a + 8);
      if len.Err? { return Err(FAULT); }
      return Ok(Iov(base.value, len.value));
    }

    /** gather_iovecs, and the loop of writev: it fails exactly when an entry it reaches, or the part
        of that entry's buffer under the cap, is not mapped; the room left never goes below zero. */
    method GatherIovecs(ptr: nat, iovcnt: nat) returns (r: Result<seq<Byte>>)
      ensures r.Err? <==> exists i :: 0 <= i < Min(iovcnt, 16) && (i > 0 ==> Before(bytes, ptr, i - 1) < 131072)
                                      && !EntryReads(bytes, ptr, i)
      ensures r.Err? ==> r.errno == FAULT
      ensures r.Ok? ==> (forall i :: 0 <= i < Min(iovcnt, 16) ==> Fits(bytes, ptr, i))
                        && r.value == Gathered(bytes, ptr, Min(iovcnt, 16))
    {
      var out := [];
      var n := Min(iovcnt, MAX_IOV);
      for i := 0 to n
        invariant ReadsTo(bytes, ptr, i)
        invariant forall k :: 0 <= k < i ==> Fits(bytes, ptr, k)
        invariant Reached(bytes, ptr, i)
        invariant out == Gathered(bytes, ptr, i)
      {
        var entry := ReadEntry(ptr, i);
        if entry.Err? {
          assert !EntryReads(bytes, ptr, i);
          return Err(FAULT);
        }
        var remaining: nat := IO_CHUNK - |out|;
        if remaining == 0 {
          CapStops(bytes, ptr, i, n);
          return Ok(out);
        }
        var take := Min(entry.value.len, remaining);
        var chunk := ReadBytes(entry.value.base, take);
        if chunk.Err? {
          assert !EntryReads(bytes, ptr, i);
          return Err(FAULT);
        }
        ReadsOne(bytes, ptr, i);
        out := out + chunk.value;
      }
      return Ok(out);
    }

    /** scatter_iovecs. */
    method ScatterIovecs(ptr: nat, iovcnt: nat, data: seq<Byte>) returns (r: Result<()>)
      modifies this
      ensures (bytes, r) == ScatterFrom(old(bytes), ptr, 0, Min(iovcnt, 16), data)
    {
      var rest := data;
      var n := Min(iovcnt, MAX_IOV);
      for i := 0 to n
        invariant ScatterFrom(bytes, ptr, i, n, rest) == ScatterFrom(old(bytes), ptr, 0, n, data)
      {
        if rest == [] { return Ok(()); }
        var entry := ReadEntry(ptr, i);
        if entry.Err? { return Err(FAULT); }
        var take := Min(entry.value.len, |rest|);
        var wrote := WriteBytes(entry.value.base, rest[..take]);
        if wrote.Err? { return Err(FAULT); }
        rest := rest[take..];
      }
      return Ok(());
    }
  }
}
