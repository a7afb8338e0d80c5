/** One codec for which the laws assumed in `Archive.Faithful` hold, so that what is proved under them is
    about something: every byte behind a mark, and a mark for the end. */
module SampleCodec {
  import opened FileData
  import opened Results
  import opened Archive

  /** Bytes that say where they end. */
  function Marked(b: Bytes): Bytes { if b == [] then [3, 0] else [1, b[0]] + Marked(b[1..]) }

  function Unmarked(s: Bytes): Option<(Bytes, nat)> {
    if |s| < 2 then None
    else if s[..2] == [3, 0] then Some(([], 2))
    else if s[0] != 1 then None
    else
      match Unmarked(s[2..])
      case None => None
      case Some((b, n)) => Some(([s[1]] + b, n + 2))
  }

  lemma Associative(a: Bytes, b: Bytes, c: Bytes)
    ensures a + b + c == a + (b + c)
  {
  }

  lemma {:induction false} MarkedReads(b: Bytes, rest: Bytes)
    ensures Unmarked(Marked(b) + rest) == Some((b, |Marked(b)|))
    decreases |b|
  {
    if b == [] {
      assert ([3, 0] + rest)[..2] == [3, 0];
    } else {
      MarkedReads(b[1..], rest);
      Associative([1, b[0]], Marked(b[1..]), rest);
      assert [b[0]] + b[1..] == b;
    }
  }

  /** A character as three bytes. */
  function Wide(path: string): Bytes {
    if path == "" then []
    else
      var c := path[0] as int;
      [c % 256, c / 256 % 256, c / 65536] + Wide(path[1..])
  }

  function Character(low: Byte, mid: Byte, high: Byte): char {
    var c := low + 256 * (mid as int) + 65536 * (high as int);
    if 0 <= c < 0xD800 || 0xE000 <= c < 0x11_0000 then c as char else ' '
  }

  function Narrow(s: Bytes): string {
    if |s| < 3 then "" else [Character(s[0], s[1], s[2])] + Narrow(s[3..])
  }

  lemma CharacterReads(c: char)
    ensures var n := c as int; 0 <= n / 65536 < 256 && Character(n % 256, n / 256 % 256, n / 65536) == c
  {
    var n := c as int;
    assert n / 256 / 256 == n / 65536;
    assert n == n % 256 + 256 * (n / 256) && n / 256 == n / 256 % 256 + 256 * (n / 256 / 256);
  }

  lemma {:induction false} WideReads(path: string)
    ensures Narrow(Wide(path)) == path
    decreases |path|
  {
    if path != "" {
      CharacterReads(path[0]);
      WideReads(path[1..]);
      var s := Wide(path);
      assert s[3..] == Wide(path[1..]);
      assert [path[0]] + path[1..] == path;
    }
  }

  /** The bytes after the name. */
  function Tail(body: Option<Bytes>): Bytes { match body case None => [2] case Some(b) => [1] + Marked(b) }

  /** An entry's path, then whether it has a body, then the body. */
  function Blocked(x: Entry): Bytes { Marked(Wide(x.path)) + Tail(x.body) }

  function WithoutBody(name: Bytes, n: nat): (Entry, nat) { (Entry(Narrow(name), None), n + 1) }

  function WithBody(name: Bytes, n: nat, body: Bytes, m: nat): (Entry, nat) {
    (Entry(Narrow(name), Some(body)), n + 1 + m)
  }

  /** What follows a name of n bytes. */
  function BodyAfter(name: Bytes, n: nat, s: Bytes): Option<(Entry, nat)> {
    if s == [] then None
    else if s[0] == 2 then Some(WithoutBody(name, n))
    else
      match Unmarked(s[1..])
      case None => None
      case Some((body, m)) => Some(WithBody(name, n, body, m))
  }

  function Unblocked(s: Bytes): Option<(Entry, nat)> {
    match Unmarked(s)
    case None => None
    case Some((name, n)) => if n > |s| then None else BodyAfter(name, n, s[n..])
  }

  lemma UnblockedAfter(name: Bytes, rest: Bytes)
    ensures Unblocked(Marked(name) + rest) == BodyAfter(name, |Marked(name)|, rest)
  {
    MarkedReads(name, rest);
    assert (Marked(name) + rest)[|Marked(name)|..] == rest;
  }

  lemma BodyReads(name: Bytes, n: nat, body: Bytes, rest: Bytes)
    ensures BodyAfter(name, n, [1] + (Marked(body) + rest)) == Some(WithBody(name, n, body, |Marked(body)|))
  {
    MarkedReads(body, rest);
    assert ([1] + (Marked(body) + rest))[1..] == Marked(body) + rest;
  }

  lemma NameKept(path: string, n: nat, body: Bytes, m: nat)
    ensures WithBody(Wide(path), n, body, m) == (Entry(path, Some(body)), n + 1 + m)
    ensures WithoutBody(Wide(path), n) == (Entry(path, None), n + 1)
  {
    WideReads(path);
  }

  lemma TailReads(x: Entry, n: nat, rest: Bytes)
    ensures BodyAfter(Wide(x.path), n, Tail(x.body) + rest) == Some((x, n + |Tail(x.body)|))
  {
    match x.body
    case None =>
      NameKept(x.path, n, [], 0);
      assert ([2] + rest)[0] == 2;
    case Some(body) =>
      NameKept(x.path, n, body, |Marked(body)|);
      Associative([1], Marked(body), rest);
      BodyReads(Wide(x.path), n, body, rest);
  }

  lemma BlockedReads(x: Entry, rest: Bytes)
    ensures Unblocked(Blocked(x) + rest) == Some((x, |Blocked(x)|))
  {
    Associative(Marked(Wide(x.path)), Tail(x.body), rest);
    UnblockedAfter(Wide(x.path), Tail(x.body) + rest);
    TailReads(x, |Marked(Wide(x.path))|, rest);
  }

  lemma BlockedStarts(x: Entry, rest: Bytes)
    ensures !AtEnd(Blocked(x) + rest)
  {
    var s := Blocked(x) + rest;
    assert Marked(Wide(x.path))[0] != 0;
    assert s[0] == Marked(Wide(x.path))[0];
  }

  function Sample(): Codec {
    Codec(b => Marked(b), s => Unmarked(s), b => 0, b => b, b => Some(b), x => Blocked(x), s => Unblocked(s), t => [])
  }

  lemma SampleIsFaithful()
    ensures Faithful(Sample())
  {
    var c := Sample();
    forall b, rest ensures c.inflate(c.deflate(b) + rest) == Some((b, |c.deflate(b)|)) { MarkedReads(b, rest); }
    forall rest: Bytes ensures c.inflate([3, 0] + rest) == Some(([], 2)) { assert ([3, 0] + rest)[..2] == [3, 0]; }
    forall x, rest ensures c.readEntry(c.blocks(x) + rest) == Some((x, |c.blocks(x)|)) { BlockedReads(x, rest); }
    forall x, rest ensures !AtEnd(c.blocks(x) + rest) { BlockedStarts(x, rest); }
  }
}
