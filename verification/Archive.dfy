/** Archives of a directory: the four formats, and the eStargz layout of one gzip member an entry
    (RFC 1952), a table of contents, and a footer that points at it.

    The tar builder follows symbolic links: it stores what a link leads to, and fails on one that leads
    nowhere. Deflate, CRC-32, zstd, the tar encoding of one stored entry and the JSON text are
    parameters; what is assumed of them is `Faithful`. */
module Archive {
  import opened FileData
  import opened Results

  type Bytes = seq<Byte>

  datatype Content = Dir | File(bytes: Bytes) | Link(target: string, leads: Leads)

  /** One walked node, by its path relative to the packed directory. */
  datatype Item = Item(path: string, content: Content)

  /** One tar entry: a file's bytes, or none for a directory. */
  datatype Entry = Entry(path: string, body: Option<Bytes>)

  datatype Format = Gzip | Zstd | Estargz | Plain

  datatype TocEntry = TocEntry(name: string, offset: nat)

  datatype Codec = Codec(
    deflate: Bytes -> Bytes,
    inflate: Bytes -> Option<(Bytes, nat)>,
    crc: Bytes -> nat,
    zstd: Bytes -> Bytes,
    unzstd: Bytes -> Option<Bytes>,
    blocks: Entry -> Bytes,
    readEntry: Bytes -> Option<(Entry, nat)>,
    json: seq<TocEntry> -> Bytes)

  const TOC_NAME := "stargz.index.json"
  const END_MARK: nat := 1024

  function Zeros(n: nat): Bytes { seq(n, i requires 0 <= i < n => 0) }

  const NO_TRAILER: Bytes := [0, 0, 0, 0, 0, 0, 0, 0]

  /** A zero block where a header would be ends a tar stream. */
  predicate AtEnd(s: Bytes) { |s| == 0 || (|s| >= 512 && forall i :: 0 <= i < 512 ==> s[i] == 0) }

  /** The coders are inverse on what follows them; the empty fixed block of RFC 1951 holds nothing. */
  ghost predicate Faithful(c: Codec) {
    && (forall b, rest :: c.inflate(c.deflate(b) + rest) == Some((b, |c.deflate(b)|)))
    && (forall rest :: c.inflate([3, 0] + rest) == Some(([], 2)))
    && c.crc([]) == 0
    && (forall b :: c.unzstd(c.zstd(b)) == Some(b))
    && (forall x, rest :: c.readEntry(c.blocks(x) + rest) == Some((x, |c.blocks(x)|)))
    && (forall x, rest :: !AtEnd(c.blocks(x) + rest))
  }

  // ---------------------------------------------------------------- gzip members (RFC 1952, section 2.3)

  function Le16(n: nat): Bytes { [n % 256, n / 256 % 256] }

  function Le32(n: nat): Bytes { Le16(n) + Le16(n / 65536) }

  function FromLe16(s: Bytes): nat
    requires |s| == 2
  {
    (s[0] as nat) + 256 * (s[1] as nat)
  }

  lemma TwoBytes(s: Bytes, low: Byte, high: Byte)
    requires s == [low, high]
    ensures FromLe16(s) == (low as nat) + 256 * (high as nat)
  {
    assert s[0] == low && s[1] == high;
  }

  const HEADER: Bytes := [0x1f, 0x8b, 0x08, 0, 0, 0, 0, 0, 0, 0xff]
  const FEXTRA := 4

  function Member(c: Codec, blob: Bytes): Bytes {
    HEADER + c.deflate(blob) + Le32(c.crc(blob)) + Le32(|blob|)
  }

  lemma Split16(n: nat, q: nat, r: nat)
    requires n == 65536 * q + r && r < 65536
    ensures n % 65536 == r
  {
  }

  lemma Split32(n: nat, q: nat, r: nat)
    requires n == 0x1_0000_0000 * q + r && r < 0x1_0000_0000
    ensures n % 0x1_0000_0000 == r
  {
  }

  /** The low half words and bytes of a number add up. */
  lemma LowParts(n: nat)
    ensures n % 65536 == n % 256 + 256 * (n / 256 % 256)
    ensures n % 0x1_0000_0000 == n % 65536 + 65536 * (n / 65536 % 65536)
  {
    var (b, h) := (n / 256, n / 65536);
    assert n == 256 * b + n % 256 && b == 256 * (b / 256) + b % 256;
    Split16(n, b / 256, n % 256 + 256 * (b % 256));
    assert n == 65536 * h + n % 65536 && h == 65536 * (h / 65536) + h % 65536;
    Split32(n, h / 65536, n % 65536 + 65536 * (h % 65536));
  }

  lemma Le16Reads(n: nat)
    ensures FromLe16(Le16(n)) == n % 65536
  {
    LowParts(n);
    TwoBytes(Le16(n), n % 256, n / 256 % 256);
  }

  lemma Le32Reads(n: nat)
    ensures FromLe16(Le32(n)[..2]) + 65536 * FromLe16(Le32(n)[2..]) == n % 0x1_0000_0000
  {
    assert Le32(n)[..2] == Le16(n) && Le32(n)[2..] == Le16(n / 65536);
    Le16Reads(n);
    Le16Reads(n / 65536);
    LowParts(n);
  }

  /** A member ends with its content's CRC-32 and length, 32 bits each, low byte first. */
  lemma TrailerExact(c: Codec, blob: Bytes)
    ensures var m := Member(c, blob);
            var t := m[|m| - 8..];
            && FromLe16(t[0..2]) + 65536 * FromLe16(t[2..4]) == c.crc(blob) % 0x1_0000_0000
            && FromLe16(t[4..6]) + 65536 * FromLe16(t[6..8]) == |blob| % 0x1_0000_0000
  {
    var (m, crc, len) := (Member(c, blob), Le32(c.crc(blob)), Le32(|blob|));
    assert m[|m| - 8..] == crc + len;
    var t := crc + len;
    assert t[0..2] == crc[..2] && t[2..4] == crc[2..] && t[4..6] == len[..2] && t[6..8] == len[2..];
    Le32Reads(c.crc(blob));
    Le32Reads(|blob|);
  }

  /** Where the compressed data of a member starts; members with a name, comment or header CRC are
      not ones this program writes. */
  function DataStart(s: Bytes): Option<nat> {
    if |s| < 10 || s[..3] != HEADER[..3] then None
    else if s[3] == 0 then Some(10)
    else if s[3] != FEXTRA || |s| < 12 || 12 + FromLe16(s[10..12]) > |s| then None
    else Some(12 + FromLe16(s[10..12]))
  }

  /** Decode the member at the front: its content and its length. */
  function ReadMember(c: Codec, s: Bytes): (r: Option<(Bytes, nat)>)
    ensures r.Some? ==> 0 < r.value.1 <= |s|
  {
    match DataStart(s)
    case None => None
    case Some(start) =>
      match c.inflate(s[start..])
      case None => None
      case Some((blob, n)) =>
        var end := start + n;
        if end + 8 <= |s| && s[end..end + 8] == Le32(c.crc(blob)) + Le32(|blob|) then Some((blob, end + 8)) else None
  }

  /** A multi-member decoder (RFC 1952, section 2.2): the members' contents in order. */
  function ReadAll(c: Codec, s: Bytes): Option<Bytes>
    decreases |s|
  {
    if s == [] then Some([])
    else
      match ReadMember(c, s)
      case None => None
      case Some((blob, n)) =>
        Prepend(blob, ReadAll(c, s[n..]))
  }

  function Prepend(b: Bytes, more: Option<Bytes>): Option<Bytes> {
    match more
    case None => None
    case Some(rest) => Some(b + rest)
  }

  lemma PrependTwice(a: Bytes, b: Bytes, more: Option<Bytes>)
    ensures Prepend(a, Prepend(b, more)) == Prepend(a + b, more)
  {
    if more.Some? { assert a + (b + more.value) == a + b + more.value; }
  }

  lemma PrependNothing(more: Option<Bytes>)
    ensures Prepend([], more) == more
  {
    if more.Some? { assert [] + more.value == more.value; }
  }

  /** A part of a concatenation, and what follows it. */
  lemma Middle(a: Bytes, b: Bytes, rest: Bytes)
    ensures (a + (b + rest))[|a|..] == b + rest
    ensures (a + (b + rest))[|a|..|a| + |b|] == b
  {
  }

  lemma MemberRegrouped(c: Codec, blob: Bytes, rest: Bytes)
    ensures var (data, tail) := (c.deflate(blob), Le32(c.crc(blob)) + Le32(|blob|));
            && Member(c, blob) + rest == HEADER + (data + (tail + rest))
            && Member(c, blob) + rest == (HEADER + data) + (tail + rest)
            && |Member(c, blob)| == 10 + |data| + 8
  {
  }

  lemma HeaderStarts(more: Bytes)
    ensures DataStart(HEADER + more) == Some(10)
  {
    assert (HEADER + more)[..3] == HEADER[..3] && (HEADER + more)[3] == 0;
  }

  lemma ReadOne(c: Codec, blob: Bytes, rest: Bytes)
    requires Faithful(c)
    ensures ReadMember(c, Member(c, blob) + rest) == Some((blob, |Member(c, blob)|))
  {
    var (data, tail) := (c.deflate(blob), Le32(c.crc(blob)) + Le32(|blob|));
    MemberRegrouped(c, blob, rest);
    HeaderStarts(data + (tail + rest));
    Middle(HEADER, data, tail + rest);
    Middle(HEADER + data, tail, rest);
  }

  lemma ReadNext(c: Codec, blob: Bytes, rest: Bytes)
    requires Faithful(c)
    ensures ReadAll(c, Member(c, blob) + rest) == Prepend(blob, ReadAll(c, rest))
  {
    ReadOne(c, blob, rest);
    assert (Member(c, blob) + rest)[|Member(c, blob)|..] == rest;
  }

  // ---------------------------------------------------------------- the footer

  const SUFFIX: Bytes := [83, 84, 65, 82, 71, 90]  // "STARGZ"

  function HexDigit(d: nat): Byte
    requires d < 16
  {
    if d < 10 then 48 + d else 87 + d
  }

  function HexValue(b: Byte): Option<nat> {
    if 48 <= b <= 57 then Some(b - 48) else if 97 <= b <= 102 then Some(b - 87) else None
  }

  /** The low k hexadecimal digits of n, highest first. */
  function Hex(n: nat, k: nat): (s: Bytes)
    ensures |s| == k
  {
    if k == 0 then [] else Hex(n / 16, k - 1) + [HexDigit(n % 16)]
  }

  function ParseHex(s: Bytes): Option<nat> {
    if s == [] then Some(0)
    else
      match (ParseHex(s[..|s| - 1]), HexValue(s[|s| - 1]))
      case (Some(high), Some(d)) => Some(16 * high + d)
      case _ => None
  }

  function Pow16(k: nat): nat { if k == 0 then 1 else 16 * Pow16(k - 1) }

  lemma {:induction false} HexRoundTrip(n: nat, k: nat)
    requires n < Pow16(k)
    ensures ParseHex(Hex(n, k)) == Some(n)
    decreases k
  {
    if k > 0 {
      assert n / 16 < Pow16(k - 1);
      HexRoundTrip(n / 16, k - 1);
      var s := Hex(n, k);
      assert s[..|s| - 1] == Hex(n / 16, k - 1);
    }
  }

  /** estargz_footer, built step by step. */
  method EstargzFooter(tocOffset: nat) returns (m: Bytes)
    ensures m == Footer(tocOffset)
  {
    var payload := Hex(tocOffset, 16) + SUFFIX;
    var extra := [83, 71];
    extra := extra + Le16(|payload|);
    extra := extra + payload;
    m := [0x1f, 0x8b, 0x08, 0x04, 0, 0, 0, 0, 0x00, 0xff];
    m := m + Le16(|extra|);
    m := m + extra;
    m := m + [0x03, 0x00];
    m := m + [0, 0, 0, 0];
    m := m + [0, 0, 0, 0];
    FooterBytes(tocOffset);
    assert m == Footer(tocOffset);
  }

  /** The footer: a member with an extra field "SG" of 22 bytes and no content. */
  function Footer(tocOffset: nat): Bytes {
    FooterHead() + Hex(tocOffset, 16) + SUFFIX + [3, 0] + NO_TRAILER
  }

  function FooterHead(): Bytes { [0x1f, 0x8b, 0x08, FEXTRA, 0, 0, 0, 0, 0, 0xff, 26, 0, 83, 71, 22, 0] }

  lemma FooterBytes(tocOffset: nat)
    ensures |Footer(tocOffset)| == 48
    ensures Footer(tocOffset) == FooterHead() + (Hex(tocOffset, 16) + SUFFIX) + [3, 0] + [0, 0, 0, 0] + [0, 0, 0, 0]
  {
    assert NO_TRAILER == [0, 0, 0, 0] + [0, 0, 0, 0];
  }

  /** A reader of the footer: the "SG" subfield of the extra field of section 2.3.1.1, its hexadecimal part. */
  function ReadTocOffset(s: Bytes): Option<nat> {
    if DataStart(s) != Some(38) || s[3] != FEXTRA || s[12..14] != [83, 71] || FromLe16(s[14..16]) != 22 then None
    else if s[32..38] != SUFFIX then None
    else ParseHex(s[16..32])
  }

  /** Where the parts of the footer lie. */
  lemma FooterParts(tocOffset: nat)
    ensures var f := Footer(tocOffset);
            && |f| == 48 && f[..16] == FooterHead() && f[16..32] == Hex(tocOffset, 16)
            && f[32..38] == SUFFIX && f[38..40] == [3, 0] && f[40..] == NO_TRAILER
  {
    var (head, hex, end) := (FooterHead(), Hex(tocOffset, 16), [3, 0]);
    assert Footer(tocOffset) == head + hex + SUFFIX + end + NO_TRAILER;
    FiveParts(head, hex, SUFFIX, end, NO_TRAILER);
  }

  lemma FiveParts(a: Bytes, b: Bytes, d: Bytes, e: Bytes, f: Bytes)
    requires |a| == 16 && |b| == 16 && |d| == 6 && |e| == 2
    ensures var s := a + b + d + e + f;
            s[..16] == a && s[16..32] == b && s[32..38] == d && s[38..40] == e && s[40..] == f
  {
  }

  /** What the head of the footer announces. */
  lemma HeadAnnounces(s: Bytes)
    requires |s| == 48 && s[..16] == FooterHead()
    ensures DataStart(s) == Some(38) && s[3] == FEXTRA && s[12..14] == [83, 71] && FromLe16(s[14..16]) == 22
  {
    var h := FooterHead();
    forall i | 0 <= i < 16 ensures s[i] == h[i] { assert s[i] == s[..16][i]; }
    assert s[..3] == HEADER[..3];
    assert s[10..12] == [26, 0] && s[14..16] == [22, 0];
    TwoBytes(s[10..12], 26, 0);
    TwoBytes(s[14..16], 22, 0);
  }

  /** The footer is always 48 bytes, and gives back the offset for every 64-bit number. */
  lemma FooterExact(tocOffset: nat)
    requires tocOffset < 0x1_0000_0000_0000_0000
    ensures |Footer(tocOffset)| == 48
    ensures ReadTocOffset(Footer(tocOffset)) == Some(tocOffset)
  {
    FooterParts(tocOffset);
    HeadAnnounces(Footer(tocOffset));
    Pow16Of16();
    HexRoundTrip(tocOffset, 16);
  }

  lemma Pow16Of16()
    ensures Pow16(16) == 0x1_0000_0000_0000_0000
  {
    assert Pow16(4) == 0x1_0000;
    assert Pow16(8) == 0x1_0000_0000;
    assert Pow16(12) == 0x1_0000_0000_0000;
  }

  /** Any member of that shape decodes to nothing. */
  lemma EmptyMember(c: Codec, s: Bytes)
    requires Faithful(c) && |s| == 48 && DataStart(s) == Some(38) && s[38..40] == [3, 0] && s[40..] == NO_TRAILER
    ensures ReadMember(c, s) == Some(([], 48))
  {
    assert s[38..] == [3, 0] + NO_TRAILER;
    assert s[40..48] == NO_TRAILER == Le32(0) + Le32(0);
  }

  lemma OnlyMember(c: Codec, s: Bytes)
    requires s != [] && ReadMember(c, s) == Some(([], |s|))
    ensures ReadAll(c, s) == Some([])
  {
    assert s[|s|..] == [];
    PrependNothing(Some([]));
  }

  /** To a gzip reader the footer is an empty member. */
  lemma FooterIsEmpty(c: Codec, tocOffset: nat)
    requires Faithful(c)
    ensures ReadAll(c, Footer(tocOffset)) == Some([])
  {
    FooterParts(tocOffset);
    HeadAnnounces(Footer(tocOffset));
    EmptyMember(c, Footer(tocOffset));
    OnlyMember(c, Footer(tocOffset));
  }

  // ---------------------------------------------------------------- tar

  /** The blocks of a run of entries, without the end mark. */
  function Blocks(c: Codec, entries: seq<Entry>): Bytes {
    if entries == [] then [] else c.blocks(entries[0]) + Blocks(c, entries[1..])
  }

  /** Read entries up to the end mark or the end of the stream. */
  function ReadTar(c: Codec, s: Bytes): Option<seq<Entry>>
    decreases |s|
  {
    if AtEnd(s) then Some([])
    else
      match c.readEntry(s)
      case None => None
      case Some((x, n)) =>
        if n == 0 || n > |s| then None
        else
          match ReadTar(c, s[n..])
          case None => None
          case Some(rest) => Some([x] + rest)
  }

  lemma ReadEntryStep(c: Codec, x: Entry, more: Bytes)
    requires Faithful(c)
    ensures ReadTar(c, c.blocks(x) + more) ==
            match ReadTar(c, more) case None => None case Some(rest) => Some([x] + rest)
  {
    var b := c.blocks(x);
    assert !AtEnd(b + []) && b + [] == b;
    assert (b + more)[|b|..] == more;
  }

  lemma BlocksFirst(c: Codec, entries: seq<Entry>, rest: Bytes)
    requires entries != []
    ensures Blocks(c, entries) + rest == c.blocks(entries[0]) + (Blocks(c, entries[1..]) + rest)
  {
  }

  lemma {:induction false} ReadBlocks(c: Codec, entries: seq<Entry>, rest: Bytes)
    requires Faithful(c) && AtEnd(rest)
    ensures ReadTar(c, Blocks(c, entries) + rest) == Some(entries)
    decreases |entries|
  {
    if entries == [] {
      assert Blocks(c, entries) + rest == rest;
    } else {
      var (x, more) := (entries[0], Blocks(c, entries[1..]));
      ReadBlocks(c, entries[1..], rest);
      ReadEntryStep(c, x, more + rest);
      BlocksFirst(c, entries, rest);
      assert [x] + entries[1..] == entries;
    }
  }

  /** What extraction writes: every entry in order but the table of contents. */
  function WithoutToc(entries: seq<Entry>): seq<Entry> {
    if entries == [] then []
    else (if entries[0].path == TOC_NAME then [] else [entries[0]]) + WithoutToc(entries[1..])
  }

  // ---------------------------------------------------------------- pack and unpack

  function TocRecord(c: Codec, toc: seq<TocEntry>): Entry { Entry(TOC_NAME, Some(c.json(toc))) }

  /** The members of a run of entries. */
  function Members(c: Codec, entries: seq<Entry>): Bytes {
    if entries == [] then [] else Members(c, entries[..|entries| - 1]) + Member(c, c.blocks(entries[|entries| - 1]))
  }

  function ForwardSlashes(name: string): string {
    if name == "" then "" else [if name[0] == '\\' then '/' else name[0]] + ForwardSlashes(name[1..])
  }

  lemma {:induction false} SlashesTurned(name: string)
    ensures |ForwardSlashes(name)| == |name|
    ensures forall i :: 0 <= i < |name| ==> ForwardSlashes(name)[i] == if name[i] == '\\' then '/' else name[i]
    decreases |name|
  {
    if name != "" { SlashesTurned(name[1..]); }
  }

  /** Each entry's name beside the total length of the members before it. */
  function TocOf(c: Codec, entries: seq<Entry>): seq<TocEntry> {
    seq(|entries|, i requires 0 <= i < |entries| => TocEntry(ForwardSlashes(entries[i].path), |Members(c, entries[..i])|))
  }

  function EstargzOf(c: Codec, entries: seq<Entry>): Bytes {
    Members(c, entries) + Member(c, c.blocks(TocRecord(c, TocOf(c, entries)))) + Footer(|Members(c, entries)|)
  }

  class Writer {
    var out: Bytes
    var offset: nat

    constructor ()
      ensures out == [] && offset == 0
    {
      out, offset := [], 0;
    }

    /** Append one blob as a member of its own; the answer is where it starts. */
    method WriteMember(c: Codec, blob: Bytes) returns (start: nat)
      modifies this
      ensures start == old(offset)
      ensures out == old(out) + Member(c, blob) && offset == old(offset) + |Member(c, blob)|
    {
      start := offset;
      var member := Member(c, blob);
      out := out + member;
      offset := offset + |member|;
    }
  }

  // ---------------------------------------------------------------- what the builder stores

  /** The entry a node is stored as. */
  function EntryOf(x: Item): Result<Entry> {
    match x.content
    case Dir => Ok(Entry(x.path, None))
    case File(bytes) => Ok(Entry(x.path, Some(bytes)))
    case Link(_, ToFile(bytes)) => Ok(Entry(x.path, Some(bytes)))
    case Link(_, ToDir) => Ok(Entry(x.path, None))
    case Link(_, Nowhere) => Err(NOENT)
  }

  predicate Dangles(x: Item) { x.content.Link? && x.content.leads.Nowhere? }

  /** All of them, unless a link leads nowhere. */
  function EntriesOf(items: seq<Item>): Result<seq<Entry>> {
    if forall x :: x in items ==> !Dangles(x) then
      assert forall i :: 0 <= i < |items| ==> items[i] in items && !Dangles(items[i]);
      Ok(seq(|items|, i requires 0 <= i < |items| => EntryOf(items[i]).value))
    else Err(NOENT)
  }

  lemma EntriesStep(items: seq<Item>, i: nat)
    requires i < |items| && EntriesOf(items[..i]).Ok?
    ensures EntriesOf(items[..i + 1]) ==
            match EntryOf(items[i]) case Ok(e) => Ok(EntriesOf(items[..i]).value + [e]) case Err(e) => Err(e)
    ensures EntryOf(items[i]).Err? ==> EntriesOf(items) == Err(NOENT)
  {
    var (before, upto) := (items[..i], items[..i + 1]);
    assert upto == before + [items[i]] && items[i] in upto;
    if Dangles(items[i]) {
      assert items[i] in items;
    } else {
      assert forall x :: x in upto ==> x in before || x == items[i];
      assert EntriesOf(upto).value == EntriesOf(before).value + [EntryOf(items[i]).value];
    }
  }

  lemma EntriesWhole(items: seq<Item>)
    ensures items[..|items|] == items && EntriesOf(items[..0]) == Ok([])
  {
    assert items[..0] == [];
    assert EntriesOf(items[..0]).value == [];
  }

  /** Walk the tree into one tar stream. */
  method WalkIntoTar(c: Codec, items: seq<Item>) returns (r: Result<Bytes>)
    ensures r.Err? <==> EntriesOf(items).Err?
    ensures r.Err? ==> r.errno == NOENT
    ensures r.Ok? ==> r.value == Blocks(c, EntriesOf(items).value)
  {
    var tar: Bytes := [];
    EntriesWhole(items);
    for i := 0 to |items|
      invariant EntriesOf(items[..i]).Ok? && tar == Blocks(c, EntriesOf(items[..i]).value)
    {
      EntriesStep(items, i);
      var entry := EntryOf(items[i]);
      if entry.Err? { return Err(entry.errno); }
      BlocksAppend(c, EntriesOf(items[..i]).value, entry.value);
      tar := tar + c.blocks(entry.value);
    }
    return Ok(tar);
  }

  /** The table lists the entries in order, each under its name with every backslash turned. */
  lemma TocNames(c: Codec, entries: seq<Entry>, i: nat)
    requires i < |entries|
    ensures |TocOf(c, entries)| == |entries|
    ensures var (name, path) := (TocOf(c, entries)[i].name, entries[i].path);
            |name| == |path| && forall j :: 0 <= j < |path| ==> name[j] == if path[j] == '\\' then '/' else path[j]
  {
    SlashesTurned(entries[i].path);
  }

  lemma TocSame(c: Codec, entries: seq<Entry>, more: seq<Entry>, i: nat)
    requires i < |entries| <= |more| && more[..|entries|] == entries
    ensures TocOf(c, more)[i] == TocOf(c, entries)[i]
  {
    assert more[..i] == entries[..i] && more[i] == entries[i];
  }

  lemma TocStep(c: Codec, entries: seq<Entry>, e: Entry)
    ensures TocOf(c, entries + [e]) == TocOf(c, entries) + [TocEntry(ForwardSlashes(e.path), |Members(c, entries)|)]
    ensures Members(c, entries + [e]) == Members(c, entries) + Member(c, c.blocks(e))
  {
    var (more, n) := (entries + [e], |entries|);
    assert more[..n] == entries;
    var (x, y) := (TocOf(c, more), TocOf(c, entries) + [TocEntry(ForwardSlashes(e.path), |Members(c, entries)|)]);
    forall i | 0 <= i < n ensures x[i] == y[i] { TocSame(c, entries, more, i); }
    assert x[n] == y[n];
  }

  /** pack_estargz: a member an entry, with the running offset, then the table and the footer. */
  method PackEstargz(c: Codec, items: seq<Item>) returns (r: Result<Bytes>, toc: seq<TocEntry>)
    ensures r.Err? <==> EntriesOf(items).Err?
    ensures r.Err? ==> r.errno == NOENT
    ensures r.Ok? ==> toc == TocOf(c, EntriesOf(items).value) && r.value == EstargzOf(c, EntriesOf(items).value)
  {
    var w := new Writer();
    toc := [];
    EntriesWhole(items);
    for i := 0 to |items|
      invariant EntriesOf(items[..i]).Ok?
      invariant w.out == Members(c, EntriesOf(items[..i]).value) && w.offset == |w.out|
      invariant toc == TocOf(c, EntriesOf(items[..i]).value)
    {
      EntriesStep(items, i);
      var entry := EntryOf(items[i]);
      if entry.Err? { return Err(NOENT), toc; }
      TocStep(c, EntriesOf(items[..i]).value, entry.value);
      var start := w.WriteMember(c, c.blocks(entry.value));
      toc := toc + [TocEntry(ForwardSlashes(entry.value.path), start)];
    }
    var tocOffset := w.WriteMember(c, c.blocks(TocRecord(c, toc)));
    var footer := EstargzFooter(tocOffset);
    r := Ok(w.out + footer);
  }

  /** pack: every format, `zstd` saying whether the build has it. */
  method Pack(c: Codec, items: seq<Item>, format: Format, zstd: bool) returns (r: Result<Bytes>)
    ensures r == Packed(c, items, format, zstd)
  {
    if format == Estargz {
      var packed, _ := PackEstargz(c, items);
      return packed;
    }
    if format == Zstd && !zstd { return Err(NOSYS); }
    var walked := WalkIntoTar(c, items);
    if walked.Err? { return Err(walked.errno); }
    var tar := walked.value + Zeros(END_MARK);
    r := Ok(if format == Plain then tar else if format == Gzip then Member(c, tar) else c.zstd(tar));
  }

  /** What a format makes of the stored entries. */
  function Encoded(c: Codec, entries: seq<Entry>, format: Format): Bytes {
    match format
    case Plain => Blocks(c, entries) + Zeros(END_MARK)
    case Gzip => Member(c, Blocks(c, entries) + Zeros(END_MARK))
    case Estargz => EstargzOf(c, entries)
    case Zstd => c.zstd(Blocks(c, entries) + Zeros(END_MARK))
  }

  function Packed(c: Codec, items: seq<Item>, format: Format, zstd: bool): Result<Bytes> {
    if format == Zstd && !zstd then Err(NOSYS)
    else
      match EntriesOf(items)
      case Ok(entries) => Ok(Encoded(c, entries, format))
      case Err(e) => Err(e)
  }

  function UnpackTar(c: Codec, s: Bytes): Result<seq<Entry>> {
    match ReadTar(c, s)
    case None => Err(IO)
    case Some(entries) => Ok(WithoutToc(entries))
  }

  function Unpacked(c: Codec, s: Bytes, format: Format, zstd: bool): Result<seq<Entry>> {
    match format
    case Plain => UnpackTar(c, s)
    case Gzip => (match ReadAll(c, s) case None => Err(IO) case Some(tar) => UnpackTar(c, tar))
    case Estargz => (match ReadAll(c, s) case None => Err(IO) case Some(tar) => UnpackTar(c, tar))
    case Zstd =>
      if !zstd then Err(NOSYS)
      else match c.unzstd(s) case None => Err(IO) case Some(tar) => UnpackTar(c, tar)
  }

  /** unpack_tar: extract entry by entry, skipping the table of contents. */
  method ExtractTar(c: Codec, s: Bytes) returns (r: Result<seq<Entry>>)
    ensures r == UnpackTar(c, s)
  {
    var rest, done := s, [];
    ghost var read: seq<Entry> := [];
    TarStepNothing(c, s);
    while !AtEnd(rest)
      invariant done == WithoutToc(read)
      invariant ReadTar(c, s) == Before(read, ReadTar(c, rest))
      decreases |rest|
    {
      match c.readEntry(rest)
      case None => return Err(IO);
      case Some((x, n)) =>
        if n == 0 || n > |rest| { return Err(IO); }
        if x.path != TOC_NAME { done := done + [x]; }
        WithoutTocStep(read, x);
        TarStep(c, rest, read, x, n);
        read, rest := read + [x], rest[n..];
    }
    assert read + [] == read;
    r := Ok(done);
  }

  function Before(read: seq<Entry>, more: Option<seq<Entry>>): Option<seq<Entry>> {
    match more
    case None => None
    case Some(rest) => Some(read + rest)
  }

  lemma TarStepNothing(c: Codec, s: Bytes)
    ensures ReadTar(c, s) == Before([], ReadTar(c, s))
  {
    if ReadTar(c, s).Some? { assert [] + ReadTar(c, s).value == ReadTar(c, s).value; }
  }

  lemma TarStep(c: Codec, rest: Bytes, read: seq<Entry>, x: Entry, n: nat)
    requires !AtEnd(rest) && c.readEntry(rest) == Some((x, n)) && 0 < n <= |rest|
    ensures Before(read, ReadTar(c, rest)) == Before(read + [x], ReadTar(c, rest[n..]))
  {
    if ReadTar(c, rest[n..]).Some? {
      var more := ReadTar(c, rest[n..]).value;
      assert read + ([x] + more) == read + [x] + more;
    }
  }

  lemma {:induction false} WithoutTocStep(entries: seq<Entry>, x: Entry)
    ensures WithoutToc(entries + [x]) == WithoutToc(entries) + if x.path == TOC_NAME then [] else [x]
    decreases |entries|
  {
    if entries == [] {
      assert entries + [x] == [x];
    } else {
      assert (entries + [x])[0] == entries[0] && (entries + [x])[1..] == entries[1..] + [x];
      WithoutTocStep(entries[1..], x);
      var (head, more) := (if entries[0].path == TOC_NAME then [] else [entries[0]], if x.path == TOC_NAME then [] else [x]);
      assert head + (WithoutToc(entries[1..]) + more) == head + WithoutToc(entries[1..]) + more;
    }
  }

  // ---------------------------------------------------------------- the layout

  /** Decoding goes through a run of members, then reads on. */
  lemma {:induction false} MembersThen(c: Codec, entries: seq<Entry>, rest: Bytes)
    requires Faithful(c)
    ensures ReadAll(c, Members(c, entries) + rest) == Prepend(Blocks(c, entries), ReadAll(c, rest))
    decreases |entries|
  {
    if entries == [] {
      assert Members(c, entries) + rest == rest;
      PrependNothing(ReadAll(c, rest));
    } else {
      var (init, b) := (entries[..|entries| - 1], c.blocks(entries[|entries| - 1]));
      MembersThen(c, init, Member(c, b) + rest);
      ReadNext(c, b, rest);
      PrependTwice(Blocks(c, init), b, ReadAll(c, rest));
      MembersLast(c, entries, rest);
    }
  }

  lemma MembersLast(c: Codec, entries: seq<Entry>, rest: Bytes)
    requires entries != []
    ensures var (init, b) := (entries[..|entries| - 1], c.blocks(entries[|entries| - 1]));
            && Members(c, entries) + rest == Members(c, init) + (Member(c, b) + rest)
            && Blocks(c, entries) == Blocks(c, init) + b
  {
    var (init, last) := (entries[..|entries| - 1], entries[|entries| - 1]);
    assert entries == init + [last];
    BlocksAppend(c, init, last);
  }

  lemma {:induction false} BlocksAppend(c: Codec, entries: seq<Entry>, x: Entry)
    ensures Blocks(c, entries + [x]) == Blocks(c, entries) + c.blocks(x)
    decreases |entries|
  {
    if entries == [] {
      assert entries + [x] == [x];
      assert c.blocks(x) + [] == c.blocks(x);
    } else {
      assert (entries + [x])[1..] == entries[1..] + [x];
      BlocksAppend(c, entries[1..], x);
      assert c.blocks(entries[0]) + (Blocks(c, entries[1..]) + c.blocks(x)) == Blocks(c, entries) + c.blocks(x);
    }
  }

  /** The members from entry i on. */
  function MembersFrom(c: Codec, entries: seq<Entry>, i: nat): Bytes
    requires i <= |entries|
    decreases |entries| - i
  {
    if i == |entries| then [] else Member(c, c.blocks(entries[i])) + MembersFrom(c, entries, i + 1)
  }

  lemma MembersUpto(c: Codec, entries: seq<Entry>, i: nat)
    requires i < |entries|
    ensures Members(c, entries[..i + 1]) == Members(c, entries[..i]) + Member(c, c.blocks(entries[i]))
  {
    assert entries[..i + 1][..i] == entries[..i];
  }

  lemma {:induction false} MembersCut(c: Codec, entries: seq<Entry>, i: nat)
    requires i <= |entries|
    ensures Members(c, entries) == Members(c, entries[..i]) + MembersFrom(c, entries, i)
    decreases |entries| - i
  {
    if i == |entries| {
      assert entries[..i] == entries;
    } else {
      MembersCut(c, entries, i + 1);
      MembersUpto(c, entries, i);
    }
  }

  lemma Regroup(a: Bytes, m: Bytes, rest: Bytes, toc: Bytes, footer: Bytes)
    ensures (a + (m + rest)) + toc + footer == a + (m + (rest + toc + footer))
  {
  }

  /** Each recorded offset is the total length of the members before it, and decoding the one member
      found there gives that entry's blocks and nothing else. */
  lemma OffsetLocates(c: Codec, entries: seq<Entry>, i: nat)
    requires Faithful(c) && i < |entries|
    ensures var (stream, offset) := (EstargzOf(c, entries), TocOf(c, entries)[i].offset);
            && offset <= |stream|
            && ReadMember(c, stream[offset..]) == Some((c.blocks(entries[i]), |Member(c, c.blocks(entries[i]))|))
  {
    var m := Member(c, c.blocks(entries[i]));
    var toc := Member(c, c.blocks(TocRecord(c, TocOf(c, entries))));
    var footer := Footer(|Members(c, entries)|);
    MembersCut(c, entries, i);
    var (front, rest) := (Members(c, entries[..i]), MembersFrom(c, entries, i + 1));
    var after := rest + toc + footer;
    Regroup(front, m, rest, toc, footer);
    assert EstargzOf(c, entries) == front + (m + after);
    assert (front + (m + after))[|front|..] == m + after;
    ReadOne(c, c.blocks(entries[i]), after);
  }

  /** The members follow each other without a gap: each ends where the next, or the table, begins. */
  lemma OffsetsAdjoin(c: Codec, entries: seq<Entry>, i: nat)
    requires i < |entries|
    ensures TocOf(c, entries)[i].offset + |Member(c, c.blocks(entries[i]))|
            == if i + 1 < |entries| then TocOf(c, entries)[i + 1].offset else |Members(c, entries)|
  {
    MembersUpto(c, entries, i);
    assert i + 1 == |entries| ==> entries[..i + 1] == entries;
  }

  /** The footer, read from the last 48 bytes, points at the table of contents. */
  lemma FooterLocatesToc(c: Codec, entries: seq<Entry>)
    requires Faithful(c) && |Members(c, entries)| < 0x1_0000_0000_0000_0000
    ensures var stream := EstargzOf(c, entries);
            && |stream| >= 48
            && ReadTocOffset(stream[|stream| - 48..]) == Some(|Members(c, entries)|)
            && ReadMember(c, stream[|Members(c, entries)|..]) ==
                 Some((c.blocks(TocRecord(c, TocOf(c, entries))), |Member(c, c.blocks(TocRecord(c, TocOf(c, entries))))|))
  {
    var front := Members(c, entries);
    FooterExact(|front|);
    TableBefore(c, front, c.blocks(TocRecord(c, TocOf(c, entries))), Footer(|front|), |front|);
  }

  lemma TableBefore(c: Codec, front: Bytes, table: Bytes, footer: Bytes, n: nat)
    requires Faithful(c) && |footer| == 48 && ReadTocOffset(footer) == Some(n)
    ensures var stream := front + Member(c, table) + footer;
            && ReadTocOffset(stream[|stream| - 48..]) == Some(n)
            && ReadMember(c, stream[|front|..]) == Some((table, |Member(c, table)|))
  {
    var stream := front + Member(c, table) + footer;
    assert stream[|stream| - 48..] == footer;
    assert stream[|front|..] == Member(c, table) + footer;
    ReadOne(c, table, footer);
  }

  /** Decoding every member gives the plain tar stream, less its end mark, then the table's entry. */
  lemma EstargzDecodes(c: Codec, entries: seq<Entry>)
    requires Faithful(c)
    ensures ReadAll(c, EstargzOf(c, entries)) == Some(Blocks(c, entries + [TocRecord(c, TocOf(c, entries))]))
  {
    var x := TocRecord(c, TocOf(c, entries));
    var footer := Footer(|Members(c, entries)|);
    assert EstargzOf(c, entries) == Members(c, entries) + (Member(c, c.blocks(x)) + footer);
    FooterIsEmpty(c, |Members(c, entries)|);
    ReadNext(c, c.blocks(x), footer);
    assert c.blocks(x) + [] == c.blocks(x);
    MembersThen(c, entries, Member(c, c.blocks(x)) + footer);
    BlocksAppend(c, entries, x);
  }

  // ---------------------------------------------------------------- the round trip

  lemma {:induction false} WithoutTocSame(entries: seq<Entry>)
    ensures |WithoutToc(entries)| <= |entries|
    ensures WithoutToc(entries) == entries <==> forall x :: x in entries ==> x.path != TOC_NAME
    decreases |entries|
  {
    if entries != [] {
      WithoutTocSame(entries[1..]);
      assert entries == [entries[0]] + entries[1..];
      if WithoutToc(entries) == entries {
        assert entries[0].path != TOC_NAME;
        assert WithoutToc(entries)[1..] == WithoutToc(entries[1..]);
      }
    }
  }

  lemma {:induction false} WithoutTocWhole(entries: seq<Entry>)
    requires |WithoutToc(entries)| == |entries|
    ensures WithoutToc(entries) == entries
    decreases |entries|
  {
    if entries != [] {
      WithoutTocSame(entries[1..]);
      WithoutTocWhole(entries[1..]);
      assert entries == [entries[0]] + entries[1..];
    }
  }

  lemma ZerosEnd()
    ensures AtEnd(Zeros(END_MARK))
  {
  }

  lemma TarRoundTrip(c: Codec, entries: seq<Entry>)
    requires Faithful(c)
    ensures UnpackTar(c, Blocks(c, entries) + Zeros(END_MARK)) == Ok(WithoutToc(entries))
  {
    ZerosEnd();
    ReadBlocks(c, entries, Zeros(END_MARK));
  }

  lemma OneMember(c: Codec, tar: Bytes)
    requires Faithful(c)
    ensures ReadAll(c, Member(c, tar)) == Some(tar)
  {
    ReadNext(c, tar, []);
    assert Member(c, tar) + [] == Member(c, tar) && tar + [] == tar;
  }

  lemma StreamEnd(c: Codec, entries: seq<Entry>)
    requires Faithful(c)
    ensures UnpackTar(c, Blocks(c, entries)) == Ok(WithoutToc(entries))
  {
    ReadBlocks(c, entries, []);
    assert Blocks(c, entries) + [] == Blocks(c, entries);
  }

  lemma EstargzRoundTrip(c: Codec, entries: seq<Entry>, x: Entry)
    requires Faithful(c) && x == TocRecord(c, TocOf(c, entries))
    ensures ReadAll(c, EstargzOf(c, entries)) == Some(Blocks(c, entries + [x]))
    ensures UnpackTar(c, Blocks(c, entries + [x])) == Ok(WithoutToc(entries))
  {
    EstargzDecodes(c, entries);
    StreamEnd(c, entries + [x]);
    WithoutTocStep(entries, x);
    assert WithoutToc(entries) + [] == WithoutToc(entries);
  }

  /** Unpacking an encoding gives back its entries, but any named like the table. */
  lemma UnpackEncoded(c: Codec, entries: seq<Entry>, format: Format, zstd: bool)
    requires Faithful(c) && (format == Zstd ==> zstd)
    ensures Unpacked(c, Encoded(c, entries, format), format, zstd) == Ok(WithoutToc(entries))
  {
    TarRoundTrip(c, entries);
    if format == Gzip {
      OneMember(c, Blocks(c, entries) + Zeros(END_MARK));
    } else if format == Estargz {
      EstargzRoundTrip(c, entries, TocRecord(c, TocOf(c, entries)));
    } else if format == Zstd {
      var tar := Blocks(c, entries) + Zeros(END_MARK);
      assert c.unzstd(c.zstd(tar)) == Some(tar);
    }
  }

  /** The nodes extraction makes of entries. */
  function Extracted(entries: seq<Entry>): seq<Item> {
    seq(|entries|, i requires 0 <= i < |entries| => NodeOf(entries[i]))
  }

  function NodeOf(e: Entry): Item { Item(e.path, match e.body case None => Dir case Some(bytes) => File(bytes)) }

  /** Packing succeeds exactly when no link leads nowhere and the build has the format; unpacking then
      gives the nodes stored, in every format the same. */
  lemma PackExact(c: Codec, items: seq<Item>, format: Format, zstd: bool)
    requires Faithful(c)
    ensures var packed := Packed(c, items, format, zstd);
            && (packed.Ok? <==> (format == Zstd ==> zstd) && forall x :: x in items ==> !Dangles(x))
            && (packed.Err? ==> packed == Err(if format == Zstd && !zstd then NOSYS else NOENT))
            && (packed.Ok? ==> Unpacked(c, packed.value, format, zstd) == Ok(WithoutToc(EntriesOf(items).value)))
  {
    if Packed(c, items, format, zstd).Ok? { UnpackEncoded(c, EntriesOf(items).value, format, zstd); }
  }

  /** A node survives being stored exactly when it is no link. */
  lemma StoredExact(items: seq<Item>)
    requires EntriesOf(items).Ok?
    ensures Extracted(EntriesOf(items).value) == items <==> forall x :: x in items ==> !x.content.Link?
  {
    var back := Extracted(EntriesOf(items).value);
    forall i | 0 <= i < |items| ensures back[i] == items[i] <==> !items[i].content.Link? {
      assert !Dangles(items[i]) by { assert items[i] in items; }
    }
    if back == items {
      forall x | x in items ensures !x.content.Link? {
        var i :| 0 <= i < |items| && items[i] == x;
        assert back[i] == items[i];
      }
    }
  }

  lemma NamedAlike(items: seq<Item>)
    requires EntriesOf(items).Ok?
    ensures (forall x :: x in items ==> x.path != TOC_NAME) <==>
            forall e :: e in EntriesOf(items).value ==> e.path != TOC_NAME
  {
    var entries := EntriesOf(items).value;
    forall i | 0 <= i < |items| ensures entries[i].path == items[i].path {
      assert !Dangles(items[i]) by { assert items[i] in items; }
    }
    if exists x :: x in items && x.path == TOC_NAME {
      var x :| x in items && x.path == TOC_NAME;
      var i :| 0 <= i < |items| && items[i] == x;
      assert entries[i] in entries && entries[i].path == TOC_NAME;
    }
    forall e | e in entries ensures exists x :: x in items && x.path == e.path {
      var i :| 0 <= i < |entries| && entries[i] == e;
      assert items[i] in items;
    }
  }

  /** So the round trip is the identity exactly when no node is a link and none at the root is named
      like the table. */
  lemma RoundTripExact(c: Codec, items: seq<Item>, format: Format, zstd: bool)
    requires Faithful(c) && Packed(c, items, format, zstd).Ok?
    ensures var unpacked := Unpacked(c, Packed(c, items, format, zstd).value, format, zstd);
            && unpacked.Ok?
            && (Extracted(unpacked.value) == items <==>
                  forall x :: x in items ==> !x.content.Link? && x.path != TOC_NAME)
  {
    var entries := EntriesOf(items).value;
    PackExact(c, items, format, zstd);
    WithoutTocSame(entries);
    StoredExact(items);
    NamedAlike(items);
    if |WithoutToc(entries)| == |entries| { WithoutTocWhole(entries); }
  }

  /** A walked link comes back as a file or a directory. */
  lemma LinkComesBackFollowed(c: Codec, path: string, target: string, leads: Leads, format: Format, zstd: bool)
    requires Faithful(c) && path != "stargz.index.json" && (format == Zstd ==> zstd) && !leads.Nowhere?
    ensures var packed := Packed(c, [Item(path, Link(target, leads))], format, zstd);
            && packed.Ok? && Unpacked(c, packed.value, format, zstd).Ok?
            && Extracted(Unpacked(c, packed.value, format, zstd).value)
                 == [Item(path, if leads.ToFile? then File(leads.bytes) else Dir)]
  {
    var items := [Item(path, Link(target, leads))];
    PackExact(c, items, format, zstd);
    assert EntriesOf(items).value == [Entry(path, if leads.ToFile? then Some(leads.bytes) else None)];
    WithoutTocSame(EntriesOf(items).value);
  }

  /** An archive that cannot be read is an I/O error, a format the build lacks is not supported. */
  lemma UnpackFails(c: Codec, s: Bytes, format: Format, zstd: bool)
    requires Unpacked(c, s, format, zstd).Err?
    ensures Unpacked(c, s, format, zstd) == Err(if format == Zstd && !zstd then NOSYS else IO)
  {
  }

  /** A plain archive is the tar blocks and the two zero blocks that end a tar; gzip and zstd compress it whole. */
  lemma PlainLayout(c: Codec, items: seq<Item>, zstd: bool)
    requires Packed(c, items, Plain, zstd).Ok?
    ensures var (s, n) := (Packed(c, items, Plain, zstd).value, |Blocks(c, EntriesOf(items).value)|);
            && |s| == n + 1024 && s[..n] == Blocks(c, EntriesOf(items).value) && (forall i :: n <= i < |s| ==> s[i] == 0)
            && Packed(c, items, Gzip, zstd) == Ok(Member(c, s)) && (zstd ==> Packed(c, items, Zstd, zstd) == Ok(c.zstd(s)))
  {
  }

  /** The last bytes of the footer's extra field spell the format's name. */
  lemma FooterSpells(tocOffset: nat)
    ensures forall i :: 0 <= i < 6 ==> Footer(tocOffset)[32..38][i] as char == "STARGZ"[i]
  {
    FooterParts(tocOffset);
    assert 'S' as int == 83 && 'T' as int == 84 && 'A' as int == 65 && 'R' as int == 82 && 'G' as int == 71 && 'Z' as int == 90;
  }
}
