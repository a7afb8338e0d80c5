/** The disk cache: archives stored under keys in a directory, looked up by exact key or newest prefix. */
module Cache {
  import opened FileData
  import opened Results
  import opened Paths
  import opened Archive

  function Ext(format: Format): string {
    match format
    case Gzip => "tar.gz"
    case Estargz => "tar.gz"
    case Zstd => "tar.zst"
    case Plain => "tar"
  }

  predicate HasDotDot(key: string) { |key| >= 2 && (key[..2] == ".." || HasDotDot(key[1..])) }

  predicate SafeKey(key: string) { key != "" && !HasDotDot(key) && key[0] != '/' }

  function ObjectName(key: string, format: Format): string { key + "." + Ext(format) }

  predicate EndsWith(s: string, suffix: string) { |suffix| <= |s| && s[|s| - |suffix|..] == suffix }

  /** Does an entry of the cache root match a key as a prefix? */
  predicate Matches(name: string, key: string, format: Format) {
    key <= name && EndsWith(name, "." + Ext(format))
  }

  // ---------------------------------------------------------------- names as the file system reads them

  /** The pieces between the separators. */
  function Pieces(s: string): (p: seq<string>)
    ensures |p| >= 1 && forall w :: w in p ==> '/' !in w
  {
    if s == "" then [""]
    else
      var rest := Pieces(s[1..]);
      if s[0] == '/' then [""] + rest else [[s[0]] + rest[0]] + rest[1..]
  }

  /** The components a relative path resolves to: empty pieces and "." are dropped. */
  function Components(s: string): Path { Kept(Pieces(s)) }

  function Kept(pieces: seq<string>): Path
    requires forall w :: w in pieces ==> '/' !in w
  {
    if pieces == [] then []
    else (if pieces[0] == "" || pieces[0] == "." then [] else [pieces[0]]) + Kept(pieces[1..])
  }

  function ObjectPath(key: string, format: Format): Path { Components(ObjectName(key, format)) }

  // ---------------------------------------------------------------- the store

  datatype Object = Object(mtime: nat, bytes: seq<Byte>)

  /** One line of a directory listing. */
  datatype Listed = Listed(name: Name, mtime: nat)

  datatype Store = Store(files: map<Path, Object>, dirs: set<Path>)

  predicate OnDisk(s: Store, p: Path) { p in s.files || p in s.dirs }

  /** Some directory the object needs is a file already. */
  predicate Blocked(s: Store, p: Path) { exists k :: 0 <= k < |p| && p[..k] in s.files }

  /** Save: the file is created, so emptied, before packing; a failed pack removes it. */
  function Saved(s: Store, key: string, format: Format, packed: Result<seq<Byte>>, now: nat): (Store, Result<()>) {
    var p := ObjectPath(key, format);
    if !SafeKey(key) then (s, Err(INVAL))
    else if Blocked(s, p) then (s, Err(NOTDIR))
    else
      var t := s.(dirs := s.dirs + Ancestors(p));
      if p in t.dirs then (t, Err(ISDIR))
      else
        match packed
        case Ok(bytes) => (t.(files := t.files[p := Object(now, bytes)]), Ok(()))
        case Err(e) => (t.(files := t.files - {p}), Err(e))
  }

  function Removed(s: Store, key: string, format: Format): (Store, Result<bool>) {
    var p := ObjectPath(key, format);
    if !SafeKey(key) then (s, Err(INVAL))
    else if p in s.files then (s.(files := s.files - {p}), Ok(true))
    else if p in s.dirs then (s, Err(ISDIR))
    else (s, Ok(false))
  }

  /** A listing of the cache root: each entry once, a file with its time, in some order. */
  ghost predicate Lists(s: Store, listing: seq<Listed>) {
    && (forall i :: 0 <= i < |listing| ==> OnDisk(s, [listing[i].name]))
    && (forall i :: 0 <= i < |listing| && [listing[i].name] in s.files ==>
          listing[i].mtime == s.files[[listing[i].name]].mtime)
    && (forall n: Name :: OnDisk(s, [n]) ==> exists i :: 0 <= i < |listing| && listing[i].name == n)
    && (forall i, j :: 0 <= i < j < |listing| ==> listing[i].name != listing[j].name)
  }

  /** An entry of the root that no matching file is newer than; a directory has a time of its own. */
  ghost predicate NewestIn(s: Store, n: Name, key: string, format: Format) {
    && OnDisk(s, [n]) && Matches(n, key, format)
    && ([n] in s.files ==>
          forall m: Name :: [m] in s.files && Matches(m, key, format) ==> s.files[[m]].mtime <= s.files[[n]].mtime)
  }

  /** What a lookup answers: the exact object if there is one, else a newest match in the root, and
      none only if nothing there matches. */
  ghost predicate Resolves(s: Store, key: string, format: Format, r: Option<string>) {
    if OnDisk(s, ObjectPath(key, format)) then r == Some(ObjectName(key, format))
    else if r.None? then forall n: Name :: OnDisk(s, [n]) ==> !Matches(n, key, format)
    else exists n: Name :: r == Some(n) && NewestIn(s, n, key, format)
  }

  /** The first of the newest matches of a listing. */
  predicate Newest(listing: seq<Listed>, i: nat, key: string, format: Format)
    requires i < |listing|
  {
    && Matches(listing[i].name, key, format)
    && (forall j :: 0 <= j < |listing| && Matches(listing[j].name, key, format) ==> listing[j].mtime <= listing[i].mtime)
    && (forall j :: 0 <= j < i && Matches(listing[j].name, key, format) ==> listing[j].mtime < listing[i].mtime)
  }

  lemma NewestListed(s: Store, listing: seq<Listed>, i: nat, key: string, format: Format)
    requires Lists(s, listing) && i < |listing| && Newest(listing, i, key, format)
    ensures NewestIn(s, listing[i].name, key, format)
  {
    forall m: Name | [m] in s.files && Matches(m, key, format) && [listing[i].name] in s.files
      ensures s.files[[m]].mtime <= s.files[[listing[i].name]].mtime
    {
      assert OnDisk(s, [m]);
      var j :| 0 <= j < |listing| && listing[j].name == m;
    }
  }

  /** With no two matching files of one time and no matching directory, the answer does not depend on
      the order of the listing. */
  lemma ResolvesOnce(s: Store, key: string, format: Format, a: Option<string>, b: Option<string>)
    requires Resolves(s, key, format, a) && Resolves(s, key, format, b)
    requires forall n: Name :: Matches(n, key, format) && OnDisk(s, [n]) ==> [n] in s.files
    requires forall m: Name, n: Name | [m] in s.files && [n] in s.files && m != n ::
               Matches(m, key, format) && Matches(n, key, format) ==> s.files[[m]].mtime != s.files[[n]].mtime
    ensures a == b
  {
    if !OnDisk(s, ObjectPath(key, format)) && a.Some? && b.Some? {
      var m: Name :| a == Some(m) && NewestIn(s, m, key, format);
      var n: Name :| b == Some(n) && NewestIn(s, n, key, format);
    }
  }

  // ---------------------------------------------------------------- whose archive the answer is

  /** The name with an extension taken off. */
  ghost predicate Stemmed(name: string, tail: string) { exists stem: string :: name == stem + tail }

  lemma EndsStemmed(name: string, tail: string)
    ensures EndsWith(name, tail) <==> Stemmed(name, tail)
  {
    if EndsWith(name, tail) { assert name == name[..|name| - |tail|] + tail; }
  }

  lemma ArchiveOfFormat(name: string, format: Format)
    ensures EndsWith(name, "." + Ext(format)) <==>
              Stemmed(name, if format.Plain? then ".tar" else if format.Zstd? then ".tar.zst" else ".tar.gz")
  {
    EndsStemmed(name, "." + Ext(format));
  }

  /** What is found for a key starts with it and has the format's extension; the object of that very name
      comes first; nothing is found only if no entry of the root qualifies. */
  lemma AnswerOfKey(s: Store, key: string, format: Format, r: Option<string>)
    requires Resolves(s, key, format, r)
    ensures var tail := if format.Plain? then ".tar" else if format.Zstd? then ".tar.zst" else ".tar.gz";
            && (r.Some? ==> key <= r.value && Stemmed(r.value, tail))
            && (OnDisk(s, Components(key + tail)) ==> r == Some(key + tail))
            && (r.None? ==> forall n: Name :: OnDisk(s, [n]) && key <= n ==> !Stemmed(n, tail))
  {
    assert ObjectName(key, format) == key + (if format.Plain? then ".tar" else if format.Zstd? then ".tar.zst" else ".tar.gz");
    if r.Some? { ArchiveOfFormat(r.value, format); }
    forall n: Name | r.None? && OnDisk(s, [n]) && key <= n ensures !EndsWith(n, "." + Ext(format)) {
      assert !Matches(n, key, format);
    }
    forall n: Name { ArchiveOfFormat(n, format); }
  }

  predicate Overlaps(stem: string, key: string, format: Format) {
    Matches(ObjectName(stem, format), key, format) && !(key <= stem)
  }

  lemma OverlapEnds(stem: string, key: string, format: Format)
    requires Overlaps(stem, key, format)
    ensures 1 <= |key| - |stem| <= |Ext(format)| + 1 && EndsWith(key, ("." + Ext(format))[..|key| - |stem|])
  {
    var (name, tail) := (ObjectName(stem, format), "." + Ext(format));
    assert name == stem + tail && key == name[..|key|] && stem == name[..|stem|];
    assert key[|stem|..] == tail[..|key| - |stem|];
  }

  lemma EndsOverlap(key: string, format: Format, k: nat)
    requires 1 <= k <= |Ext(format)| + 1 && EndsWith(key, ("." + Ext(format))[..k])
    ensures Overlaps(key[..|key| - k], key, format)
  {
    var (stem, tail) := (key[..|key| - k], "." + Ext(format));
    var name := ObjectName(stem, format);
    assert name == stem + tail && tail == tail[..k] + tail[k..] && key == stem + tail[..k];
    assert name == key + tail[k..];
    assert name[|name| - |tail|..] == tail;
  }

  /** A match whose own key does not start with the key asked for: "a.tar" matches "a.tar.gz", stored under
      "a". There is one exactly if the key ends in a part of the extension, dot first. */
  lemma OverlapExact(key: string, format: Format)
    ensures (exists stem: string :: Overlaps(stem, key, format)) <==>
            (exists k :: 1 <= k <= |Ext(format)| + 1 && EndsWith(key, ("." + Ext(format))[..k]))
  {
    if stem: string :| Overlaps(stem, key, format) { OverlapEnds(stem, key, format); }
    if k :| 1 <= k <= |Ext(format)| + 1 && EndsWith(key, ("." + Ext(format))[..k]) { EndsOverlap(key, format, k); }
  }

  lemma {:induction false} OnePiece(s: string)
    requires '/' !in s
    ensures Pieces(s) == [s]
    decreases |s|
  {
    if s != "" {
      OnePiece(s[1..]);
      assert s == [s[0]] + s[1..];
    }
  }

  lemma RootObject(key: string, format: Format)
    requires '/' !in key
    ensures ObjectPath(key, format) == [ObjectName(key, format)]
  {
    OnePiece(ObjectName(key, format));
    assert Kept([ObjectName(key, format)][1..]) == [];
  }

  /** What saving under a key without separators does to the root's entries. */
  lemma SavedInRoot(s: Store, key: string, format: Format, bytes: seq<Byte>, now: nat, n: Name)
    requires '/' !in key && Saved(s, key, format, Ok(bytes), now).1.Ok?
    ensures var t := Saved(s, key, format, Ok(bytes), now).0;
            && (OnDisk(t, [n]) <==> OnDisk(s, [n]) || n == ObjectName(key, format))
            && ([n] in t.files <==> [n] in s.files || n == ObjectName(key, format))
            && ([n] in t.files ==> t.files[[n]] == if n == ObjectName(key, format) then Object(now, bytes) else s.files[[n]])
  {
    RootObject(key, format);
    var p := ObjectPath(key, format);
    assert forall k :: 0 <= k < |p| ==> p[..k] == [];
  }

  /** An archive saved later than all that match a shorter key is what a lookup of that key finds. */
  lemma LatestSaveIsFound(s: Store, key: string, longer: string, format: Format, bytes: seq<Byte>, now: nat, r: Option<string>)
    requires key < longer && '/' !in longer && !OnDisk(s, ObjectPath(key, format))
    requires Saved(s, longer, format, Ok(bytes), now).1.Ok? && Resolves(Saved(s, longer, format, Ok(bytes), now).0, key, format, r)
    requires forall n: Name :: OnDisk(s, [n]) && Matches(n, key, format) ==>
               [n] in s.files && (n != ObjectName(longer, format) ==> s.files[[n]].mtime < now)
    ensures r == Some(ObjectName(longer, format))
  {
    var t := Saved(s, longer, format, Ok(bytes), now).0;
    var best: Name := ObjectName(longer, format);
    var exact: Name := ObjectName(key, format);
    RootObject(key, format);
    NameInjective(key, format, longer, format);
    SavedInRoot(s, longer, format, bytes, now, best);
    SavedInRoot(s, longer, format, bytes, now, exact);
    assert Matches(best, key, format) && OnDisk(t, [best]);
    if r.Some? {
      var n: Name :| r == Some(n) && NewestIn(t, n, key, format);
      SavedInRoot(s, longer, format, bytes, now, n);
    }
  }

  // ---------------------------------------------------------------- keys that stay inside the root

  lemma {:induction false} DotDotAt(key: string)
    ensures HasDotDot(key) <==> exists i :: 0 <= i < |key| - 1 && key[i] == '.' && key[i + 1] == '.'
    decreases |key|
  {
    if |key| >= 2 {
      DotDotAt(key[1..]);
      assert key[..2] == ".." <==> key[0] == '.' && key[1] == '.';
      if i :| 0 <= i < |key| - 1 && key[i] == '.' && key[i + 1] == '.' && i > 0 {
        assert key[1..][i - 1] == '.' && key[1..][i - 1 + 1] == '.';
      }
      if i :| 0 <= i < |key[1..]| - 1 && key[1..][i] == '.' && key[1..][i + 1] == '.' {
        assert key[i + 1] == '.' && key[i + 1 + 1] == '.';
      }
    }
  }

  /** A key is refused exactly if it is empty, starts with the separator, or has two dots in a row. */
  lemma SafeKeyExact(key: string)
    ensures SafeKey(key) <==>
            |key| > 0 && key[0] != '/' && forall i :: 0 <= i < |key| - 1 ==> !(key[i] == '.' && key[i + 1] == '.')
  {
    DotDotAt(key);
  }

  lemma {:induction false} DotDotPiece(key: string, tail: string)
    requires '/' !in tail && |tail| >= 3 && ".." in Pieces(key + tail)
    ensures HasDotDot(key)
    decreases |key|
  {
    if key == "" {
      assert key + tail == tail;
      OnePiece(tail);
    } else {
      var (s, rest) := (key + tail, Pieces(key[1..] + tail));
      assert s[1..] == key[1..] + tail;
      if ".." in rest {
        DotDotPiece(key[1..], tail);
      } else {
        assert Pieces(s)[0] == ".." && Pieces(s)[0] == [s[0]] + rest[0];
        assert key[0] == '.' && rest[0] == "." by {
          assert ".."[0] == '.' && ".."[1..] == "." && rest[0] == ([s[0]] + rest[0])[1..];
        }
        if |key| == 1 {
          assert key[1..] + tail == tail;
          OnePiece(tail);
        } else {
          assert (key[1..] + tail)[0] == key[1];
          assert key[..2] == "..";
        }
      }
    }
  }

  lemma {:induction false} KeptAreSome(pieces: seq<string>, w: string)
    requires (forall x :: x in pieces ==> '/' !in x) && w in Kept(pieces)
    ensures w in pieces && w != "" && w != "."
    decreases |pieces|
  {
    if pieces != [] && !(w == pieces[0] && w != "" && w != ".") { KeptAreSome(pieces[1..], w); }
  }

  /** An accepted key's object never climbs out of the root. */
  lemma NeverClimbs(key: string, format: Format)
    requires SafeKey(key)
    ensures ObjectPath(key, format) != [] && forall w :: w in ObjectPath(key, format) ==> w != ".." && w != "." && w != ""
  {
    var name := ObjectName(key, format);
    assert name == key + ("." + Ext(format));
    forall w | w in ObjectPath(key, format) ensures w != ".." && w != "." && w != "" {
      KeptAreSome(Pieces(name), w);
      if w == ".." { DotDotPiece(key, "." + Ext(format)); }
    }
    LastKept(key, "." + Ext(format));
  }

  lemma {:induction false} LastKept(key: string, tail: string)
    requires '/' !in tail && |tail| >= 3
    ensures Components(key + tail) != [] && |Pieces(key + tail)[|Pieces(key + tail)| - 1]| >= 3
    decreases |key|
  {
    if key == "" {
      assert key + tail == tail;
      OnePiece(tail);
      KeptLast([tail]);
    } else {
      LastKept(key[1..], tail);
      assert (key + tail)[1..] == key[1..] + tail;
      KeptLast(Pieces(key + tail));
    }
  }

  lemma {:induction false} KeptLast(pieces: seq<string>)
    requires (forall w :: w in pieces ==> '/' !in w) && pieces != [] && |pieces[|pieces| - 1]| >= 3
    ensures Kept(pieces) != []
    decreases |pieces|
  {
    if |pieces| > 1 { KeptLast(pieces[1..]); }
  }

  predicate IsArchive(name: string) { EndsWith(name, ".tar.gz") || EndsWith(name, ".tar.zst") || EndsWith(name, ".tar") }

  lemma ArchiveStems(name: string)
    ensures IsArchive(name) <==> Stemmed(name, ".tar.gz") || Stemmed(name, ".tar.zst") || Stemmed(name, ".tar")
  {
    EndsStemmed(name, ".tar.gz");
    EndsStemmed(name, ".tar.zst");
    EndsStemmed(name, ".tar");
  }

  /** The name of some key's object. */
  ghost predicate Stored(name: string, format: Format) { exists key: string :: name == ObjectName(key, format) }

  lemma StoredStem(name: string, format: Format, tail: string)
    requires tail == "." + Ext(format)
    ensures Stored(name, format) <==> Stemmed(name, tail)
  {
    if Stored(name, format) {
      var key: string :| name == ObjectName(key, format);
      assert name == key + tail;
    }
    if Stemmed(name, tail) {
      var key: string :| name == key + tail;
      assert name == ObjectName(key, format);
    }
  }

  lemma StoredAlike(name: string)
    ensures IsArchive(name) <==> Stored(name, Gzip) || Stored(name, Zstd) || Stored(name, Plain)
    ensures Stored(name, Estargz) == Stored(name, Gzip)
  {
    ArchiveStems(name);
    StoredStem(name, Gzip, ".tar.gz");
    StoredStem(name, Estargz, ".tar.gz");
    StoredStem(name, Zstd, ".tar.zst");
    StoredStem(name, Plain, ".tar");
  }

  /** The archives are the objects of some key and format. */
  lemma ArchivesAreObjects(name: string)
    ensures IsArchive(name) <==> exists format :: Stored(name, format)
  {
    StoredAlike(name);
    assert IsArchive(name) <==> Stored(name, Gzip) || Stored(name, Zstd) || Stored(name, Plain);
  }

  class DiskCache {
    var files: map<Path, Object>
    var dirs: set<Path>

    ghost function State(): Store
      reads this
    {
      Store(files, dirs)
    }

    constructor ()
      ensures State() == Store(map[], {})
    {
      files, dirs := map[], {};
    }

    method Save(key: string, format: Format, packed: Result<seq<Byte>>, now: nat) returns (r: Result<()>)
      modifies this
      ensures (State(), r) == Saved(old(State()), key, format, packed, now)
    {
      if !SafeKey(key) { return Err(INVAL); }
      var p := Components(ObjectName(key, format));
      if exists k :: 0 <= k < |p| && p[..k] in files { return Err(NOTDIR); }
      dirs := dirs + Ancestors(p);
      if p in dirs { return Err(ISDIR); }
      files := files[p := Object(now, [])];
      match packed
      case Ok(bytes) =>
        files := files[p := Object(now, bytes)];
        assert files == old(files)[p := Object(now, bytes)];
        r := Ok(());
      case Err(e) =>
        files := files - {p};
        assert files == old(files) - {p};
        r := Err(e);
    }

    /** `listing` is what reading the root gives. */
    method Resolve(key: string, format: Format, listing: seq<Listed>) returns (r: Result<Option<string>>)
      requires Lists(State(), listing)
      ensures r.Err? <==> !SafeKey(key)
      ensures r.Ok? ==> Resolves(State(), key, format, r.value)
      ensures r.Ok? && r.value.Some? ==> key <= r.value.value
      ensures r.Err? ==> r == Err(INVAL)
    {
      if !SafeKey(key) { return Err(INVAL); }
      var exact := ObjectName(key, format);
      var p := Components(exact);
      if p in files || p in dirs { return Ok(Some(exact)); }
      var best := FindNewest(key, format, listing);
      if best.Some? { NewestListed(State(), listing, best.value, key, format); }
      return Ok(if best.Some? then Some(listing[best.value].name) else None);
    }

    /** The scan of the listing: keep the newest match, the earlier of equals. */
    method FindNewest(key: string, format: Format, listing: seq<Listed>) returns (best: Option<nat>)
      ensures best.None? ==> forall i :: 0 <= i < |listing| ==> !Matches(listing[i].name, key, format)
      ensures best.Some? ==> best.value < |listing| && Newest(listing, best.value, key, format)
      ensures best.Some? ==> forall i :: 0 <= i < |listing| && Matches(listing[i].name, key, format) ==>
                               listing[i].mtime < listing[best.value].mtime
                               || (listing[i].mtime == listing[best.value].mtime && best.value <= i)
    {
      best := None;
      for i := 0 to |listing|
        invariant best.None? ==> forall j :: 0 <= j < i ==> !Matches(listing[j].name, key, format)
        invariant best.Some? ==> best.value < i && Matches(listing[best.value].name, key, format)
        invariant best.Some? ==> forall j :: 0 <= j < i && Matches(listing[j].name, key, format) ==>
                                   listing[j].mtime <= listing[best.value].mtime
        invariant best.Some? ==> forall j :: 0 <= j < best.value && Matches(listing[j].name, key, format) ==>
                                   listing[j].mtime < listing[best.value].mtime
      {
        if Matches(listing[i].name, key, format) {
          if best.None? || listing[i].mtime > listing[best.value].mtime {
            best := Some(i);
          }
        }
      }
    }

    method Remove(key: string, format: Format) returns (r: Result<bool>)
      modifies this`files
      ensures (State(), r) == Removed(old(State()), key, format)
    {
      if !SafeKey(key) { return Err(INVAL); }
      var p := Components(ObjectName(key, format));
      if p in files {
        files := files - {p};
        return Ok(true);
      }
      if p in dirs { return Err(ISDIR); }
      return Ok(false);
    }

    /** Remove the archives among the entries of the cache root, and count them. */
    method Clear() returns (n: nat)
      modifies this`files
      ensures files == map p | p in old(files) && !(|p| == 1 && IsArchive(p[0])) :: old(files)[p]
      ensures n == |old(files)| - |files|
    {
      var doomed := ArchivesIn(files.Keys);
      ghost var all := doomed;
      n := 0;
      assert all - doomed == {} && files - {} == files;
      while doomed != {}
        invariant doomed <= all && doomed <= files.Keys
        invariant files == old(files) - (all - doomed)
        invariant n == |old(files)| - |files|
        decreases doomed
      {
        var p :| p in doomed;
        OneMore(old(files), files, all, doomed, p);
        files := files - {p};
        doomed := doomed - {p};
        n := n + 1;
      }
      assert all - {} == all;
      WithoutArchives(old(files));
    }
  }

  /** The archives directly in the cache root. */
  function ArchivesIn(paths: set<Path>): set<Path> { set p | p in paths && |p| == 1 && IsArchive(p[0]) }

  lemma WithoutArchives<V>(m: map<Path, V>)
    ensures m - ArchivesIn(m.Keys) == map p | p in m && !(|p| == 1 && IsArchive(p[0])) :: m[p]
  {
  }

  lemma OneMore<K, V>(was: map<K, V>, now: map<K, V>, all: set<K>, doomed: set<K>, k: K)
    requires doomed <= all && doomed <= now.Keys && now == was - (all - doomed) && k in doomed
    ensures now - {k} == was - (all - (doomed - {k})) && |now - {k}| == |now| - 1
    ensures doomed - {k} <= (now - {k}).Keys
  {
    assert all - (doomed - {k}) == (all - doomed) + {k};
  }

  // ---------------------------------------------------------------- object names

  lemma LastCharTellsFormat(k: string, f: Format)
    ensures var name := ObjectName(k, f);
            |name| >= 4 && name[|name| - 1] == (match f case Gzip => 'z' case Estargz => 'z' case Zstd => 't' case Plain => 'r')
  {
  }

  /** An object name tells its key and its extension apart. */
  lemma NameInjective(k: string, f: Format, l: string, g: Format)
    ensures ObjectName(k, f) == ObjectName(l, g) <==> k == l && Ext(f) == Ext(g)
  {
    LastCharTellsFormat(k, f);
    LastCharTellsFormat(l, g);
    if ObjectName(k, f) == ObjectName(l, g) {
      assert Ext(f) == Ext(g);
      assert k == ObjectName(k, f)[..|ObjectName(k, f)| - |Ext(f)| - 1];
      assert l == ObjectName(l, g)[..|ObjectName(l, g)| - |Ext(g)| - 1];
    }
  }

  /** No empty piece and no ".": a name the file system does not rewrite. */
  predicate Canonical(s: string) { forall w :: w in Pieces(s) ==> w != "" && w != "." }

  function Glued(pieces: seq<string>): string {
    if pieces == [] then "" else if |pieces| == 1 then pieces[0] else pieces[0] + "/" + Glued(pieces[1..])
  }

  lemma GlueChar(c: char, pieces: seq<string>)
    requires pieces != []
    ensures Glued([[c] + pieces[0]] + pieces[1..]) == [c] + Glued(pieces)
  {
    var longer := [[c] + pieces[0]] + pieces[1..];
    assert longer[1..] == pieces[1..];
  }

  lemma {:induction false} GluePieces(s: string)
    ensures Glued(Pieces(s)) == s
    decreases |s|
  {
    if s != "" {
      GluePieces(s[1..]);
      assert s == [s[0]] + s[1..];
      if s[0] != '/' { GlueChar(s[0], Pieces(s[1..])); }
    }
  }

  lemma {:induction false} KeptAll(pieces: seq<string>)
    requires forall w :: w in pieces ==> '/' !in w && w != "" && w != "."
    ensures Kept(pieces) == pieces
    decreases |pieces|
  {
    if pieces != [] {
      forall w | w in pieces[1..] ensures w in pieces {}
      KeptAll(pieces[1..]);
      assert pieces[0] in pieces;
      assert pieces == [pieces[0]] + pieces[1..];
    }
  }

  /** Canonical object names name different files exactly when the key or the extension differs; the
      two gzip formats share one. */
  lemma SameObjectExact(k: string, f: Format, l: string, g: Format)
    requires Canonical(ObjectName(k, f)) && Canonical(ObjectName(l, g))
    ensures ObjectPath(k, f) == ObjectPath(l, g) <==> k == l && Ext(f) == Ext(g)
  {
    KeptAll(Pieces(ObjectName(k, f)));
    KeptAll(Pieces(ObjectName(l, g)));
    GluePieces(ObjectName(k, f));
    GluePieces(ObjectName(l, g));
    NameInjective(k, f, l, g);
  }

  /** Other names can meet: "./a" and "a" are both accepted and share an object. */
  lemma DotKeysMeet()
    ensures SafeKey("./a") && SafeKey("a") && ObjectPath("./a", Plain) == ObjectPath("a", Plain)
  {
    assert ObjectName("./a", Plain) == "./a.tar" && ObjectName("a", Plain) == "a.tar";
    var (p, q) := (Pieces("./a.tar"), Pieces("a.tar"));
    assert "./a.tar"[1..] == "/a.tar" && "/a.tar"[1..] == "a.tar";
    assert Pieces("/a.tar") == [""] + q;
    assert "." + "" == ".";
    assert p == ["."] + q;
    assert p[1..] == q;
    assert !HasDotDot("./a") by { assert "./a"[1..] == "/a" && "/a"[1..] == "a"; }
  }

  // ---------------------------------------------------------------- runs

  datatype Op =
    | DoSave(key: string, format: Format, packed: Result<seq<Byte>>, now: nat)
    | DoRemove(key: string, format: Format)

  function Step(s: Store, op: Op): Store {
    match op
    case DoSave(k, f, packed, now) => Saved(s, k, f, packed, now).0
    case DoRemove(k, f) => Removed(s, k, f).0
  }

  function Run(s: Store, ops: seq<Op>): Store
    decreases |ops|
  {
    if ops == [] then s else Run(Step(s, ops[0]), ops[1..])
  }

  /** Files and directories do not overlap, and what a file needs is there. */
  ghost predicate Sound(s: Store) {
    && (forall p :: p in s.files ==> p !in s.dirs)
    && (forall p :: p in s.files ==> Ancestors(p) <= s.dirs)
  }

  lemma SaveKeepsSound(s: Store, key: string, format: Format, packed: Result<seq<Byte>>, now: nat)
    requires Sound(s)
    ensures Sound(Saved(s, key, format, packed, now).0)
  {
    var (t, p) := (Saved(s, key, format, packed, now).0, ObjectPath(key, format));
    if SafeKey(key) && !Blocked(s, p) {
      forall q | q in Ancestors(p) ensures q !in s.files && q != p {
        var k :| 0 <= k < |p| && q == p[..k];
      }
    }
  }

  /** A saved archive is what a later lookup of its key finds, whatever was saved or removed under
      other objects in between, longer keys in the same format included. */
  lemma {:induction false} SavedIsFound(s: Store, ops: seq<Op>, key: string, format: Format, saved: Object)
    requires Sound(s) && ObjectPath(key, format) in s.files && s.files[ObjectPath(key, format)] == saved
    requires forall op :: op in ops ==> ObjectPath(op.key, op.format) != ObjectPath(key, format)
    ensures var t := Run(s, ops);
            && Sound(t) && ObjectPath(key, format) in t.files && t.files[ObjectPath(key, format)] == saved
            && forall r :: Resolves(t, key, format, r) ==> r == Some(ObjectName(key, format))
    decreases |ops|
  {
    if ops != [] {
      assert ObjectPath(ops[0].key, ops[0].format) != ObjectPath(key, format);
      SavedIsFound(Step(s, ops[0]), ops[1..], key, format, saved);
    }
  }

  /** A save either stores the archive, or fails; a failure loses the archive that was stored there
      before, unless the key was refused, and never touches another. */
  lemma SaveExact(s: Store, key: string, format: Format, packed: Result<seq<Byte>>, now: nat)
    requires Sound(s)
    ensures var (t, r) := Saved(s, key, format, packed, now);
            var p := ObjectPath(key, format);
            && (r.Ok? <==> SafeKey(key) && !Blocked(s, p) && p !in s.dirs && packed.Ok?)
            && (r.Ok? ==> p in t.files && t.files[p] == Object(now, packed.value))
            && t.dirs == (if SafeKey(key) && !Blocked(s, p) then s.dirs + Ancestors(p) else s.dirs)
            && (r.Err? ==> r.errno == if !SafeKey(key) then INVAL else if Blocked(s, p) then NOTDIR
                                      else if p in s.dirs then ISDIR else packed.errno)
            && (r.Err? ==> (t.files == s.files <==> p !in s.files || !SafeKey(key)))
            && forall q :: q != p ==> (q in t.files <==> q in s.files) && (q in s.files ==> t.files[q] == s.files[q])
  {
    var (t, r) := Saved(s, key, format, packed, now);
    var p := ObjectPath(key, format);
    assert p !in Ancestors(p) by { forall k | 0 <= k < |p| ensures p[..k] != p {} }
    if r.Err? && p !in s.files { assert s.files - {p} == s.files; }
    if p in s.files {
      forall k | 0 <= k < |p| ensures p[..k] !in s.files { assert p[..k] in Ancestors(p); }
    }
  }

  /** A removal takes that object alone, and says whether it was there. */
  lemma RemoveExact(s: Store, key: string, format: Format)
    requires Sound(s)
    ensures var (t, r) := Removed(s, key, format);
            var p := ObjectPath(key, format);
            && t.dirs == s.dirs && (SafeKey(key) ==> p !in t.files)
            && (forall q :: q in s.files && (q != p || !SafeKey(key)) ==> q in t.files && t.files[q] == s.files[q])
            && (forall q :: q in t.files ==> q in s.files)
            && (r == Ok(true) <==> SafeKey(key) && p in s.files)
            && (r.Err? ==> r == Err(if SafeKey(key) then ISDIR else INVAL))
            && (r.Err? <==> !SafeKey(key) || p in s.dirs)
  {
  }

  /** Saving a directory, then anything on other objects, then restoring: the lookup finds the saved
      archive, and its nodes come back exactly when none is a link or named like the table. */
  lemma SaveThenRestore(c: Codec, s: Store, items: seq<Item>, key: string, format: Format, zstd: bool, now: nat, ops: seq<Op>)
    requires Faithful(c) && Sound(s)
    requires Saved(s, key, format, Packed(c, items, format, zstd), now).1.Ok?
    requires forall op :: op in ops ==> ObjectPath(op.key, op.format) != ObjectPath(key, format)
    ensures var t := Run(Saved(s, key, format, Packed(c, items, format, zstd), now).0, ops);
            var p := ObjectPath(key, format);
            && (forall r :: Resolves(t, key, format, r) ==> r == Some(ObjectName(key, format)))
            && p in t.files && Unpacked(c, t.files[p].bytes, format, zstd).Ok?
            && (Extracted(Unpacked(c, t.files[p].bytes, format, zstd).value) == items <==>
                  forall x :: x in items ==> !x.content.Link? && x.path != TOC_NAME)
  {
    var packed := Packed(c, items, format, zstd);
    RoundTripExact(c, items, format, zstd);
    SaveKeepsSound(s, key, format, packed, now);
    SavedIsFound(Saved(s, key, format, packed, now).0, ops, key, format, Object(now, packed.value));
  }
}
