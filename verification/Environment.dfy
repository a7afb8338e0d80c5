/** Environment lists: the in-place merge used for the guest's environment and for `configure`. */
module Environment {
  import opened Results

  type Entry = (string, string)

  /** The value of the first entry with a key. */
  function Lookup(entries: seq<Entry>, key: string): Option<string> {
    if entries == [] then None
    else if entries[0].0 == key then Some(entries[0].1)
    else Lookup(entries[1..], key)
  }

  /** The value of the last entry with a key. */
  function Last(extra: seq<Entry>, key: string): Option<string> {
    if extra == [] then None
    else if extra[|extra| - 1].0 == key then Some(extra[|extra| - 1].1)
    else Last(extra[..|extra| - 1], key)
  }

  predicate DistinctKeys(entries: seq<Entry>) {
    forall i, j :: 0 <= i < j < |entries| ==> entries[i].0 != entries[j].0
  }

  /** Overriding a list by later settings. */
  ghost predicate Overridden(base: seq<Entry>, extra: seq<Entry>, merged: seq<Entry>) {
    forall key :: Lookup(merged, key) == if Last(extra, key).Some? then Last(extra, key) else Lookup(base, key)
  }

  lemma {:induction false} LookupSet(entries: seq<Entry>, i: nat, key: string, value: string, other: string)
    requires i < |entries| && entries[i].0 == key && forall j :: 0 <= j < i ==> entries[j].0 != key
    ensures Lookup(entries[i := (key, value)], other) == if other == key then Some(value) else Lookup(entries, other)
    decreases i
  {
    var after := entries[i := (key, value)];
    if i > 0 {
      assert after[1..] == entries[1..][i - 1 := (key, value)];
      LookupSet(entries[1..], i - 1, key, value, other);
    } else {
      assert after[1..] == entries[1..];
    }
  }

  lemma {:induction false} LookupPush(entries: seq<Entry>, key: string, value: string, other: string)
    requires forall j :: 0 <= j < |entries| ==> entries[j].0 != key
    ensures Lookup(entries + [(key, value)], other) == if other == key then Some(value) else Lookup(entries, other)
    decreases |entries|
  {
    if entries != [] {
      assert (entries + [(key, value)])[1..] == entries[1..] + [(key, value)];
      LookupPush(entries[1..], key, value, other);
    }
  }

  lemma LastStep(extra: seq<Entry>, i: nat, key: string)
    requires i < |extra|
    ensures Last(extra[..i + 1], key) == if extra[i].0 == key then Some(extra[i].1) else Last(extra[..i], key)
  {
    assert extra[..i + 1][..i] == extra[..i];
  }

  /** Set one key: the first entry with it, or a new one at the end. */
  method Set(entries: seq<Entry>, key: string, value: string) returns (r: seq<Entry>)
    ensures forall k :: Lookup(r, k) == if k == key then Some(value) else Lookup(entries, k)
    ensures DistinctKeys(entries) ==> DistinctKeys(r)
    ensures |entries| <= |r| && forall i :: 0 <= i < |entries| ==> r[i].0 == entries[i].0
  {
    var i := 0;
    while i < |entries| && entries[i].0 != key
      invariant 0 <= i <= |entries|
      invariant forall j :: 0 <= j < i ==> entries[j].0 != key
    {
      i := i + 1;
    }
    if i < |entries| {
      r := entries[i := (key, value)];
      forall k ensures Lookup(r, k) == if k == key then Some(value) else Lookup(entries, k) {
        LookupSet(entries, i, key, value, k);
      }
    } else {
      r := entries + [(key, value)];
      forall k ensures Lookup(r, k) == if k == key then Some(value) else Lookup(entries, k) {
        LookupPush(entries, key, value, k);
      }
    }
  }

  /** Layer settings on a list in place: the last setting of a key wins, no key is repeated that was
      not, and the keys already there keep their places. */
  method Merge(base: seq<Entry>, extra: seq<Entry>) returns (entries: seq<Entry>)
    ensures Overridden(base, extra, entries)
    ensures DistinctKeys(base) ==> DistinctKeys(entries)
    ensures |base| <= |entries| && forall i :: 0 <= i < |base| ==> entries[i].0 == base[i].0
  {
    entries := base;
    for n := 0 to |extra|
      invariant Overridden(base, extra[..n], entries)
      invariant DistinctKeys(base) ==> DistinctKeys(entries)
      invariant |base| <= |entries| && forall i :: 0 <= i < |base| ==> entries[i].0 == base[i].0
    {
      forall key
        ensures Last(extra[..n + 1], key) == if extra[n].0 == key then Some(extra[n].1) else Last(extra[..n], key)
      {
        LastStep(extra, n, key);
      }
      entries := Set(entries, extra[n].0, extra[n].1);
    }
    assert extra[..|extra|] == extra;
  }

  const GUEST_ENV: seq<Entry> :=
    [("PATH", "/usr/local/sbin:/usr/local/bin:/usr/sbin:/usr/bin:/sbin:/bin"), ("HOME", "/")]

  predicate CString(s: string) { '\0' !in s }

  function Line(e: Entry): string { e.0 + "=" + e.1 }

  function Lines(entries: seq<Entry>): seq<string> { seq(|entries|, i requires 0 <= i < |entries| => Line(entries[i])) }

  /** The guest's setting of a key: the last extra, else the default. */
  function Effective(extra: seq<Entry>, key: string): Option<string> {
    if Last(extra, key).Some? then Last(extra, key) else Lookup(GUEST_ENV, key)
  }

  /** With nothing set the guest has a search path and "/" as its home, and nothing else. */
  lemma GuestDefaults(key: string)
    ensures Effective([], key) ==
            if key == "PATH" then Some("/usr/local/sbin:/usr/local/bin:/usr/sbin:/usr/bin:/sbin:/bin")
            else if key == "HOME" then Some("/") else None
  {
    var rest := GUEST_ENV[1..];
    assert rest == [("HOME", "/")] && rest[1..] == [];
    assert "PATH"[0] != "HOME"[0];
    assert Lookup(rest, key) == if key == "HOME" then Some("/") else None;
    assert Last([], key) == None;
  }

  /** With distinct keys, looking up is finding. */
  lemma {:induction false} LookupFinds(entries: seq<Entry>, i: nat)
    requires DistinctKeys(entries) && i < |entries|
    ensures Lookup(entries, entries[i].0) == Some(entries[i].1)
    decreases i
  {
    if i > 0 {
      assert entries[0].0 != entries[i].0;
      LookupFinds(entries[1..], i - 1);
    }
  }

  lemma {:induction false} LookupFound(entries: seq<Entry>, key: string)
    ensures Lookup(entries, key).Some? ==> exists i :: 0 <= i < |entries| && entries[i] == (key, Lookup(entries, key).value)
    decreases |entries|
  {
    if entries != [] && entries[0].0 != key {
      LookupFound(entries[1..], key);
      if Lookup(entries, key).Some? {
        var i :| 0 <= i < |entries[1..]| && entries[1..][i] == (key, Lookup(entries, key).value);
        assert entries[i + 1] == (key, Lookup(entries, key).value);
      }
    }
  }

  predicate HasNul(extra: seq<Entry>, key: string) {
    Effective(extra, key).Some? && !(CString(key) && CString(Effective(extra, key).value))
  }

  lemma NulInLine(extra: seq<Entry>, entries: seq<Entry>)
    requires Overridden(GUEST_ENV, extra, entries) && DistinctKeys(entries)
    ensures (exists i :: 0 <= i < |entries| && !CString(Line(entries[i]))) <==> exists key :: HasNul(extra, key)
  {
    forall i | 0 <= i < |entries| && !CString(Line(entries[i])) ensures HasNul(extra, entries[i].0) {
      LookupFinds(entries, i);
    }
    forall key | HasNul(extra, key) ensures exists i :: 0 <= i < |entries| && !CString(Line(entries[i])) {
      LookupFound(entries, key);
      var i :| 0 <= i < |entries| && entries[i] == (key, Lookup(entries, key).value);
    }
  }

  /** The guest's environment: one line a key, the defaults overridden by the extras; refused exactly
      when a setting that takes effect holds a NUL. */
  method BuildEnvp(extra: seq<Entry>) returns (r: Result<seq<string>>)
    ensures r.Ok? ==> exists entries :: r.value == Lines(entries) && DistinctKeys(entries)
                                        && forall key :: Lookup(entries, key) == Effective(extra, key)
    ensures r.Err? ==> r.errno == INVAL
    ensures r.Err? <==> exists key :: HasNul(extra, key)
  {
    var entries := Merge(GUEST_ENV, extra);
    NulInLine(extra, entries);
    if exists i :: 0 <= i < |entries| && !CString(Line(entries[i])) { return Err(INVAL); }
    assert forall key :: Lookup(entries, key) == Effective(extra, key);
    return Ok(Lines(entries));
  }

  /** getenv on such a list: the first line that starts with the name and an equals sign. */
  function Getenv(lines: seq<string>, name: string): Option<string> {
    if lines == [] then None
    else if name + "=" <= lines[0] then Some(lines[0][|name| + 1..])
    else Getenv(lines[1..], name)
  }

  /** Index of the first equals sign of a line. */
  function FirstEquals(s: string): (i: nat)
    requires '=' in s
    ensures i < |s| && s[i] == '=' && forall k :: 0 <= k < i ==> s[k] != '='
  {
    if s[0] == '=' then 0 else 1 + FirstEquals(s[1..])
  }

  /** The name a line settles, and the value it gives it: what getenv reads, not what was meant when
      the key itself holds an equals sign. */
  function Head(e: Entry): string { Line(e)[..FirstEquals(Line(e))] }

  function Tail(e: Entry): string { Line(e)[FirstEquals(Line(e)) + 1..] }

  lemma LineHead(e: Entry, name: string)
    requires '=' !in name
    ensures name + "=" <= Line(e) <==> Head(e) == name
    ensures Head(e) == name ==> Line(e)[|name| + 1..] == Tail(e)
  {
    var (line, i) := (Line(e), FirstEquals(Line(e)));
    if name + "=" <= line {
      assert line[|name|] == '=' && line[..|name|] == name;
      assert forall k :: 0 <= k < |name| ==> line[k] == name[k];
    }
    if Head(e) == name { assert line[..i] + "=" <= line; }
  }

  /** An ordinary key is its line's head. */
  lemma PlainHead(e: Entry)
    ensures '=' !in e.0 ==> Head(e) == e.0 && Tail(e) == e.1
    ensures '=' in e.0 ==> Head(e) != e.0
    ensures '=' !in Head(e)
  {
    var line := Line(e);
    assert line[|e.0|] == '=';
    if '=' !in e.0 {
      assert forall k :: 0 <= k < |e.0| ==> line[k] == e.0[k];
    }
  }

  /** getenv takes the first line whose head is the name; Lookup the first entry whose key is. */
  lemma {:induction false} GetenvFirst(entries: seq<Entry>, name: string, i: nat)
    requires '=' !in name && i <= |entries| && forall k :: 0 <= k < i ==> Head(entries[k]) != name
    ensures i < |entries| && Head(entries[i]) == name ==> Getenv(Lines(entries), name) == Some(Tail(entries[i]))
    ensures i == |entries| ==> Getenv(Lines(entries), name) == None
    decreases i
  {
    if entries != [] {
      assert Lines(entries)[1..] == Lines(entries[1..]);
      LineHead(entries[0], name);
      if i > 0 { GetenvFirst(entries[1..], name, i - 1); }
    }
  }

  lemma {:induction false} LookupFirst(entries: seq<Entry>, key: string, i: nat)
    requires i <= |entries| && forall k :: 0 <= k < i ==> entries[k].0 != key
    ensures i < |entries| && entries[i].0 == key ==> Lookup(entries, key) == Some(entries[i].1)
    ensures i == |entries| ==> Lookup(entries, key) == None
    decreases i
  {
    if i > 0 { LookupFirst(entries[1..], key, i - 1); }
  }

  /** The index of the first line with a head, or the length. */
  function FirstHead(entries: seq<Entry>, name: string, from: nat): (i: nat)
    requires from <= |entries| && forall k :: 0 <= k < from ==> Head(entries[k]) != name
    ensures i <= |entries| && (forall k :: 0 <= k < i ==> Head(entries[k]) != name)
    ensures i < |entries| ==> Head(entries[i]) == name
    decreases |entries| - from
  {
    if from == |entries| || Head(entries[from]) == name then from else FirstHead(entries, name, from + 1)
  }

  /** The guest reads a name as it was set. */
  predicate Seen(entries: seq<Entry>, name: string) { Getenv(Lines(entries), name) == Lookup(entries, name) }

  /** A key with an equals sign does no harm if an earlier line settles the name before the sign, or
      the value it gives that name is the one set. */
  predicate Harmless(entries: seq<Entry>, i: nat)
    requires i < |entries|
  {
    '=' in entries[i].0 && Head(entries[i]) != "" ==>
      (exists j :: 0 <= j < i && Head(entries[j]) == Head(entries[i])) || Lookup(entries, Head(entries[i])) == Some(Tail(entries[i]))
  }

  /** One name is seen as set exactly when the first line with that head is an ordinary one or agrees. */
  lemma SeenAt(entries: seq<Entry>, name: string)
    requires '=' !in name
    ensures var i := FirstHead(entries, name, 0);
            Seen(entries, name) <==>
              i == |entries| || '=' !in entries[i].0 || Lookup(entries, name) == Some(Tail(entries[i]))
  {
    var i := FirstHead(entries, name, 0);
    GetenvFirst(entries, name, i);
    forall k | 0 <= k < i ensures entries[k].0 != name { PlainHead(entries[k]); }
    if i == |entries| {
      LookupFirst(entries, name, i);
    } else {
      PlainHead(entries[i]);
      if '=' !in entries[i].0 { LookupFirst(entries, name, i); }
    }
  }

  /** The guest's getenv answers every proper name as the merged list does, exactly when every key with
      an equals sign is harmless. */
  lemma GuestSeesExact(entries: seq<Entry>)
    ensures (forall name :: name != "" && '=' !in name ==> Seen(entries, name)) <==>
            (forall i :: 0 <= i < |entries| ==> Harmless(entries, i))
  {
    if forall i :: 0 <= i < |entries| ==> Harmless(entries, i) {
      forall name | name != "" && '=' !in name ensures Seen(entries, name) {
        SeenAt(entries, name);
        var i := FirstHead(entries, name, 0);
        if i < |entries| { assert Harmless(entries, i); }
      }
    }
    if forall name :: name != "" && '=' !in name ==> Seen(entries, name) {
      forall i | 0 <= i < |entries| ensures Harmless(entries, i) {
        var name := Head(entries[i]);
        PlainHead(entries[i]);
        if '=' in entries[i].0 && name != "" {
          SeenAt(entries, name);
          assert Seen(entries, name);
          assert FirstHead(entries, name, 0) <= i;
        }
      }
    }
  }

  /** So with no equals sign in any key nothing is misread. */
  lemma GuestSees(entries: seq<Entry>, name: string)
    requires name != "" && '=' !in name && forall i :: 0 <= i < |entries| ==> '=' !in entries[i].0
    ensures Getenv(Lines(entries), name) == Lookup(entries, name)
  {
    GuestSeesExact(entries);
    assert forall i :: 0 <= i < |entries| ==> Harmless(entries, i);
    assert Seen(entries, name);
  }

  /** A key with an equals sign before the name it cuts to shadows that name. */
  lemma EqualsInKeyShadows(name: string, rest: string, value: string, meant: string)
    requires name != "" && '=' !in name && meant != rest + "=" + value
    ensures var entries := [(name + "=" + rest, value), (name, meant)];
            Lookup(entries, name) == Some(meant) && Getenv(Lines(entries), name) == Some(rest + "=" + value)
  {
    var entries := [(name + "=" + rest, value), (name, meant)];
    var line := Line(entries[0]);
    assert line == name + ("=" + (rest + "=" + value));
    assert name + "=" <= line;
    LineHead(entries[0], name);
    GetenvFirst(entries, name, 0);
    assert line[|name| + 1..] == rest + "=" + value;
    assert entries[1..] == [(name, meant)];
    assert Lookup(entries[1..], name) == Some(meant);
  }
}
