/** The daemon's registry: sandboxes, sessions, name allocation, and pushing a new configuration to
    live sessions. One operation at a time; identifiers drawn at random arrive as arguments. */
module Registry {
  import opened Results
  import opened Cgroups
  import opened Environment

  // ---------------------------------------------------------------- a live session

  /** What binds a running guest: its network policy, and its cgroup if it has one. */
  datatype Settings = Settings(network: bool, listen: bool, cgroup: Option<Files>)

  /** The cgroup after asking for limits: a live one is rewritten, a missing one is made if any limit
      is asked for, and a failed creation leaves the guest without one. */
  function Limited(cgroup: Option<Files>, limits: Limits, host: Host): Option<Files> {
    match cgroup
    case Some(f) => Some(Updated(f, limits, host.writable).0)
    case None =>
      if limits != NO_LIMITS && CanCreate(limits, host) then Some(Enforcing(limits, host.writable)) else None
  }

  class Session {
    const host: Host
    var network: bool
    var listen: bool
    var cgroup: Cgroup?

    ghost predicate Valid()
      reads this, cgroup
    {
      cgroup != null ==> cgroup.writable == host.writable
    }

    ghost function Now(): Settings
      reads this, cgroup
    {
      Settings(network, listen, if cgroup == null then None else Some(cgroup.files))
    }

    /** Spawn: the policy of the options, and a cgroup when they ask for limits. */
    constructor (network: bool, listen: bool, limits: Limits, host: Host)
      ensures Valid() && this.host == host && (cgroup != null ==> fresh(cgroup))
      ensures Now() == Settings(network, listen, Limited(None, limits, host))
    {
      this.host, this.network, this.listen, cgroup := host, network, listen, null;
      new;
      MakeCgroup(limits);
    }

    method MakeCgroup(limits: Limits)
      requires cgroup == null
      modifies this`cgroup
      ensures Valid() && (cgroup != null ==> fresh(cgroup))
      ensures Now() == old(Now()).(cgroup := Limited(None, limits, host))
    {
      cgroup := Cgroup.Apply(limits, host);
    }

    method SetNetworkPolicy(network: bool, listen: bool)
      requires Valid()
      modifies this`network, this`listen
      ensures Valid() && Now() == old(Now()).(network := network, listen := listen)
    {
      this.network, this.listen := network, listen;
    }

    method UpdateLimits(limits: Limits)
      requires Valid()
      modifies this`cgroup, cgroup
      ensures Valid() && (cgroup == old(cgroup) || fresh(cgroup))
      ensures Now() == old(Now()).(cgroup := Limited(old(Now()).cgroup, limits, host))
    {
      if cgroup != null {
        var ok := cgroup.Update(limits);
      } else {
        MakeCgroup(limits);
      }
    }
  }

  // ---------------------------------------------------------------- the maps

  datatype Sandbox = Sandbox(id: string, name: string, uid: nat, network: bool, listen: bool, env: seq<Entry>, limits: Limits)

  datatype Live = Live(uid: nat, ephemeral: bool, settings: Settings)

  datatype Reg = Reg(sandboxes: map<string, Sandbox>, sessions: map<string, Live>)

  // ---------------------------------------------------------------- names

  function Decimal(n: nat): string {
    if n < 10 then [Digit(n)] else Decimal(n / 10) + [Digit(n % 10)]
  }

  function Digit(d: nat): char
    requires d < 10
  {
    "0123456789"[d]
  }

  lemma {:induction false} DecimalInjective(m: nat, n: nat)
    requires Decimal(m) == Decimal(n)
    ensures m == n
    decreases m
  {
    var (x, y) := (Decimal(m), Decimal(n));
    if m >= 10 && n >= 10 {
      assert x[..|x| - 1] == Decimal(m / 10) && y[..|y| - 1] == Decimal(n / 10);
      DecimalInjective(m / 10, n / 10);
    } else {
    }
  }

  predicate Taken(m: map<string, Sandbox>, name: string) { exists id :: id in m && m[id].name == name }

  function Suffixed(base: string, n: nat): string { base + Decimal(n) }

  /** The name a new sandbox gets: the base if free, else the base with the least free suffix from 2 up. */
  ghost predicate Allotted(m: map<string, Sandbox>, base: string, name: string) {
    && !Taken(m, name)
    && (name == base
        || (Taken(m, base) && exists n :: n >= 2 && name == Suffixed(base, n)
                                          && forall k :: 2 <= k < n ==> Taken(m, Suffixed(base, k))))
  }

  function Names(m: map<string, Sandbox>): set<string> { set id | id in m :: m[id].name }

  function Tried(base: string, n: nat): set<string> { set k | 2 <= k < n :: Suffixed(base, k) }

  lemma SuffixesDiffer(base: string, j: nat, k: nat)
    requires j != k
    ensures Suffixed(base, j) != Suffixed(base, k)
  {
    if Suffixed(base, j) == Suffixed(base, k) {
      assert Suffixed(base, j)[|base|..] == Decimal(j) && Suffixed(base, k)[|base|..] == Decimal(k);
      DecimalInjective(j, k);
    }
  }

  lemma TriedStep(base: string, n: nat)
    requires n >= 2
    ensures Tried(base, n + 1) == Tried(base, n) + {Suffixed(base, n)}
    ensures Suffixed(base, n) !in Tried(base, n)
  {
    forall k | 2 <= k < n ensures Suffixed(base, k) != Suffixed(base, n) { SuffixesDiffer(base, k, n); }
    assert Suffixed(base, n) in Tried(base, n + 1);
  }

  /** The candidates tried are all different, so the loop is bounded by the number of names. */
  lemma {:induction false} TriedCount(base: string, n: nat)
    requires n >= 2
    ensures |Tried(base, n)| == n - 2
    decreases n
  {
    if n == 2 {
      assert Tried(base, n) == {};
    } else {
      TriedCount(base, n - 1);
      TriedStep(base, n - 1);
    }
  }

  lemma {:induction false} SubsetCard(a: set<string>, b: set<string>)
    requires a <= b
    ensures |a| <= |b|
    decreases a
  {
    if a != {} {
      var x :| x in a;
      SubsetCard(a - {x}, b - {x});
    }
  }

  lemma TriedFits(m: map<string, Sandbox>, base: string, n: nat)
    requires n >= 2 && forall k :: 2 <= k < n ==> Taken(m, Suffixed(base, k))
    ensures n - 2 <= |Names(m)|
  {
    TriedCount(base, n);
    forall c | c in Tried(base, n) ensures c in Names(m) {
      var k :| 2 <= k < n && c == Suffixed(base, k);
      var id :| id in m && m[id].name == c;
    }
    SubsetCard(Tried(base, n), Names(m));
  }

  method PickName(m: map<string, Sandbox>, base: string) returns (name: string)
    ensures Allotted(m, base, name)
  {
    if !Taken(m, base) { return base; }
    var n := 2;
    while true
      invariant n >= 2 && forall k :: 2 <= k < n ==> Taken(m, Suffixed(base, k))
      decreases |Names(m)| + 2 - n
    {
      var candidate := base + Decimal(n);
      if !Taken(m, candidate) {
        assert candidate == Suffixed(base, n);
        return candidate;
      }
      TriedFits(m, base, n + 1);
      n := n + 1;
    }
  }

  /** Only one name qualifies. */
  lemma AllottedUnique(m: map<string, Sandbox>, base: string, x: string, y: string)
    requires Allotted(m, base, x) && Allotted(m, base, y)
    ensures x == y
  {
    if x != base && y != base {
      var i :| i >= 2 && x == Suffixed(base, i) && forall k :: 2 <= k < i ==> Taken(m, Suffixed(base, k));
      var j :| j >= 2 && y == Suffixed(base, j) && forall k :: 2 <= k < j ==> Taken(m, Suffixed(base, k));
    }
  }

  // ---------------------------------------------------------------- references

  /** A reference is an id if it is one, else a name. */
  predicate ResolvesTo(m: map<string, Sandbox>, r: string, id: string) {
    id in m && (id == r || (r !in m && m[id].name == r))
  }

  // ---------------------------------------------------------------- the operations as steps

  datatype Op =
    | Create(base: string, id: string, uid: nat, name: string)
    | Free(id: string)
    | Configure(id: string, network: Option<bool>, listen: Option<bool>, limits: Option<Limits>, env: seq<Entry>)
    | StartIn(id: string, sid: string)
    | StartAlone(uid: nat, sid: string)
    | End(sid: string)

  function Or<T>(o: Option<T>, otherwise: T): T { if o.Some? then o.value else otherwise }

  function Configured(s: Sandbox, op: Op): Sandbox
    requires op.Configure?
  {
    s.(network := Or(op.network, s.network), listen := Or(op.listen, s.listen), limits := Or(op.limits, s.limits), env := op.env)
  }

  /** The settings a session of the sandbox is moved to. */
  function Pushed(live: Live, s: Sandbox, host: Host): Live {
    if live.uid == s.uid then
      live.(settings := Settings(s.network, s.listen, Limited(live.settings.cgroup, s.limits, host)))
    else live
  }

  /** Identifiers drawn at random are new; the rest is what the code checks first. */
  ghost predicate Enabled(reg: Reg, op: Op) {
    match op
    case Create(base, id, uid, name) =>
      && id !in reg.sandboxes && Allotted(reg.sandboxes, base, name)
      && (forall i :: i in reg.sandboxes ==> reg.sandboxes[i].uid != uid)
      && (forall s :: s in reg.sessions ==> reg.sessions[s].uid != uid)
    case Free(id) => id in reg.sandboxes
    case Configure(id, _, _, _, _) => id in reg.sandboxes
    case StartIn(id, sid) => id in reg.sandboxes && sid !in reg.sessions
    case StartAlone(uid, sid) =>
      sid !in reg.sessions && (forall i :: i in reg.sandboxes ==> reg.sandboxes[i].uid != uid)
    case End(_) => true
  }

  function Apply(reg: Reg, op: Op, host: Host): Reg {
    match op
    case Create(base, id, uid, name) =>
      reg.(sandboxes := reg.sandboxes[id := Sandbox(id, name, uid, true, false, [], NO_LIMITS)])
    case Free(id) =>
      if id !in reg.sandboxes then reg
      else
        var uid := reg.sandboxes[id].uid;
        Reg(reg.sandboxes - {id}, map s | s in reg.sessions && reg.sessions[s].uid != uid :: reg.sessions[s])
    case Configure(id, _, _, _, _) =>
      if id !in reg.sandboxes then reg
      else
        var st := Configured(reg.sandboxes[id], op);
        Reg(reg.sandboxes[id := st], map s | s in reg.sessions :: Pushed(reg.sessions[s], st, host))
    case StartIn(id, sid) =>
      if id !in reg.sandboxes then reg
      else
        var st := reg.sandboxes[id];
        reg.(sessions := reg.sessions[sid := Live(st.uid, false, Settings(st.network, st.listen, Limited(None, st.limits, host)))])
    case StartAlone(uid, sid) =>
      reg.(sessions := reg.sessions[sid := Live(uid, true, Settings(true, false, None))])
    case End(sid) => reg.(sessions := reg.sessions - {sid})
  }

  // ---------------------------------------------------------------- the registry object

  class Registry {
    const host: Host
    var sandboxes: map<string, Sandbox>
    var sessions: map<string, Live>

    ghost function State(): Reg
      reads this
    {
      Reg(sandboxes, sessions)
    }

    constructor (host: Host)
      ensures this.host == host && State() == Reg(map[], map[])
    {
      this.host, sandboxes, sessions := host, map[], map[];
    }

    method CreateSandbox(name: Option<string>, random: string, id: string, uid: nat) returns (info: Sandbox)
      requires id !in sandboxes
      requires forall i :: i in sandboxes ==> sandboxes[i].uid != uid
      requires forall s :: s in sessions ==> sessions[s].uid != uid
      modifies this`sandboxes
      ensures var op := Create(if name.Some? && name.value != "" then name.value else random, id, uid, info.name);
              Enabled(old(State()), op) && State() == Apply(old(State()), op, host)
      ensures id in sandboxes && info == sandboxes[id]
    {
      var base := if name.Some? && name.value != "" then name.value else random;
      var chosen := PickName(sandboxes, base);
      info := Sandbox(id, chosen, uid, true, false, [], NO_LIMITS);
      sandboxes := sandboxes[id := info];
    }

    method Resolve(r: string) returns (found: Option<string>)
      ensures found.Some? ==> ResolvesTo(sandboxes, r, found.value)
      ensures found.None? ==> forall id :: !ResolvesTo(sandboxes, r, id)
    {
      if r in sandboxes { return Some(r); }
      var left := sandboxes.Keys;
      while left != {}
        invariant left <= sandboxes.Keys
        invariant forall id :: id in sandboxes && id !in left ==> sandboxes[id].name != r
        decreases left
      {
        var id :| id in left;
        if sandboxes[id].name == r { return Some(id); }
        left := left - {id};
      }
      return None;
    }

    method FreeSandbox(r: string) returns (freed: Option<string>)
      modifies this
      ensures freed.Some? ==> ResolvesTo(old(sandboxes), r, freed.value)
                              && State() == Apply(old(State()), Free(freed.value), host)
      ensures freed.None? ==> State() == old(State()) && forall id :: !ResolvesTo(sandboxes, r, id)
    {
      freed := Resolve(r);
      if freed.None? { return; }
      var st := sandboxes[freed.value];
      sandboxes := sandboxes - {freed.value};
      var doomed := set sid | sid in sessions && sessions[sid].uid == st.uid;
      sessions := sessions - doomed;
      assert sessions == Apply(old(State()), Free(freed.value), host).sessions;
    }

    /** Push a sandbox's configuration to every session under its uid. */
    method PushSettings(st: Sandbox)
      modifies this`sessions
      ensures sessions == map s | s in old(sessions) :: Pushed(old(sessions)[s], st, host)
    {
      var left := sessions.Keys;
      ghost var was := sessions;
      while left != {}
        invariant left <= was.Keys == sessions.Keys
        invariant forall s :: s in left ==> sessions[s] == was[s]
        invariant forall s :: s in was && s !in left ==> sessions[s] == Pushed(was[s], st, host)
        decreases left
      {
        var sid :| sid in left;
        var live := sessions[sid];
        if live.uid == st.uid {
          var now := live.settings.(network := st.network, listen := st.listen);
          now := now.(cgroup := Limited(now.cgroup, st.limits, host));
          sessions := sessions[sid := live.(settings := now)];
        }
        left := left - {sid};
      }
    }

    /** Change a sandbox's configuration and push it to its live sessions. */
    method ConfigureSandbox(r: string, network: Option<bool>, listen: Option<bool>, limits: Option<Limits>, extra: seq<Entry>)
      returns (done: Option<string>, ghost env: seq<Entry>)
      modifies this
      ensures done.Some? ==>
                && ResolvesTo(old(sandboxes), r, done.value)
                && Overridden(old(sandboxes)[done.value].env, extra, env)
                && State() == Apply(old(State()), Configure(done.value, network, listen, limits, env), host)
      ensures done.None? ==> State() == old(State()) && forall id :: !ResolvesTo(sandboxes, r, id)
    {
      env := [];
      done := Resolve(r);
      if done.None? { return; }
      var id := done.value;
      var st := sandboxes[id];
      if network.Some? { st := st.(network := network.value); }
      if listen.Some? { st := st.(listen := listen.value); }
      if limits.Some? { st := st.(limits := limits.value); }
      var merged := Merge(st.env, extra);
      st, env := st.(env := merged), merged;
      assert st == Configured(sandboxes[id], Configure(id, network, listen, limits, env));
      sandboxes := sandboxes[id := st];
      PushSettings(st);
    }

    /** Start a session in a sandbox, or alone under a new uid; `spawned` says whether the guest came up. */
    method StartSession(r: string, command: string, pty: bool, uid: nat, sid: string, spawned: bool) returns (ok: bool)
      requires sid !in sessions && forall i :: i in sandboxes ==> sandboxes[i].uid != uid
      modifies this`sessions
      ensures ok ==> spawned && (pty || command != "")
      ensures ok && r == "" ==> State() == Apply(old(State()), StartAlone(uid, sid), host)
      ensures ok && r != "" ==> exists id :: ResolvesTo(sandboxes, r, id)
                                             && State() == Apply(old(State()), StartIn(id, sid), host)
      ensures !ok ==> State() == old(State())
      ensures !ok <==> !spawned || (!pty && command == "") || (r != "" && forall id :: !ResolvesTo(sandboxes, r, id))
    {
      var live;
      ghost var at := "";
      if r == "" {
        live := Live(uid, true, Settings(true, false, Limited(None, NO_LIMITS, host)));
      } else {
        var found := Resolve(r);
        if found.None? { return false; }
        at := found.value;
        var st := sandboxes[found.value];
        live := Live(st.uid, false, Settings(st.network, st.listen, Limited(None, st.limits, host)));
      }
      if !pty && command == "" { return false; }
      if !spawned { return false; }
      sessions := sessions[sid := live];
      assert r != "" ==> ResolvesTo(sandboxes, r, at) && State() == Apply(old(State()), StartIn(at, sid), host);
      ok := true;
    }

    method EndSession(sid: string)
      modifies this`sessions
      ensures State() == Apply(old(State()), End(sid), host)
    {
      sessions := sessions - {sid};
    }

    /** A new sandbox from a snapshot; `copied` says whether the overlay could be filled. */
    method BranchSandbox(name: string, random: string, id: string, uid: nat, copied: bool) returns (info: Option<Sandbox>)
      requires id !in sandboxes
      requires forall i :: i in sandboxes ==> sandboxes[i].uid != uid
      requires forall s :: s in sessions ==> sessions[s].uid != uid
      modifies this
      ensures info.Some? <==> copied
      ensures info.Some? ==>
                var op := Create(if name != "" then name else random, id, uid, info.value.name);
                Enabled(old(State()), op) && State() == Apply(old(State()), op, host) && info.value == sandboxes[id]
      ensures info.None? ==> State() == old(State())
    {
      ghost var was := State();
      var made := CreateSandbox(if name != "" then Some(name) else None, random, id, uid);
      if !copied {
        ghost var now := State();
        var freed := FreeSandbox(id);
        assert ResolvesTo(now.sandboxes, id, id);
        CreateThenFree(was, if name != "" then name else random, id, uid, made.name, host);
        return None;
      }
      return Some(made);
    }

    /** A new sandbox from a live one's overlay. */
    method ForkSandbox(r: string, name: string, random: string, id: string, uid: nat, copied: bool) returns (info: Option<Sandbox>)
      requires id !in sandboxes
      requires forall i :: i in sandboxes ==> sandboxes[i].uid != uid
      requires forall s :: s in sessions ==> sessions[s].uid != uid
      modifies this
      ensures info.Some? <==> copied && exists src :: ResolvesTo(old(sandboxes), r, src)
      ensures info.Some? ==>
                var op := Create(if name != "" then name else random, id, uid, info.value.name);
                Enabled(old(State()), op) && State() == Apply(old(State()), op, host) && info.value == sandboxes[id]
      ensures info.None? ==> State() == old(State())
    {
      var src := Resolve(r);
      if src.None? { return None; }
      info := BranchSandbox(name, random, id, uid, copied);
    }
  }

  /** Making a sandbox and freeing it at once is doing nothing. */
  lemma CreateThenFree(reg: Reg, base: string, id: string, uid: nat, name: string, host: Host)
    requires Enabled(reg, Create(base, id, uid, name))
    ensures Apply(Apply(reg, Create(base, id, uid, name), host), Free(id), host) == reg
  {
    var mid := Apply(reg, Create(base, id, uid, name), host);
    assert mid.sandboxes - {id} == reg.sandboxes;
    assert (map s | s in reg.sessions && reg.sessions[s].uid != uid :: reg.sessions[s]) == reg.sessions;
  }

  // ---------------------------------------------------------------- what every operation keeps

  function Bound(cgroup: Option<Files>): Files { if cgroup.Some? then cgroup.value else FRESH }

  /** A host on which every limit can be set. */
  predicate Ready(host: Host) { host.mounted && host.makes && HARD <= host.writable }

  /** A session's live settings are those its sandbox stores. */
  predicate Follows(live: Live, s: Sandbox, host: Host) {
    && live.uid == s.uid && live.settings.network == s.network && live.settings.listen == s.listen
    && Possible(Bound(live.settings.cgroup), host.writable)
    && (Ready(host) ==> Bound(live.settings.cgroup) == Enforcing(s.limits, host.writable))
  }

  /** A session belongs to a live sandbox and follows it, or is a one-shot under a uid of its own. */
  ghost predicate Owned(reg: Reg, live: Live, host: Host) {
    if live.ephemeral then forall id :: id in reg.sandboxes ==> reg.sandboxes[id].uid != live.uid
    else exists id :: id in reg.sandboxes && Follows(live, reg.sandboxes[id], host)
  }

  predicate Distinct(m: map<string, Sandbox>) {
    && (forall id :: id in m ==> m[id].id == id)
    && (forall i, j :: i in m && j in m && i != j ==> m[i].name != m[j].name && m[i].uid != m[j].uid)
  }

  ghost predicate Inv(reg: Reg, host: Host) {
    Distinct(reg.sandboxes) && forall s :: s in reg.sessions ==> Owned(reg, reg.sessions[s], host)
  }

  /** Limits asked of a session, whatever it had, bind it. */
  lemma LimitedFollows(cgroup: Option<Files>, limits: Limits, host: Host)
    requires Possible(Bound(cgroup), host.writable)
    ensures Possible(Bound(Limited(cgroup, limits, host)), host.writable)
    ensures Ready(host) ==> Bound(Limited(cgroup, limits, host)) == Enforcing(limits, host.writable)
  {
    if cgroup.Some? {
      UpdateExact(cgroup.value, limits, host.writable);
    }
  }

  /** Limits asked of a session bind it exactly when, with no cgroup so far, none are asked for or one can
      be made, and with a live one, every file the update does not reach held already what they want. */
  predicate Binds(cgroup: Option<Files>, limits: Limits, host: Host) {
    match cgroup
    case None => limits == NO_LIMITS || CanCreate(limits, host)
    case Some(f) => forall k :: Reached(k, host.writable) || At(f, k) == At(Enforcing(limits, host.writable), k)
  }

  lemma LimitedExact(cgroup: Option<Files>, limits: Limits, host: Host)
    ensures Limited(cgroup, limits, host).Some? <==> cgroup.Some? || (limits != NO_LIMITS && CanCreate(limits, host))
    ensures Bound(Limited(cgroup, limits, host)) == Enforcing(limits, host.writable) <==> Binds(cgroup, limits, host)
  {
    if cgroup.Some? {
      UpdateEnforcesExact(cgroup.value, limits, host.writable);
    } else {
      SomethingAsked(limits);
      if limits != NO_LIMITS && !CanCreate(limits, host) {
        var k :| k in HARD && Asks(limits, k);
        assert At(FRESH, k) == Max && At(Enforcing(limits, host.writable), k) == Wanted(limits, k);
      }
    }
  }

  /** After a configure call a session of that sandbox follows it exactly when the new limits bind it. */
  lemma ConfigureExact(reg: Reg, op: Op, host: Host, sid: string)
    requires op.Configure? && op.id in reg.sandboxes && sid in reg.sessions
    requires reg.sessions[sid].uid == reg.sandboxes[op.id].uid
    ensures var (live, st) := (Apply(reg, op, host).sessions[sid], Apply(reg, op, host).sandboxes[op.id]);
            && live.settings.network == st.network && live.settings.listen == st.listen
            && (Bound(live.settings.cgroup) == Enforcing(st.limits, host.writable) <==>
                  Binds(reg.sessions[sid].settings.cgroup, Or(op.limits, reg.sandboxes[op.id].limits), host))
  {
    LimitedExact(reg.sessions[sid].settings.cgroup, Or(op.limits, reg.sandboxes[op.id].limits), host);
  }

  /** What a configure call stores: each setting as asked for, or as it was; and nothing else of the
      sandbox, no other sandbox, and no session of another uid. The uid's own sessions get what is stored. */
  lemma ConfigureStores(reg: Reg, op: Op, host: Host)
    requires op.Configure? && op.id in reg.sandboxes
    ensures var (after, was) := (Apply(reg, op, host), reg.sandboxes[op.id]);
            && after.sandboxes.Keys == reg.sandboxes.Keys && after.sessions.Keys == reg.sessions.Keys
            && var st := after.sandboxes[op.id];
            && st.network == (if op.network.Some? then op.network.value else was.network)
            && st.listen == (if op.listen.Some? then op.listen.value else was.listen)
            && st.limits == (if op.limits.Some? then op.limits.value else was.limits)
            && st.env == op.env && st.id == was.id && st.name == was.name && st.uid == was.uid
            && (forall i :: i in reg.sandboxes && i != op.id ==> after.sandboxes[i] == reg.sandboxes[i])
            && (forall s :: s in reg.sessions && reg.sessions[s].uid != was.uid ==> after.sessions[s] == reg.sessions[s])
            && (forall s :: s in reg.sessions && reg.sessions[s].uid == was.uid ==>
                  && after.sessions[s].uid == was.uid && after.sessions[s].ephemeral == reg.sessions[s].ephemeral
                  && after.sessions[s].settings.network == (if op.network.Some? then op.network.value else was.network)
                  && after.sessions[s].settings.listen == (if op.listen.Some? then op.listen.value else was.listen)
                  && after.sessions[s].settings.cgroup == Limited(reg.sessions[s].settings.cgroup, st.limits, host))
  {
  }

  /** Freeing a sandbox ends exactly the sessions under its uid. */
  lemma FreeTakes(reg: Reg, id: string, host: Host)
    requires id in reg.sandboxes
    ensures var after := Apply(reg, Free(id), host);
            && after.sandboxes == reg.sandboxes - {id}
            && (forall s :: s in after.sessions <==> s in reg.sessions && reg.sessions[s].uid != reg.sandboxes[id].uid)
            && (forall s :: s in after.sessions ==> after.sessions[s] == reg.sessions[s])
  {
  }

  /** A session started in a sandbox is bound by what is stored there; one started alone has the network,
      may not listen, and has no cgroup. Nothing else changes. */
  lemma StartGives(reg: Reg, op: Op, host: Host)
    requires (op.StartIn? || op.StartAlone?) && Enabled(reg, op)
    ensures var after := Apply(reg, op, host);
            && after.sandboxes == reg.sandboxes && after.sessions - {op.sid} == reg.sessions && op.sid in after.sessions
            && var live := after.sessions[op.sid];
            && (op.StartAlone? ==> live == Live(op.uid, true, Settings(true, false, None)))
            && (op.StartIn? ==>
                  var st := reg.sandboxes[op.id];
                  && live.uid == st.uid && !live.ephemeral && live.settings.network == st.network && live.settings.listen == st.listen
                  && (live.settings.cgroup.Some? <==> st.limits != NO_LIMITS && CanCreate(st.limits, host))
                  && (live.settings.cgroup.Some? ==> live.settings.cgroup.value == Enforcing(st.limits, host.writable)))
  {
    assert reg.sessions[op.sid := Apply(reg, op, host).sessions[op.sid]] - {op.sid} == reg.sessions;
  }

  /** Starting a session and ending it is doing nothing. */
  lemma StartThenEnd(reg: Reg, op: Op, host: Host)
    requires (op.StartIn? || op.StartAlone?) && Enabled(reg, op)
    ensures Apply(Apply(reg, op, host), End(op.sid), host) == reg
  {
    StartGives(reg, op, host);
  }

  /** An id is found by itself, even if it is some other sandbox's name; any other reference by name. */
  lemma IdsBeforeNames(m: map<string, Sandbox>, r: string, id: string)
    ensures r in m ==> (ResolvesTo(m, r, id) <==> id == r)
    ensures r !in m ==> (ResolvesTo(m, r, id) <==> id in m && m[id].name == r)
  {
  }

  /** A reference resolves to one sandbox at most, in whatever order the map is walked. */
  lemma ResolveUnique(m: map<string, Sandbox>, r: string, i: string, j: string)
    requires Distinct(m) && ResolvesTo(m, r, i) && ResolvesTo(m, r, j)
    ensures i == j
  {
  }

  lemma CreateKeepsInv(reg: Reg, op: Op, host: Host)
    requires Inv(reg, host) && op.Create? && Enabled(reg, op)
    ensures Inv(Apply(reg, op, host), host)
  {
    var after := Apply(reg, op, host);
    forall s | s in after.sessions ensures Owned(after, after.sessions[s], host) {
      var live := reg.sessions[s];
      assert Owned(reg, live, host);
      if !live.ephemeral {
        var id :| id in reg.sandboxes && Follows(live, reg.sandboxes[id], host);
        assert after.sandboxes[id] == reg.sandboxes[id];
      }
    }
  }

  lemma FreeKeepsInv(reg: Reg, op: Op, host: Host)
    requires Inv(reg, host) && op.Free? && Enabled(reg, op)
    ensures Inv(Apply(reg, op, host), host)
  {
    var after := Apply(reg, op, host);
    forall s | s in after.sessions ensures Owned(after, after.sessions[s], host) {
      var live := reg.sessions[s];
      assert Owned(reg, live, host);
      if !live.ephemeral {
        var id :| id in reg.sandboxes && Follows(live, reg.sandboxes[id], host);
        assert id in after.sandboxes;
      }
    }
  }

  lemma ConfigureKeepsInv(reg: Reg, op: Op, host: Host)
    requires Inv(reg, host) && op.Configure? && Enabled(reg, op)
    ensures Inv(Apply(reg, op, host), host)
  {
    var after := Apply(reg, op, host);
    var st := Configured(reg.sandboxes[op.id], op);
    assert Distinct(after.sandboxes);
    forall s | s in after.sessions ensures Owned(after, after.sessions[s], host) {
      var live := reg.sessions[s];
      assert Owned(reg, live, host);
      if !live.ephemeral {
        var id :| id in reg.sandboxes && Follows(live, reg.sandboxes[id], host);
        if id == op.id {
          LimitedFollows(live.settings.cgroup, st.limits, host);
          assert Follows(after.sessions[s], after.sandboxes[id], host);
        } else {
          assert Follows(after.sessions[s], after.sandboxes[id], host);
        }
      }
    }
  }

  lemma StartKeepsInv(reg: Reg, op: Op, host: Host)
    requires Inv(reg, host) && (op.StartIn? || op.StartAlone?) && Enabled(reg, op)
    ensures Inv(Apply(reg, op, host), host)
  {
    var after := Apply(reg, op, host);
    forall s | s in after.sessions ensures Owned(after, after.sessions[s], host) {
      if s != op.sid {
        assert Owned(reg, reg.sessions[s], host);
      } else if op.StartIn? {
        LimitedFollows(None, reg.sandboxes[op.id].limits, host);
        assert Follows(after.sessions[s], after.sandboxes[op.id], host);
      }
    }
  }

  lemma EndKeepsInv(reg: Reg, op: Op, host: Host)
    requires Inv(reg, host) && op.End?
    ensures Inv(Apply(reg, op, host), host)
  {
    var after := Apply(reg, op, host);
    forall s | s in after.sessions ensures Owned(after, after.sessions[s], host) {
      assert Owned(reg, reg.sessions[s], host);
    }
  }

  lemma StepKeepsInv(reg: Reg, op: Op, host: Host)
    requires Inv(reg, host) && Enabled(reg, op)
    ensures Inv(Apply(reg, op, host), host)
  {
    match op
    case Create(_, _, _, _) => CreateKeepsInv(reg, op, host);
    case Free(_) => FreeKeepsInv(reg, op, host);
    case Configure(_, _, _, _, _) => ConfigureKeepsInv(reg, op, host);
    case StartIn(_, _) => StartKeepsInv(reg, op, host);
    case StartAlone(_, _) => StartKeepsInv(reg, op, host);
    case End(_) => EndKeepsInv(reg, op, host);
  }

  function Run(reg: Reg, ops: seq<Op>, host: Host): Reg
    decreases |ops|
  {
    if ops == [] then reg else Run(Apply(reg, ops[0], host), ops[1..], host)
  }

  ghost predicate Runs(reg: Reg, ops: seq<Op>, host: Host)
    decreases |ops|
  {
    ops != [] ==> Enabled(reg, ops[0]) && Runs(Apply(reg, ops[0], host), ops[1..], host)
  }

  /** In every run from an empty registry: names, ids and uids are distinct, every session that is not
      a one-shot belongs to a live sandbox, and it is bound by exactly the configuration stored there. */
  lemma {:induction false} RunKeepsInv(reg: Reg, ops: seq<Op>, host: Host)
    requires Inv(reg, host) && Runs(reg, ops, host)
    ensures Inv(Run(reg, ops, host), host)
    decreases |ops|
  {
    if ops != [] {
      StepKeepsInv(reg, ops[0], host);
      RunKeepsInv(Apply(reg, ops[0], host), ops[1..], host);
    }
  }

  datatype Config = Config(network: bool, listen: bool, limits: Limits)

  /** What a run asks of a sandbox: from its creation on the network, no listening and no limits, then each
      setting as last asked for; nothing before it is created or once it is freed. */
  function Asked(ops: seq<Op>, id: string): Option<Config>
    decreases |ops|
  {
    if ops == [] then None else AskedBy(Asked(ops[..|ops| - 1], id), ops[|ops| - 1], id)
  }

  function AskedBy(before: Option<Config>, op: Op, id: string): Option<Config> {
    match op
    case Create(_, i, _, _) => if i == id then Some(Config(true, false, Limits(None, None, None))) else before
    case Free(i) => if i == id then None else before
    case Configure(i, n, l, m, _) =>
      if i == id && before.Some? then
        var c := before.value;
        Some(Config(if n.Some? then n.value else c.network, if l.Some? then l.value else c.listen,
                    if m.Some? then m.value else c.limits))
      else before
    case _ => before
  }

  /** What is stored of a sandbox. */
  function ConfigIn(m: map<string, Sandbox>, id: string): Option<Config> {
    if id in m then Some(Config(m[id].network, m[id].listen, m[id].limits)) else None
  }

  lemma {:induction false} RunSplit(reg: Reg, ops: seq<Op>, host: Host)
    requires ops != [] && Runs(reg, ops, host)
    ensures var (front, last) := (ops[..|ops| - 1], ops[|ops| - 1]);
            && Runs(reg, front, host) && Enabled(Run(reg, front, host), last)
            && Run(reg, ops, host) == Apply(Run(reg, front, host), last, host)
    decreases |ops|
  {
    if |ops| > 1 {
      RunSplit(Apply(reg, ops[0], host), ops[1..], host);
      assert ops[1..][..|ops| - 2] == ops[..|ops| - 1][1..];
    }
  }

  /** After any run from an empty registry the sandboxes are those created and not freed since, and each
      stores what was last asked of it. */
  lemma {:induction false} LastAskedIsStored(ops: seq<Op>, host: Host, id: string)
    requires Runs(Reg(map[], map[]), ops, host)
    ensures Asked(ops, id) == ConfigIn(Run(Reg(map[], map[]), ops, host).sandboxes, id)
    decreases |ops|
  {
    if ops != [] {
      RunSplit(Reg(map[], map[]), ops, host);
      LastAskedIsStored(ops[..|ops| - 1], host, id);
    }
  }

  lemma SessionsFollowConfiguration(ops: seq<Op>, host: Host, sid: string)
    requires Runs(Reg(map[], map[]), ops, host) && Ready(host)
    ensures var reg := Run(Reg(map[], map[]), ops, host);
            sid in reg.sessions && !reg.sessions[sid].ephemeral ==>
              exists id :: && id in reg.sandboxes && reg.sandboxes[id].uid == reg.sessions[sid].uid && Asked(ops, id).Some?
                           && reg.sessions[sid].settings.network == Asked(ops, id).value.network
                           && reg.sessions[sid].settings.listen == Asked(ops, id).value.listen
                           && Bound(reg.sessions[sid].settings.cgroup) == Enforcing(Asked(ops, id).value.limits, host.writable)
  {
    var start := Reg(map[], map[]);
    RunKeepsInv(start, ops, host);
    var reg := Run(start, ops, host);
    if sid in reg.sessions && !reg.sessions[sid].ephemeral {
      assert Owned(reg, reg.sessions[sid], host);
      var id :| id in reg.sandboxes && Follows(reg.sessions[sid], reg.sandboxes[id], host);
      LastAskedIsStored(ops, host, id);
    }
  }
}
