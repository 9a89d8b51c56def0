/** The bindings table: PUT /bindings as a check-then-act protocol over shared rows
    (internal/bindings/store.go).  `Store` is the sequential object; `Next` lets any
    number of PUTs, deletes and ssh-key operations interleave between their
    database accesses, with allocMu as the only synchronisation. */
module Bindings {
  import opened Basics
  import opened Addresses
  import opened Prober
  import opened Allocator

  type Uuid = string
  type KeyId = string
  type Tid = nat

  /** The nine three-state override columns. */
  datatype Col = Hostname | SubnetId | Vlan | NicSelector | AgentInstalled | SshKeys
               | RootPassword | TargetDisk | Bond

  /** A validated column value; the blank ones are the spellings of "clear". */
  datatype Value = Text(s: string) | Number(n: nat) | Flag(b: bool) | Keys(ids: seq<KeyId>)

  predicate Blank(v: Value) {
    v == Text("") || v == Number(0) || v == Keys([])
  }

  type Columns = map<Col, Value>   // a missing column is NULL

  function Get(cols: Columns, c: Col): Option<Value> {
    if c in cols then Some(cols[c]) else None
  }

  /** The columns the first SELECT of Upsert loads; the second loads the other three. */
  predicate LoadedFirst(c: Col) {
    c != RootPassword && c != TargetDisk && c != Bond
  }

  function Part(cols: Columns, first: bool): Columns {
    map c | c in cols && LoadedFirst(c) == first :: cols[c]
  }

  /** A PUT after shape validation: which columns it mentions and how, the profile's
      network method and the explicit address, if any. */
  datatype Put = Put(machine: Uuid, fixed: bool, addr: Option<IP>, mentions: Columns, desired: string)

  /** Where a row's address came from (history; not stored). */
  datatype Origin = NoAddress | Explicit | Auto

  datatype Row = Row(addr: Option<IP>, origin: Origin, cols: Columns, desired: string)

  type Rows = map<Uuid, Row>

  function Existing(rows: Rows, m: Uuid): Columns {
    if m in rows then rows[m].cols else map[]
  }

  /** The value Upsert writes to one column. */
  function NewColumn(put: Put, existing: Columns, c: Col): Option<Value> {
    if c in put.mentions then
      if Blank(put.mentions[c]) then None else Some(put.mentions[c])
    else if c in existing && !Blank(existing[c]) then Some(existing[c])
    else None
  }

  function Resolve(put: Put, existing: Columns): (cols: Columns)
    ensures forall c :: Get(cols, c) == NewColumn(put, existing, c)
  {
    map c: Col | NewColumn(put, existing, c).Some? :: NewColumn(put, existing, c).value
  }

  /** The three-state rule in elementary terms: a mentioned column is cleared by an empty text,
      a zero or an empty list and set by any other value; an unmentioned one stays as it was,
      which is absent or not empty. */
  lemma ColumnsSpelt(put: Put, existing: Columns, c: Col)
    ensures var cols := Resolve(put, existing);
            if c in put.mentions then
              if put.mentions[c] in {Text(""), Number(0), Keys([])} then c !in cols
              else c in cols && cols[c] == put.mentions[c]
            else if c in existing && existing[c] !in {Text(""), Number(0), Keys([])} then c in cols && cols[c] == existing[c]
            else c !in cols
  {
    assert Get(Resolve(put, existing), c) == NewColumn(put, existing, c);
  }

  /** The subnet in effect for a PUT. */
  function SubnetOf(put: Put, existing: Columns): Option<Value> {
    NewColumn(put, existing, SubnetId)
  }

  function MentionedKeys(put: Put): seq<KeyId> {
    if SshKeys in put.mentions && put.mentions[SshKeys].Keys? then put.mentions[SshKeys].ids else []
  }

  predicate Names(cols: Columns, k: KeyId) {
    SshKeys in cols && cols[SshKeys].Keys? && k in cols[SshKeys].ids
  }

  function OwnAddress(rows: Rows, m: Uuid): Option<IP> {
    if m in rows then rows[m].addr else None
  }

  /** The other bindings' addresses, as reservedIPs reads them. */
  function OtherAddresses(rows: Rows, m: Uuid): set<IP> {
    set u | u in rows && u != m && rows[u].addr.Some? :: rows[u].addr.value
  }

  // ---------------------------------------------------------------- the sequential store

  datatype Subnet = Subnet(net: Net, gateway: Option<IP>)

  datatype Error = AddressOnDhcp | UnknownKey | UnknownSubnet | NotAHost | Exhausted | NoAddressGiven

  datatype Result = Ok(row: Row) | Err(error: Error)

  /** subnets.HostInSubnet; a /31 or /32 has no broadcast address. */
  predicate HostInSubnet(sn: Subnet, a: IP) {
    && sn.net.Contains(a) && a != sn.net.lo
    && (sn.net.hi - sn.net.lo >= 3 ==> a != sn.net.hi)
    && sn.gateway != Some(a)
  }

  /** The world reservedIPs looks at beyond the bindings table. */
  datatype Surroundings = Surroundings(controller: seq<IP>, leases: seq<IP>, pool: Option<Pool>)

  /** What an allocation on this subnet returns: first fit over everything not reserved. */
  ghost predicate Allocates(sn: Subnet, others: set<IP>, w: Surroundings, probe: Layer, r: Option<IP>) {
    exists used :: ReservedFor(sn, others, w, used) && FirstFit(sn.net, used, probe, r)
  }

  lemma AllocatesOne(sn: Subnet, others: set<IP>, w: Surroundings, probe: Layer, r1: Option<IP>, r2: Option<IP>)
    ensures Allocates(sn, others, w, probe, r1) && Allocates(sn, others, w, probe, r2) ==> r1 == r2
  {
    if Allocates(sn, others, w, probe, r1) && Allocates(sn, others, w, probe, r2) {
      var u1 :| ReservedFor(sn, others, w, u1) && FirstFit(sn.net, u1, probe, r1);
      var u2 :| ReservedFor(sn, others, w, u2) && FirstFit(sn.net, u2, probe, r2);
      assert u1 == u2;
      FirstFitDeterministic(sn.net, u1, probe, r1, r2);
    }
  }

  /** The machine's own address passes the sticky test. */
  predicate Keeps(sn: Subnet, own: Option<IP>) {
    own.Some? && Sticky(sn.net, own.value)
  }

  ghost predicate ReservedFor(sn: Subnet, others: set<IP>, w: Surroundings, used: set<IP>) {
    forall x: IP :: x in used <==>
      || sn.gateway == Some(x) || x in others || x in w.controller || x in w.leases
      || (w.pool.Some? && PoolReserves(sn.net, w.pool.value, x))
  }

  /** The address of a stored row, by profile, subnet and input. */
  ghost predicate AddressRule(put: Put, own: Option<IP>, sn: Option<Subnet>, others: set<IP>, w: Surroundings,
                              probe: Layer, addr: Option<IP>)
  {
    if !put.fixed then addr.None?
    else if put.addr.Some? then addr == put.addr && (sn.Some? ==> HostInSubnet(sn.value, put.addr.value))
    else if sn.None? then false
    else if Keeps(sn.value, own) then addr == own
    else addr.Some? && Allocates(sn.value, others, w, probe, addr)
  }

  /** Where that address comes from. */
  function OriginOf(put: Put, rows: Rows, sn: Option<Subnet>): Origin {
    if put.addr.Some? then Explicit
    else if !put.fixed || sn.None? then NoAddress
    else if Keeps(sn.value, OwnAddress(rows, put.machine)) then rows[put.machine].origin
    else Auto
  }

  /** A static address under a subnet is inside it and not its network address; it is the
      broadcast address only if it was given explicitly and the subnet is a /31, which has
      none; and an explicit one is not the gateway.  A /32 has no such address. */
  predicate AddressFits(sn: Subnet, a: IP, explicit: bool) {
    && sn.net.lo < a <= sn.net.hi
    && (a == sn.net.hi ==> explicit && sn.net.hi - sn.net.lo < 3)
    && (explicit ==> sn.gateway != Some(a))
  }

  lemma HostFits(sn: Subnet, a: IP)
    ensures HostInSubnet(sn, a) <==> AddressFits(sn, a, true)
  {
  }

  /** The subnet the PUT names, or else the row's, is not a text in the catalog. */
  predicate NoSuchSubnet(put: Put, rows: Rows, subnets: map<string, Subnet>) {
    if SubnetId in put.mentions then !(put.mentions[SubnetId].Text? && put.mentions[SubnetId].s in subnets)
    else put.machine in rows && SubnetId in rows[put.machine].cols
         && !(rows[put.machine].cols[SubnetId].Text? && rows[put.machine].cols[SubnetId].s in subnets)
  }

  /** The subnet that governs the address of a PUT: none on a dhcp profile. */
  function Governing(put: Put, existing: Columns): Option<Value> {
    if put.fixed then SubnetOf(put, existing) else None
  }

  predicate Known(subnets: map<string, Subnet>, v: Value) {
    v.Text? && v.s in subnets
  }

  /** The subnet in effect is missing from the catalog; it is looked up when the PUT names
      it, whatever the profile, and when a static profile needs it. */
  predicate MissesSubnet(put: Put, existing: Columns, subnets: map<string, Subnet>) {
    var sid := SubnetOf(put, existing);
    sid.Some? && !Known(subnets, sid.value) && (put.fixed || SubnetId in put.mentions)
  }

  predicate KeysKnown(put: Put, keys: set<KeyId>) {
    forall k :: k in MentionedKeys(put) ==> k in keys
  }

  method Elements(s: set<IP>) returns (xs: seq<IP>)
    ensures forall x :: x in xs <==> x in s
  {
    xs := [];
    var rest := s;
    while rest != {}
      invariant rest <= s
      invariant forall x :: x in xs <==> x in s && x !in rest
    {
      var x :| x in rest;
      xs := xs + [x];
      rest := rest - {x};
    }
  }

  class Store {
    var rows: Rows
    var keys: set<KeyId>
    const prober: Option<Layer>

    constructor (p: Option<Layer>)
      ensures rows == map[] && keys == {} && prober == p
    {
      rows, keys, prober := map[], {}, p;
    }

    /** The part of Upsert under allocMu, run without interference. */
    method Upsert(put: Put, subnets: map<string, Subnet>, w: Surroundings) returns (r: Result)
      requires forall id :: id in subnets ==> InCatalog(subnets[id].net)
      modifies this`rows
      ensures rows == if r.Ok? then old(rows)[put.machine := r.row] else old(rows)
      ensures r.Ok? ==> forall ids, k :: SshKeys in put.mentions && put.mentions[SshKeys] == Keys(ids) && k in ids ==> k in keys
      ensures r == Err(UnknownKey) ==> exists ids, k :: SshKeys in put.mentions && put.mentions[SshKeys] == Keys(ids) && k in ids && k !in keys
      ensures r == Err(UnknownSubnet) ==> NoSuchSubnet(put, old(rows), subnets)
      ensures r == Err(NotAHost) ==> put.addr.Some? && exists id :: id in subnets && !AddressFits(subnets[id], put.addr.value, true)
      ensures r == Err(AddressOnDhcp) <==> !put.fixed && put.addr.Some?
      ensures r == Err(UnknownKey) <==> r != Err(AddressOnDhcp) && !KeysKnown(put, keys)
      ensures var sid := Governing(put, Existing(old(rows), put.machine));
        && (r == Err(UnknownSubnet) <==> && r != Err(AddressOnDhcp) && KeysKnown(put, keys)
                                         && MissesSubnet(put, Existing(old(rows), put.machine), subnets))
        && (r == Err(NoAddressGiven) <==> KeysKnown(put, keys) && put.fixed && put.addr.None? && sid.None?)
        && (r == Err(NotAHost) <==> && KeysKnown(put, keys) && sid.Some? && Known(subnets, sid.value)
                                    && put.addr.Some? && !HostInSubnet(subnets[sid.value.s], put.addr.value))
        && (r == Err(Exhausted) <==> && KeysKnown(put, keys) && sid.Some? && Known(subnets, sid.value) && put.addr.None?
                                     && !Keeps(subnets[sid.value.s], OwnAddress(old(rows), put.machine))
                                     && Allocates(subnets[sid.value.s], OtherAddresses(old(rows), put.machine), w,
                                                  ProberOf(prober), None))
      ensures r.Ok? ==>
        && r.row.cols == Resolve(put, Existing(old(rows), put.machine)) && r.row.desired == put.desired
        && var sid := Governing(put, Existing(old(rows), put.machine));
           && (sid.Some? ==> Known(subnets, sid.value))
           && AddressRule(put, OwnAddress(old(rows), put.machine),
                          if sid.Some? then Some(subnets[sid.value.s]) else None,
                          OtherAddresses(old(rows), put.machine), w, ProberOf(prober), r.row.addr)
           && r.row.origin == OriginOf(put, old(rows), if sid.Some? then Some(subnets[sid.value.s]) else None)
      ensures r.Ok? ==> (r.row.addr.Some? <==> put.fixed) && (put.addr.Some? ==> r.row.addr == put.addr)
      ensures r.Ok? && put.fixed && SubnetId in r.row.cols ==>
        && r.row.cols[SubnetId].Text? && r.row.cols[SubnetId].s in subnets
        && AddressFits(subnets[r.row.cols[SubnetId].s], r.row.addr.value, put.addr.Some?)
    {
      hide Allocates, Resolve, InCatalog;
      if !put.fixed && put.addr.Some? { return Err(AddressOnDhcp); }
      var existing := Existing(rows, put.machine);
      var ids := MentionedKeys(put);
      for i := 0 to |ids|
        invariant forall k :: k in ids[..i] ==> k in keys
      {
        if ids[i] !in keys { return Err(UnknownKey); }
      }
      assert ids[..|ids|] == ids;
      var sid := SubnetOf(put, existing);
      if SubnetId in put.mentions && sid.Some? && !Known(subnets, sid.value) { return Err(UnknownSubnet); }
      var addr, origin := put.addr, if put.addr.Some? then Explicit else NoAddress;
      if sid.Some? && put.fixed {
        if !Known(subnets, sid.value) { return Err(UnknownSubnet); }
        var sn := subnets[sid.value.s];
        if addr.None? {
          var own := OwnAddress(rows, put.machine);
          addr := Allocate(own, OtherAddresses(rows, put.machine), sn, w);
          AllocatesOne(sn, OtherAddresses(rows, put.machine), w, ProberOf(prober), addr, None);
          if addr.None? { return Err(Exhausted); }
          origin := if Keeps(sn, own) then rows[put.machine].origin else Auto;
        } else if !HostInSubnet(sn, addr.value) {
          return Err(NotAHost);
        }
      }
      if put.fixed && addr.None? { return Err(NoAddressGiven); }
      var row := Row(addr, origin, Resolve(put, existing), put.desired);
      rows := rows[put.machine := row];
      return Ok(row);
    }

    method Allocate(own: Option<IP>, others: set<IP>, sn: Subnet, w: Surroundings) returns (addr: Option<IP>)
      requires InCatalog(sn.net)
      ensures if Keeps(sn, own) then addr == own
              else Allocates(sn, others, w, ProberOf(prober), addr)
      ensures addr.Some? ==> sn.net.lo < addr.value < sn.net.hi
      ensures addr.Some? && !(own.Some? && sn.net.lo < own.value < sn.net.hi) ==> addr.value !in others && sn.gateway != addr
    {
      CatalogIsSafe(sn.net, if w.pool.Some? then w.pool.value else Pool(0, 0));
      var list := Elements(others);
      var src := Sources(sn.gateway, list, w.controller, w.leases, w.pool);
      addr := AllocateIPFromSubnet(sn.net, own, src, prober);
      if !Keeps(sn, own) {
        ghost var used :| IsReserved(sn.net, src, used) && FirstFit(sn.net, used, ProberOf(prober), addr);
        assert ReservedFor(sn, others, w, used);
      }
    }

    method Delete(m: Uuid) returns (found: bool)
      modifies this`rows
      ensures found <==> m in old(rows)
      ensures rows == old(rows) - {m}
    {
      found := m in rows;
      rows := rows - {m};
    }

    /** How many bindings name an ssh key; the key may be dropped only at zero. */
    method RefCountBySSHKey(k: KeyId) returns (n: nat)
      ensures n == |set m | m in rows && SshKeys in rows[m].cols && rows[m].cols[SshKeys].Keys? && k in rows[m].cols[SshKeys].ids|
      ensures n == 0 <==> forall m :: m in rows ==> !Names(rows[m].cols, k)
      ensures n == 0 <==> forall m, ids :: m in rows && SshKeys in rows[m].cols && rows[m].cols[SshKeys] == Keys(ids) ==> k !in ids
    {
      var hits := set m | m in rows && Names(rows[m].cols, k);
      assert hits == set m | m in rows && SshKeys in rows[m].cols && rows[m].cols[SshKeys].Keys? && k in rows[m].cols[SshKeys].ids;
      n := |hits|;
      if n == 0 {
        assert hits == {};
        assert forall m :: m in rows && Names(rows[m].cols, k) ==> m in hits;
      } else {
        var m :| m in hits;
      }
    }
  }

  // ---------------------------------------------------------------- the interleaving model

  /** Where a goroutine stands.  Every phase but Idle is under allocMu. */
  datatype Phase =
    | Idle
    | Locked(put: Put)
    | ReadFirst(put: Put, cols: Columns, checked: nat)
    | Scanning(put: Put, cols: Columns, net: Net)
    | Reserved(put: Put, cols: Columns, net: Net, used: set<IP>)
    | Decided(put: Put, cols: Columns, addr: Option<IP>, origin: Origin, isNew: bool)
    | ReadSecond(put: Put, cols: Columns, addr: Option<IP>, origin: Origin, isNew: bool, more: Columns)
    | KeyLocked(key: KeyId)
    | KeyCounted(key: KeyId)
    | Done

  /** What happened to the table: a PUT was stored, or rows were removed. */
  datatype Event = Stored(put: Put) | Removed(ms: set<Uuid>)

  /** History, which no step reads: the events so far, the machines deleted since the running
      PUT's first read, and the overrides that a PUT brought back although a delete had
      removed them. */
  datatype History = History(log: seq<Event>, gone: set<Uuid>, undone: set<(Uuid, Col)>)

  datatype State = State(rows: Rows, keys: set<KeyId>, lock: Option<Tid>, threads: map<Tid, Phase>, hist: History)

  /** The overrides brought back after a PUT is stored: a PUT whose row was deleted under it
      brings back what it had loaded and does not mention; any other PUT settles what it
      mentions. */
  function UndoneBy(undone: set<(Uuid, Col)>, put: Put, loaded: Columns, struck: bool): set<(Uuid, Col)> {
    if struck
    then (set x | x in undone && x.0 != put.machine)
         + (set c: Col | c !in put.mentions && NewColumn(put, loaded, c).Some? :: (put.machine, c))
    else set x | x in undone && !(x.0 == put.machine && x.1 in put.mentions)
  }

  datatype Step =
    | BeginPut(t: Tid, put: Put)          // lock allocMu
    | ReadOverrides(t: Tid)               // first SELECT
    | CheckKey(t: Tid)                    // one checkSSHKeyExists
    | DecideGiven(t: Tid)                 // explicit or absent address
    | ReadOwn(t: Tid, net: Net)           // fetch the subnet, sticky SELECT
    | Reserve(t: Tid, extra: set<IP>)     // reservedIPs
    | Pick(t: Tid, probe: Layer, a: IP)   // scan and probe
    | ReadRest(t: Tid)                    // second SELECT
    | Insert(t: Tid)                      // the upsert statement
    | Fail(t: Tid)                        // any error return
    | Release(t: Tid)
    | Delete(ms: set<Uuid>)               // Delete, DeleteByImage, DeleteByProfile: no lock
    | ClearDesired(m: Uuid)               // no lock
    | CreateKey(k: KeyId)                 // no lock
    | BeginKeyDelete(t: Tid, k: KeyId)    // AcquireWriteLock
    | CountKey(t: Tid)
    | DropKey(t: Tid)

  function PhaseOf(s: State, t: Tid): Phase {
    if t in s.threads then s.threads[t] else Idle
  }

  function Goto(s: State, t: Tid, p: Phase): State {
    s.(threads := s.threads[t := p])
  }

  function Unlock(s: State, t: Tid): State {
    Goto(s, t, Idle).(lock := None)
  }

  /** One atomic step; a step that is not enabled changes nothing. */
  ghost function Next(s: State, step: Step): State {
    match step
    case BeginPut(t, put) =>
      if PhaseOf(s, t).Idle? && s.lock.None? then Goto(s, t, Locked(put)).(lock := Some(t)) else s
    case ReadOverrides(t) =>
      (match PhaseOf(s, t)
       case Locked(put) => Goto(s, t, ReadFirst(put, Part(Existing(s.rows, put.machine), true), 0)).(
                             hist := s.hist.(gone := {}))
       case _ => s)
    case CheckKey(t) =>
      (match PhaseOf(s, t)
       case ReadFirst(put, cols, n) =>
         if n >= |MentionedKeys(put)| then s
         else if MentionedKeys(put)[n] in s.keys then Goto(s, t, ReadFirst(put, cols, n + 1))
         else Unlock(s, t)
       case _ => s)
    case DecideGiven(t) =>
      (match PhaseOf(s, t)
       case ReadFirst(put, cols, n) =>
         if n >= |MentionedKeys(put)| && put.addr.Some? == put.fixed
         then Goto(s, t, Decided(put, cols, put.addr, if put.addr.Some? then Explicit else NoAddress, false))
         else s
       case _ => s)
    case ReadOwn(t, net) =>
      (match PhaseOf(s, t)
       case ReadFirst(put, cols, n) =>
         if n >= |MentionedKeys(put)| && put.addr.None? && put.fixed && SubnetOf(put, cols).Some? then
           var own := OwnAddress(s.rows, put.machine);
           if own.Some? && Sticky(net, own.value)
           then Goto(s, t, Decided(put, cols, own, s.rows[put.machine].origin, false))
           else Goto(s, t, Scanning(put, cols, net))
         else s
       case _ => s)
    case Reserve(t, extra) =>
      (match PhaseOf(s, t)
       case Scanning(put, cols, net) =>
         Goto(s, t, Reserved(put, cols, net, extra + OtherAddresses(s.rows, put.machine)))
       case _ => s)
    case Pick(t, probe, a) =>
      (match PhaseOf(s, t)
       case Reserved(put, cols, net, used) =>
         if FirstFit(net, used, probe, Some(a)) then Goto(s, t, Decided(put, cols, Some(a), Auto, true)) else s
       case _ => s)
    case ReadRest(t) =>
      (match PhaseOf(s, t)
       case Decided(put, cols, addr, origin, isNew) =>
         Goto(s, t, ReadSecond(put, cols, addr, origin, isNew, Part(Existing(s.rows, put.machine), false)))
       case _ => s)
    case Insert(t) =>
      (match PhaseOf(s, t)
       case ReadSecond(put, cols, addr, origin, isNew, more) =>
         Goto(s, t, Done).(rows := s.rows[put.machine := Row(addr, origin, Resolve(put, cols + more), put.desired)],
                           hist := s.hist.(log := s.hist.log + [Stored(put)],
                                           undone := UndoneBy(s.hist.undone, put, cols + more, put.machine in s.hist.gone)))
       case _ => s)
    case Fail(t) => if PhaseOf(s, t).Idle? then s else Unlock(s, t)
    case Release(t) => if PhaseOf(s, t).Done? then Unlock(s, t) else s
    case Delete(ms) =>
      s.(rows := s.rows - ms,
         hist := History(s.hist.log + [Removed(ms)], s.hist.gone + ms, set x | x in s.hist.undone && x.0 !in ms))
    case ClearDesired(m) => if m in s.rows then s.(rows := s.rows[m := s.rows[m].(desired := "none")]) else s
    case CreateKey(k) => s.(keys := s.keys + {k})
    case BeginKeyDelete(t, k) =>
      if PhaseOf(s, t).Idle? && s.lock.None? then Goto(s, t, KeyLocked(k)).(lock := Some(t)) else s
    case CountKey(t) =>
      (match PhaseOf(s, t)
       case KeyLocked(k) =>
         if exists m :: m in s.rows && Names(s.rows[m].cols, k) then Unlock(s, t) else Goto(s, t, KeyCounted(k))
       case _ => s)
    case DropKey(t) =>
      (match PhaseOf(s, t)
       case KeyCounted(k) => Goto(s, t, Done).(keys := s.keys - {k})
       case _ => s)
  }

  const INIT := State(map[], {}, None, map[], History([], {}, {}))

  ghost function Run(steps: seq<Step>): State {
    if steps == [] then INIT else Next(Run(steps[..|steps| - 1]), steps[|steps| - 1])
  }

  // ---------------------------------------------------------------- what the runs keep

  /** The value dictated for a column by the last PUT that mentioned it since the machine's
      row was last deleted. */
  function LastMention(log: seq<Event>, m: Uuid, c: Col): Option<Value> {
    if log == [] then None
    else
      match log[|log| - 1]
      case Removed(ms) => if m in ms then None else LastMention(log[..|log| - 1], m, c)
      case Stored(p) =>
        if p.machine == m && c in p.mentions then
          if Blank(p.mentions[c]) then None else Some(p.mentions[c])
        else LastMention(log[..|log| - 1], m, c)
  }

  lemma {:induction false} LastMentionNotBlank(log: seq<Event>, m: Uuid, c: Col)
    ensures LastMention(log, m, c).Some? ==> !Blank(LastMention(log, m, c).value)
  {
    if log != [] { LastMentionNotBlank(log[..|log| - 1], m, c); }
  }

  /** allocMu is held by whoever is past Idle. */
  ghost predicate MutexInv(s: State) {
    forall t :: t in s.threads && !s.threads[t].Idle? ==> s.lock == Some(t)
  }

  ghost predicate KeysInv(s: State) {
    forall m, k :: m in s.rows && Names(s.rows[m].cols, k) ==> k in s.keys
  }

  /** Two rows may share an address only if one of them was given it explicitly. */
  ghost predicate AddressInv(s: State) {
    && (forall m, u :: m in s.rows && u in s.rows && m != u && s.rows[m].origin == s.rows[u].origin == Auto ==>
          s.rows[m].addr != s.rows[u].addr)
    && (forall m :: m in s.rows && s.rows[m].origin != NoAddress ==> s.rows[m].addr.Some?)
    && (forall m :: m in s.rows && s.rows[m].origin == NoAddress ==> s.rows[m].addr.None?)
    && (forall m :: m in s.rows && s.rows[m].origin == Explicit ==> ExplicitPut(s.hist.log))
  }

  predicate ExplicitPut(log: seq<Event>) {
    exists i :: 0 <= i < |log| && log[i].Stored? && log[i].put.addr.Some?
  }

  /** A column is what its history dictates, unless it was brought back. */
  ghost predicate HistoryInv(s: State) {
    forall m, c :: ColumnOk(Get(Existing(s.rows, m), c), LastMention(s.hist.log, m, c), (m, c) in s.hist.undone)
  }

  predicate ColumnOk(value: Option<Value>, dictated: Option<Value>, undone: bool) {
    if undone then value.Some? && !Blank(value.value) && dictated.None? else value == dictated
  }

  /** The columns a goroutine loaded are those of the row, unless the row was deleted since,
      and then there is none; and they agree with the key catalog. */
  ghost predicate Loaded(s: State, put: Put, cols: Columns, first: bool) {
    && (forall k :: Names(cols, k) ==> k in s.keys)
    && (forall c :: c in cols ==> LoadedFirst(c) == first)
    && (if put.machine in s.hist.gone then put.machine !in s.rows
        else forall c :: LoadedFirst(c) == first ==> Get(cols, c) == Get(Existing(s.rows, put.machine), c))
  }

  ghost predicate KeysChecked(s: State, put: Put, n: nat) {
    forall i :: 0 <= i < n && i < |MentionedKeys(put)| ==> MentionedKeys(put)[i] in s.keys
  }

  ghost predicate ReadyInv(s: State, put: Put, cols: Columns) {
    Loaded(s, put, cols, true) && KeysChecked(s, put, |MentionedKeys(put)|)
  }

  /** No other row holds an address about to be written as auto-picked, unless explicitly. */
  ghost predicate AddressReady(s: State, put: Put, addr: Option<IP>, origin: Origin, isNew: bool) {
    && (origin == NoAddress <==> addr.None?)
    && (isNew ==> origin == Auto && forall u :: u in s.rows && u != put.machine ==> s.rows[u].addr != addr)
    && (origin == Auto ==> forall u :: u in s.rows && u != put.machine && s.rows[u].origin == Auto ==> s.rows[u].addr != addr)
    && (origin == Explicit ==> put.addr.Some? || ExplicitPut(s.hist.log))
  }

  ghost predicate PhaseInv(s: State, p: Phase) {
    match p
    case ReadFirst(put, cols, n) => Loaded(s, put, cols, true) && KeysChecked(s, put, n)
    case Scanning(put, cols, net) => ReadyInv(s, put, cols)
    case Reserved(put, cols, net, used) =>
      ReadyInv(s, put, cols) && OtherAddresses(s.rows, put.machine) <= used
    case Decided(put, cols, addr, origin, isNew) =>
      ReadyInv(s, put, cols) && AddressReady(s, put, addr, origin, isNew)
    case ReadSecond(put, cols, addr, origin, isNew, more) =>
      && ReadyInv(s, put, cols) && AddressReady(s, put, addr, origin, isNew)
      && Loaded(s, put, more, false)
    case KeyCounted(k) => forall m :: m in s.rows ==> !Names(s.rows[m].cols, k)
    case _ => true
  }

  ghost predicate ThreadsInv(s: State) {
    forall t :: t in s.threads ==> PhaseInv(s, s.threads[t])
  }

  ghost predicate Inv(s: State) {
    MutexInv(s) && KeysInv(s) && AddressInv(s) && HistoryInv(s) && ThreadsInv(s)
  }

  /** The goroutine a step belongs to, if any. */
  function Actor(step: Step): Option<Tid> {
    match step
    case Delete(_) => None
    case ClearDesired(_) => None
    case CreateKey(_) => None
    case BeginPut(t, _) => Some(t)
    case ReadOwn(t, _) => Some(t)
    case Reserve(t, _) => Some(t)
    case Pick(t, _, _) => Some(t)
    case BeginKeyDelete(t, _) => Some(t)
    case ReadOverrides(t) => Some(t)
    case CheckKey(t) => Some(t)
    case DecideGiven(t) => Some(t)
    case ReadRest(t) => Some(t)
    case Insert(t) => Some(t)
    case Fail(t) => Some(t)
    case Release(t) => Some(t)
    case CountKey(t) => Some(t)
    case DropKey(t) => Some(t)
  }

  /** Steps that only move their goroutine along leave rows, keys and history alone. */
  predicate Writes(step: Step) {
    step.ReadOverrides? || step.Insert? || step.Delete? || step.ClearDesired? || step.CreateKey? || step.DropKey?
  }

  lemma QuietStep(s: State, step: Step)
    requires Inv(s) && !Writes(step)
    ensures Inv(Next(s, step))
  {
    var s', t := Next(s, step), Actor(step).value;
    QuietShape(s, step, t);
    QuietMutex(s, step, t);
    QuietPhase(s, step, t);
    QuietThreads(s, s', t);
    SharedFrame(s, s');
  }

  ghost predicate SameShared(s: State, s': State) {
    s'.rows == s.rows && s'.keys == s.keys && s'.hist == s.hist
  }

  lemma SharedFrame(s: State, s': State)
    requires SameShared(s, s') && KeysInv(s) && AddressInv(s) && HistoryInv(s)
    ensures KeysInv(s') && AddressInv(s') && HistoryInv(s')
  {
    forall m, c ensures ColumnOk(Get(Existing(s'.rows, m), c), LastMention(s'.hist.log, m, c), (m, c) in s'.hist.undone) {
      assert ColumnOk(Get(Existing(s.rows, m), c), LastMention(s.hist.log, m, c), (m, c) in s.hist.undone);
    }
  }

  lemma QuietShape(s: State, step: Step, t: Tid)
    requires !Writes(step) && Actor(step) == Some(t)
    ensures SameShared(s, Next(s, step))
    ensures Next(s, step) == s || Next(s, step).threads == s.threads[t := PhaseOf(Next(s, step), t)]
  {
  }

  lemma QuietMutex(s: State, step: Step, t: Tid)
    requires !Writes(step) && Actor(step) == Some(t) && MutexInv(s)
    ensures MutexInv(Next(s, step))
  {
  }

  lemma QuietThreads(s: State, s': State, t: Tid)
    requires SameShared(s, s') && ThreadsInv(s) && PhaseInv(s, PhaseOf(s', t))
    requires s' == s || s'.threads == s.threads[t := PhaseOf(s', t)]
    ensures ThreadsInv(s')
  {
    forall u | u in s'.threads ensures PhaseInv(s', s'.threads[u]) {
      PhaseFrame(s, s', s'.threads[u]);
    }
  }

  /** PhaseInv reads only rows, keys and history. */
  lemma PhaseFrame(s: State, s': State, p: Phase)
    requires SameShared(s, s')
    ensures PhaseInv(s, p) == PhaseInv(s', p)
  {
  }

  /** The phase a quiet step moves its goroutine to satisfies its invariant. */
  lemma QuietPhase(s: State, step: Step, t: Tid)
    requires Inv(s) && !Writes(step) && Actor(step) == Some(t)
    ensures PhaseInv(s, PhaseOf(Next(s, step), t))
  {
    var p := PhaseOf(s, t);
    if Next(s, step) == s {
    } else if step.ReadRest? {
      LoadedNow(s, p.put, false);
    } else if step.Pick? {
      PickPhase(s, p, step.probe, step.a);
    } else if step.ReadOwn? {
      OwnPhase(s, p.put);
    } else {
      PlainPhase(s, step, t);
    }
  }

  /** Keeping the machine's own address creates no new collision. */
  lemma OwnPhase(s: State, put: Put)
    requires AddressInv(s)
    ensures put.machine in s.rows ==>
      AddressReady(s, put, OwnAddress(s.rows, put.machine), s.rows[put.machine].origin, false)
  {
  }

  lemma HeldByAnother(rows: Rows, m: Uuid, u: Uuid)
    requires u in rows && u != m
    ensures rows[u].addr.Some? ==> rows[u].addr.value in OtherAddresses(rows, m)
  {
  }

  lemma PickPhase(s: State, p: Phase, probe: Layer, a: IP)
    requires p.Reserved? && PhaseInv(s, p) && FirstFit(p.net, p.used, probe, Some(a))
    ensures AddressReady(s, p.put, Some(a), Auto, true)
  {
    FreshIsSticky(p.net, p.used, probe, a);
    forall u | u in s.rows && u != p.put.machine ensures s.rows[u].addr != Some(a) {
      HeldByAnother(s.rows, p.put.machine, u);
    }
  }

  lemma PlainPhase(s: State, step: Step, t: Tid)
    requires Inv(s) && !Writes(step) && Actor(step) == Some(t) && Next(s, step) != s
    requires !step.ReadRest? && !step.Pick? && !step.ReadOwn?
    ensures PhaseInv(s, PhaseOf(Next(s, step), t))
  {
  }

  lemma LoadedNow(s: State, put: Put, first: bool)
    requires KeysInv(s) && (put.machine in s.hist.gone ==> put.machine !in s.rows)
    ensures Loaded(s, put, Part(Existing(s.rows, put.machine), first), first)
  {
    var m := put.machine;
    var cols := Existing(s.rows, m);
    forall k | Names(Part(cols, first), k) ensures k in s.keys { assert Names(cols, k); }
  }

  /** The first read forgets what was deleted before it; everybody else is idle. */
  lemma FirstReadStep(s: State, t: Tid)
    requires Inv(s)
    ensures Inv(Next(s, ReadOverrides(t)))
  {
    var p := PhaseOf(s, t);
    if p.Locked? {
      OthersIdle(s, t);
      var s' := Next(s, ReadOverrides(t));
      LoadedNow(s', p.put, true);
      SharedFrame(s.(hist := s.hist.(gone := {})), s');
      assert KeysChecked(s', p.put, 0);
    }
  }

  /** Removing rows, clearing desired_state and adding keys need no lock. */
  lemma UnlockedStep(s: State, step: Step)
    requires Inv(s) && (step.Delete? || step.ClearDesired? || step.CreateKey?)
    ensures Inv(Next(s, step))
  {
    hide MutexInv, KeysInv, AddressInv, HistoryInv, ThreadsInv;
    var s' := Next(s, step);
    assert Shrinks(s, s') by { if step.Delete? { LogGrows(s.hist.log, Removed(step.ms)); } }
    ShrinkKeeps(s, s');
    assert HistoryInv(s') by { UnlockedHistory(s, step); }
  }

  lemma LogGrows(log: seq<Event>, e: Event)
    ensures ExplicitPut(log) ==> ExplicitPut(log + [e])
    ensures (log + [e])[..|log|] == log
  {
    if ExplicitPut(log) {
      var i :| 0 <= i < |log| && log[i].Stored? && log[i].put.addr.Some?;
      assert (log + [e])[i] == log[i];
    }
  }

  lemma UnlockedHistory(s: State, step: Step)
    requires HistoryInv(s) && (step.Delete? || step.ClearDesired? || step.CreateKey?)
    ensures HistoryInv(Next(s, step))
  {
    var s' := Next(s, step);
    if step.Delete? {
      DeleteHistory(s, step.ms);
    } else {
      forall m, c ensures ColumnOk(Get(Existing(s'.rows, m), c), LastMention(s'.hist.log, m, c), (m, c) in s'.hist.undone) {
        assert ColumnOk(Get(Existing(s.rows, m), c), LastMention(s.hist.log, m, c), (m, c) in s.hist.undone);
      }
    }
  }

  lemma DeleteHistory(s: State, ms: set<Uuid>)
    requires HistoryInv(s)
    ensures HistoryInv(Next(s, Delete(ms)))
  {
    hide Get, Blank;
    var s' := Next(s, Delete(ms));
    LogGrows(s.hist.log, Removed(ms));
    forall m, c ensures ColumnOk(Get(Existing(s'.rows, m), c), LastMention(s'.hist.log, m, c), (m, c) in s'.hist.undone) {
      assert ColumnOk(Get(Existing(s.rows, m), c), LastMention(s.hist.log, m, c), (m, c) in s.hist.undone);
      if m in ms { GetNothing(c); } else { assert Existing(s'.rows, m) == Existing(s.rows, m); }
    }
  }

  lemma GetNothing(c: Col)
    ensures Get(map[], c) == None
  {
  }

  lemma ShrinkKeeps(s: State, s': State)
    requires Inv(s) && Shrinks(s, s') && s'.lock == s.lock && s'.threads == s.threads
    ensures MutexInv(s') && KeysInv(s') && AddressInv(s') && ThreadsInv(s')
  {
    hide PhaseInv, Existing, Names, HistoryInv;
    forall t | t in s'.threads ensures PhaseInv(s', s'.threads[t]) {
      PhaseShrinks(s, s', s.threads[t]);
    }
  }

  /** Rows only disappear or change desired_state, and keys only appear. */
  ghost predicate Shrinks(s: State, s': State) {
    && (forall m :: m in s'.rows ==> m in s.rows && s'.rows[m] == s.rows[m].(desired := s'.rows[m].desired))
    && s'.keys >= s.keys && (ExplicitPut(s.hist.log) ==> ExplicitPut(s'.hist.log))
    && s'.hist.gone >= s.hist.gone && (forall m :: m in s'.hist.gone && m !in s.hist.gone ==> m !in s'.rows)
    && (forall m :: m !in s'.hist.gone && m in s.rows ==> m in s'.rows)
  }

  lemma PhaseShrinks(s: State, s': State, p: Phase)
    requires Shrinks(s, s') && PhaseInv(s, p)
    ensures PhaseInv(s', p)
  {
    if p.Reserved? { assert OtherAddresses(s'.rows, p.put.machine) <= OtherAddresses(s.rows, p.put.machine); }
  }

  /** Everybody but the lock holder is idle, so a locked write disturbs nobody. */
  lemma OthersIdle(s: State, t: Tid)
    requires MutexInv(s) && !PhaseOf(s, t).Idle?
    ensures forall u :: u in s.threads && u != t ==> s.threads[u].Idle?
  {
  }

  lemma DropStep(s: State, t: Tid)
    requires Inv(s)
    ensures Inv(Next(s, DropKey(t)))
  {
    if PhaseOf(s, t).KeyCounted? {
      OthersIdle(s, t);
      var s' := Next(s, DropKey(t));
      assert PhaseInv(s, s.threads[t]);
      assert forall u :: u in s'.threads ==> s'.threads[u].Idle? || s'.threads[u].Done?;
    }
  }

  lemma InsertStep(s: State, t: Tid)
    requires Inv(s)
    ensures Inv(Next(s, Insert(t)))
  {
    var p := PhaseOf(s, t);
    if p.ReadSecond? {
      OthersIdle(s, t);
      assert PhaseInv(s, s.threads[t]);
      var s' := Next(s, Insert(t));
      var m := p.put.machine;
      assert forall u :: u in s'.threads ==> s'.threads[u].Idle? || s'.threads[u].Done?;
      InsertKeys(s, s', p);
      InsertHistory(s, s', p);
      InsertAddresses(s, s', p);
    }
  }

  /** What Insert does to the shared state. */
  ghost predicate Inserted(s: State, s': State, p: Phase) {
    && p.ReadSecond? && PhaseInv(s, p)
    && s'.rows == s.rows[p.put.machine := Row(p.addr, p.origin, Resolve(p.put, p.cols + p.more), p.put.desired)]
    && s'.hist.log == s.hist.log + [Stored(p.put)] && s'.keys == s.keys
    && s'.hist.undone == UndoneBy(s.hist.undone, p.put, p.cols + p.more, p.put.machine in s.hist.gone)
  }

  lemma InsertKeys(s: State, s': State, p: Phase)
    requires Inserted(s, s', p) && KeysInv(s)
    ensures KeysInv(s')
  {
    var cols := Resolve(p.put, p.cols + p.more);
    forall k | Names(cols, k) ensures k in s'.keys {
      assert Get(cols, SshKeys) == NewColumn(p.put, p.cols + p.more, SshKeys);
      if SshKeys in p.put.mentions {
        var ids := MentionedKeys(p.put);
        var i :| 0 <= i < |ids| && ids[i] == k;
      } else {
        assert LoadedFirst(SshKeys) && SshKeys !in p.more;
        assert Names(p.cols, k);
      }
    }
  }

  lemma InsertHistory(s: State, s': State, p: Phase)
    requires Inserted(s, s', p) && HistoryInv(s)
    ensures HistoryInv(s')
  {
    var put, loaded := p.put, p.cols + p.more;
    LogGrows(s.hist.log, Stored(put));
    forall m, c ensures ColumnOk(Get(Existing(s'.rows, m), c), LastMention(s'.hist.log, m, c), (m, c) in s'.hist.undone) {
      assert ColumnOk(Get(Existing(s.rows, m), c), LastMention(s.hist.log, m, c), (m, c) in s.hist.undone);
      if m == put.machine {
        assert Get(Resolve(put, loaded), c) == NewColumn(put, loaded, c);
        if c !in put.mentions && m !in s.hist.gone {
          LastMentionNotBlank(s.hist.log, m, c);
          assert Get(loaded, c) == Get(Existing(s.rows, m), c);
        }
      }
    }
  }

  lemma InsertAddresses(s: State, s': State, p: Phase)
    requires Inserted(s, s', p) && AddressInv(s)
    ensures AddressInv(s')
  {
    assert s'.hist.log[|s.hist.log|] == Stored(p.put);
    LogGrows(s.hist.log, Stored(p.put));
  }

  lemma StepKeepsInv(s: State, step: Step)
    requires Inv(s)
    ensures Inv(Next(s, step))
  {
    match step
    case Insert(t) => InsertStep(s, t);
    case ReadOverrides(t) => FirstReadStep(s, t);
    case DropKey(t) => DropStep(s, t);
    case Delete(_) => UnlockedStep(s, step);
    case ClearDesired(_) => UnlockedStep(s, step);
    case CreateKey(_) => UnlockedStep(s, step);
    case _ => QuietStep(s, step);
  }

  lemma {:induction false} RunKeepsInv(steps: seq<Step>)
    ensures Inv(Run(steps))
  {
    if steps == [] {
    } else {
      RunKeepsInv(steps[..|steps| - 1]);
      StepKeepsInv(Run(steps[..|steps| - 1]), steps[|steps| - 1]);
    }
  }

  // ---------------------------------------------------------------- theorems

  /** At most one goroutine is inside the critical section. */
  lemma MutualExclusion(steps: seq<Step>, t: Tid, u: Tid)
    requires !PhaseOf(Run(steps), t).Idle? && !PhaseOf(Run(steps), u).Idle?
    ensures t == u
  {
    RunKeepsInv(steps);
  }

  /** When a freshly auto-picked address is about to be inserted, no other row holds it. */
  lemma FreshAddressIsUnheld(steps: seq<Step>, t: Tid, u: Uuid)
    requires var p := PhaseOf(Run(steps), t); p.ReadSecond? && p.isNew && u != p.put.machine
    requires u in Run(steps).rows
    ensures Run(steps).rows[u].addr != PhaseOf(Run(steps), t).addr
  {
    RunKeepsInv(steps);
    assert PhaseInv(Run(steps), Run(steps).threads[t]);
  }

  /** Rows that share an address: one of them got it from a PUT that named it.  So
      as long as no PUT names an address, all addresses are pairwise distinct. */
  lemma CollisionNeedsExplicit(steps: seq<Step>, m: Uuid, u: Uuid)
    requires m in Run(steps).rows && u in Run(steps).rows && m != u
    requires Run(steps).rows[m].addr.Some? && Run(steps).rows[m].addr == Run(steps).rows[u].addr
    ensures Run(steps).rows[m].origin == Explicit || Run(steps).rows[u].origin == Explicit
    ensures ExplicitPut(Run(steps).hist.log)
  {
    RunKeepsInv(steps);
  }

  /** No binding ever lists an ssh key that is not in the catalog. */
  lemma ListedKeysExist(steps: seq<Step>, m: Uuid, ids: seq<KeyId>, k: KeyId)
    requires var rows := Run(steps).rows; m in rows && SshKeys in rows[m].cols && rows[m].cols[SshKeys] == Keys(ids) && k in ids
    ensures k in Run(steps).keys
  {
    hide Run;
    assert Names(Run(steps).rows[m].cols, k);
    NoDanglingKeys(steps, m, k);
  }

  /** No binding ever names an ssh key that is not in the catalog. */
  lemma NoDanglingKeys(steps: seq<Step>, m: Uuid, k: KeyId)
    requires m in Run(steps).rows && Names(Run(steps).rows[m].cols, k)
    ensures k in Run(steps).keys
  {
    RunKeepsInv(steps);
  }

  /** Last mention wins, exactly: each of the nine overrides is what the last PUT that
      mentioned it since the row's last delete dictates, if and only if no PUT brought it
      back after that delete. */
  lemma LastMentionIff(steps: seq<Step>, m: Uuid, c: Col)
    ensures var s := Run(steps);
            Get(Existing(s.rows, m), c) == LastMention(s.hist.log, m, c) <==> (m, c) !in s.hist.undone
  {
    RunKeepsInv(steps);
    var s := Run(steps);
    assert ColumnOk(Get(Existing(s.rows, m), c), LastMention(s.hist.log, m, c), (m, c) in s.hist.undone);
  }
}
