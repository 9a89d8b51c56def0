/** The DHCP server's hot-reloadable state (internal/dhcp/server.go): `Server` is the
    object, `Next` interleaves reloads with packets, each of which takes one snapshot and
    answers from it later.  Of the lease store (internal/leases/store.go) only the contract
    the handler relies on is modelled: what it offers lies in the ranges it was given, and it
    confirms the address it last offered to a client, or refuses. */
module DhcpServer {
  import opened Basics
  import opened Addresses
  import opened Dhcp
  import opened PoolSets
  import opened Routing
  import opened Catalogs

  type Store = nat   // a lease store handle
  type Tid = nat
  type Mac = string

  /** The fields guarded by the server's lock. */
  datatype Live = Live(mode: string, pools: Option<SubnetPools>, leases: Option<Store>)

  /** Config, reduced to what decides the fields; `addressesOk` says that ServerIP and
      ListenAddr parse. */
  datatype Config = Config(mode: string, pool: Option<Pool>, pools: Option<SubnetPools>, leases: Option<Store>,
                           addressesOk: bool)

  predicate Ready(l: Live) {
    l.mode == "full" ==> l.pools.Some? && l.leases.Some?
  }

  /** What New makes of a configuration.  Unknown modes pass and behave like proxy mode. */
  function Boot(c: Config): (r: Option<Live>)
    ensures r.Some? ==> Ready(r.value)
  {
    var mode := if c.mode == "" then "proxy" else c.mode;
    var pools := if mode == "full" && c.pools.None? && c.pool.Some? then Some(SubnetPools(c.pool.value, [])) else c.pools;
    if (mode == "full" && (pools.None? || c.leases.None?)) || !c.addressesOk then None
    else Some(Live(mode, pools, c.leases))
  }

  /** What Reload installs, if anything. */
  function Accepts(mode: string, pools: Option<SubnetPools>, leases: Option<Store>): (r: Option<Live>)
    ensures r.Some? ==> Ready(r.value)
  {
    var m := if mode == "" then "proxy" else mode;
    if m != "proxy" && m != "full" then None
    else if m == "full" && (pools.None? || leases.None?) then None
    else Some(Live(m, pools, leases))
  }

  class Server {
    var mode: string
    var pools: Option<SubnetPools>
    var leases: Option<Store>

    function Fields(): Live
      reads this
    {
      Live(mode, pools, leases)
    }

    predicate Valid()
      reads this
    {
      Ready(Fields())
    }

    constructor (l: Live)
      ensures Fields() == l
    {
      mode, pools, leases := l.mode, l.pools, l.leases;
    }

    /** A rejected reload changes nothing. */
    method Reload(m: string, p: Option<SubnetPools>, s: Option<Store>) returns (ok: bool)
      requires Valid()
      modifies this
      ensures Valid()
      ensures ok <==> (m in {"", "proxy"} || (m == "full" && p.Some? && s.Some?))
      ensures ok ==> mode == (if m == "" then "proxy" else m) && pools == p && leases == s
      ensures !ok ==> mode == old(mode) && pools == old(pools) && leases == old(leases)
      ensures Accepts(m, p, s) == if ok then Some(Fields()) else None
    {
      var next := if m == "" then "proxy" else m;
      if next != "proxy" && next != "full" { return false; }
      if next == "full" {
        if p.None? { return false; }
        if s.None? { return false; }
      }
      mode, pools, leases := next, p, s;
      return true;
    }

    method Snapshot() returns (l: Live)
      requires Valid()
      ensures l == Fields() && Ready(l)
    {
      l := Live(mode, pools, leases);
    }
  }

  /** New. */
  method New(c: Config) returns (s: Server?)
    ensures s == null <==> Boot(c).None?
    ensures s != null ==> fresh(s) && s.Valid() && s.Fields() == Boot(c).value
    ensures s == null <==> !c.addressesOk || (c.mode == "full" && (c.leases.None? || (c.pools.None? && c.pool.None?)))
    ensures s != null ==>
      && s.mode == (if c.mode == "" then "proxy" else c.mode) && s.leases == c.leases
      && (c.pools.Some? || c.mode != "full" ==> s.pools == c.pools)
      && (c.pools.None? && c.mode == "full" ==> s.pools.Some? && s.pools.value.relay == [] && Some(s.pools.value.local) == c.pool)
  {
    var mode := if c.mode == "" then "proxy" else c.mode;
    var pools := c.pools;
    if mode == "full" {
      if pools.None? {
        if c.pool.None? { return null; }
        pools := Some(SubnetPools(c.pool.value, []));
      }
      if c.leases.None? { return null; }
    }
    if !c.addressesOk { return null; }
    s := new Server(Live(mode, pools, c.leases));
  }

  // ---------------------------------------------------------------- one packet

  datatype Kind = Discover | Request(wanted: Option<Addr>) | Release | OtherKind

  datatype Packet = Packet(mac: Mac, giaddr: Option<Addr>, kind: Kind)

  /** A reply with the pool whose options it carries and the address it assigns. */
  datatype Reply = Silent | Proxy | Offer(pool: Pool, addr: Addr) | Ack(pool: Pool, addr: Addr) | Nak(pool: Pool)

  /** resolvePool. */
  function ResolvePool(pkt: Packet, pools: Option<SubnetPools>): Option<Pool> {
    if pools.None? then None
    else if pkt.giaddr.None? || pkt.giaddr.value == UNSPECIFIED then Some(pools.value.local)
    else PoolForRequest(pools.value, pkt.giaddr)
  }

  /** handle and buildFullReplyWith, on one snapshot.  `free` is the address the lease store
      would offer, `row` the one it has on record for the client.  An ACK carries the address
      on record, which is the requested one when the client named one. */
  function Respond(l: Live, pkt: Packet, free: Option<Addr>, row: Option<Addr>): Reply {
    if l.mode != "full" then Proxy
    else
      match ResolvePool(pkt, l.pools)
      case None => Silent
      case Some(p) =>
        match pkt.kind
        case Discover =>
          if free.Some? && p.Contains(free.value) && free.value !in p.exclude then Offer(p, free.value) else Silent
        case Request(w) =>
          if (w.Some? && !p.Contains(w.value)) || row.None? || (w.Some? && w != row) then Nak(p) else Ack(p, row.value)
        case _ => Silent
  }

  // ---------------------------------------------------------------- packets and reloads

  /** What a pool set was built from. */
  datatype Catalog = Catalog(local: Input, subs: seq<SubnetRow>)

  datatype Generation = Generation(live: Live, source: Option<Catalog>)

  datatype Handler =
    | Snapped(gen: nat, live: Live, pkt: Packet)
    | Replied(gen: nat, live: Live, pkt: Packet, row: Option<Addr>, reply: Reply)

  /** Every generation installed so far, the last being current, the packet handlers, and the
      address last offered to each client. */
  datatype State = State(history: seq<Generation>, handlers: map<Tid, Handler>, rows: map<Mac, Addr>)

  datatype Step =
    | Install(mode: string, source: Option<Catalog>, leases: Option<Store>)
    | Arrive(t: Tid, pkt: Packet)
    | Answer(t: Tid, free: Option<Addr>, kept: bool)   // kept: the client's row is still there and usable

  /** A catalog that does not assemble never reaches Reload. */
  ghost function DoInstall(s: State, mode: string, source: Option<Catalog>, leases: Option<Store>): State {
    var pools := if source.Some? then Assemble(Inputs(source.value.local, source.value.subs)) else None;
    if source.Some? && pools.None? then s
    else
      match Accepts(mode, pools, leases)
      case None => s
      case Some(l) => s.(history := s.history + [Generation(l, source)])
  }

  ghost function Next(s: State, step: Step): State
    requires s.history != []
  {
    match step
    case Install(mode, source, leases) => DoInstall(s, mode, source, leases)
    case Arrive(t, pkt) =>
      var g := |s.history| - 1;
      if t in s.handlers then s else s.(handlers := s.handlers[t := Snapped(g, s.history[g].live, pkt)])
    case Answer(t, free, kept) =>
      if t !in s.handlers || s.handlers[t].Replied? then s
      else
        var h := s.handlers[t];
        var row := if kept && h.pkt.mac in s.rows then Some(s.rows[h.pkt.mac]) else None;
        var reply := Respond(h.live, h.pkt, free, row);
        s.(handlers := s.handlers[t := Replied(h.gen, h.live, h.pkt, row, reply)],
           rows := if reply.Offer? then s.rows[h.pkt.mac := reply.addr] else s.rows)
  }

  /** The state right after New, whose pool set, if given, comes from a catalog. */
  ghost function Start(c: Config, source: Option<Catalog>): Option<State> {
    if (c.pools.Some? && (source.None? || c.pools != Assemble(Inputs(source.value.local, source.value.subs))))
       || Boot(c).None?
    then None
    else Some(State([Generation(Boot(c).value, if c.pools.Some? then source else None)], map[], map[]))
  }

  ghost function Run(s: State, steps: seq<Step>): (r: State)
    requires s.history != []
    ensures r.history != []
  {
    if steps == [] then s else Next(Run(s, steps[..|steps| - 1]), steps[|steps| - 1])
  }

  // ---------------------------------------------------------------- invariants

  /** A generation is ready, and its pools come from its catalog or are local only. */
  ghost predicate GenerationOk(g: Generation) {
    && Ready(g.live)
    && (g.live.pools.Some? ==>
          || g.live.pools.value.relay == []
          || (g.source.Some? && g.live.pools == Assemble(Inputs(g.source.value.local, g.source.value.subs))))
  }

  ghost predicate HandlerOk(history: seq<Generation>, h: Handler) {
    && h.gen < |history| && h.live == history[h.gen].live
    && (h.Replied? ==> exists free :: h.reply == Respond(h.live, h.pkt, free, h.row))
  }

  /** Some pool of some generation holds the address. */
  ghost predicate FromSomePool(history: seq<Generation>, a: Addr) {
    exists g :: 0 <= g < |history| && history[g].live.pools.Some? && InSomePool(history[g].live.pools.value, a)
  }

  ghost predicate InSomePool(sp: SubnetPools, a: Addr) {
    sp.local.Contains(a) || exists k :: 0 <= k < |sp.relay| && sp.relay[k].Contains(a)
  }

  ghost predicate Inv(s: State) {
    && (forall g :: 0 <= g < |s.history| ==> GenerationOk(s.history[g]))
    && (forall t :: t in s.handlers ==> HandlerOk(s.history, s.handlers[t]))
    && (forall m :: m in s.rows ==> FromSomePool(s.history, s.rows[m]))
    && (forall t :: t in s.handlers && s.handlers[t].Replied? && s.handlers[t].row.Some? ==>
          FromSomePool(s.history, s.handlers[t].row.value))
  }

  lemma StartInv(c: Config, source: Option<Catalog>)
    requires Start(c, source).Some?
    ensures Inv(Start(c, source).value)
  {
    hide Assemble;
  }

  lemma StepKeepsInv(s: State, step: Step)
    requires s.history != [] && Inv(s)
    ensures Inv(Next(s, step))
  {
    if step.Install? {
      InstallKeepsInv(s, step);
    } else if step.Answer? {
      AnswerKeepsInv(s, step);
    } else {
      ArriveKeepsInv(s, step);
    }
  }

  lemma InstallKeepsInv(s: State, step: Step)
    requires s.history != [] && Inv(s) && step.Install?
    ensures Inv(Next(s, step))
  {
    hide Assemble, Respond, InSomePool;
    var s' := Next(s, step);
    forall t | t in s'.handlers ensures HandlerOk(s'.history, s'.handlers[t]) {
      assert HandlerOk(s.history, s.handlers[t]);
    }
    forall a | FromSomePool(s.history, a) ensures FromSomePool(s'.history, a) {
      var g :| 0 <= g < |s.history| && s.history[g].live.pools.Some? && InSomePool(s.history[g].live.pools.value, a);
      assert s'.history[g] == s.history[g];
    }
  }

  lemma ArriveKeepsInv(s: State, step: Step)
    requires s.history != [] && Inv(s) && step.Arrive?
    ensures Inv(Next(s, step))
  {
    hide GenerationOk, FromSomePool, Respond;
  }

  lemma AnswerKeepsInv(s: State, step: Step)
    requires s.history != [] && Inv(s) && step.Answer?
    ensures Inv(Next(s, step))
  {
    hide GenerationOk, FromSomePool, Respond;
    var t := step.t;
    if t in s.handlers && s.handlers[t].Snapped? {
      var h, s' := s.handlers[t], Next(s, step);
      assert HandlerOk(s.history, h);
      var row := s'.handlers[t].row;
      assert s'.handlers[t].reply == Respond(h.live, h.pkt, step.free, row);
      if s'.handlers[t].reply.Offer? { OfferInPool(s.history, h, step.free, row); }
    }
  }

  lemma OfferInPool(history: seq<Generation>, h: Handler, free: Option<Addr>, row: Option<Addr>)
    requires HandlerOk(history, h) && Respond(h.live, h.pkt, free, row).Offer?
    ensures FromSomePool(history, Respond(h.live, h.pkt, free, row).addr)
  {
    hide Pool.Contains;
    var r, sp := Respond(h.live, h.pkt, free, row), h.live.pools.value;
    if h.pkt.giaddr.Some? { RouteFinds(sp.relay, h.pkt.giaddr.value); }
    assert r.pool == sp.local || r.pool in sp.relay;
    assert InSomePool(sp, r.addr);
  }

  lemma {:induction false} RunKeepsInv(s: State, steps: seq<Step>)
    requires s.history != [] && Inv(s)
    ensures Inv(Run(s, steps))
  {
    if steps != [] {
      hide Inv, Next;
      RunKeepsInv(s, steps[..|steps| - 1]);
      StepKeepsInv(Run(s, steps[..|steps| - 1]), steps[|steps| - 1]);
    }
  }

  // ---------------------------------------------------------------- theorems

  /** Full mode always has pools and leases: in every generation and every snapshot. */
  lemma FullModeIsReady(c: Config, source: Option<Catalog>, steps: seq<Step>, g: nat, t: Tid)
    requires Start(c, source).Some?
    ensures var s := Run(Start(c, source).value, steps);
            && (g < |s.history| ==> Ready(s.history[g].live))
            && (t in s.handlers ==> Ready(s.handlers[t].live))
  {
    StartInv(c, source);
    RunKeepsInv(Start(c, source).value, steps);
    hide Start, Run, Ready;
    var s := Run(Start(c, source).value, steps);
    if t in s.handlers { assert HandlerOk(s.history, s.handlers[t]); }
  }

  lemma ReplyPool(l: Live, pkt: Packet, free: Option<Addr>, row: Option<Addr>)
    ensures var r := Respond(l, pkt, free, row);
            && (r.Offer? || r.Ack? || r.Nak? ==> l.pools.Some? && Some(r.pool) == ResolvePool(pkt, l.pools))
            && (r.Offer? ==> r.pool.Contains(r.addr) && r.addr !in r.pool.exclude)
            && (r.Ack? ==> pkt.kind.Request? && row == Some(r.addr))
            && (r.Ack? && pkt.kind.wanted.Some? ==> pkt.kind.wanted == row && r.pool.Contains(r.addr))
  {
    hide PoolForRequest, Pool.Contains;
  }

  /** Every case of a reply, given the pool set in force: proxy replies outside full mode,
      silence without a pool, and otherwise by the kind of packet. */
  lemma RespondSpelt(l: Live, pkt: Packet, free: Option<Addr>, row: Option<Addr>)
    ensures l.mode != "full" ==> Respond(l, pkt, free, row) == Proxy
    ensures l.mode == "full" && l.pools.None? ==> Respond(l, pkt, free, row) == Silent
    ensures l.mode == "full" && l.pools.Some? ==>
      var direct := pkt.giaddr.None? || pkt.giaddr.value == [0, 0, 0, 0];
      var pool := if direct then Some(l.pools.value.local) else PoolForRequest(l.pools.value, pkt.giaddr);
      Respond(l, pkt, free, row) ==
        if pool.None? then Silent
        else if pkt.kind.Discover? then
          if free.Some? && pool.value.Contains(free.value) && free.value !in pool.value.exclude
          then Offer(pool.value, free.value) else Silent
        else if pkt.kind.Request? then
          if row.Some? && (pkt.kind.wanted.None? || (pkt.kind.wanted == row && pool.value.Contains(row.value)))
          then Ack(pool.value, row.value) else Nak(pool.value)
        else Silent
  {
    hide PoolForRequest, Pool.Contains;
  }

  /** Exactly when a confirmed address lies in the pool whose options the client gets: when
      the REQUEST names an address, or when the one on record happens to lie there.  A
      REQUEST that names none is confirmed on the record alone. */
  lemma AckInsideIff(l: Live, pkt: Packet, p: Pool, free: Option<Addr>, row: Option<Addr>)
    requires l.mode == "full" && ResolvePool(pkt, l.pools) == Some(p) && pkt.kind.Request?
    ensures var r := Respond(l, pkt, free, row);
            && (r.Ack? <==> row.Some? && (pkt.kind.wanted.Some? ==> pkt.kind.wanted == row && p.Contains(row.value)))
            && (r.Ack? ==> (p.Contains(r.addr) <==> pkt.kind.wanted.Some? || p.Contains(row.value)))
  {
    hide PoolForRequest, Pool.Contains;
  }

  /** A relay pool of an assembled set is not its local pool. */
  lemma RelayIsNotLocal(local: Input, subs: seq<SubnetRow>, sn: SubnetRow)
    requires Assemble(Inputs(local, subs)).Some? && InputOk(InputOf(local, sn)) && sn.cidr.Cidr?
    ensures InputPool(InputOf(local, sn)) != Assemble(Inputs(local, subs)).value.local
  {
    hide InputOk, PoolOf, Relays, Compatible, SpecOk;
    var k := LocalInput(Inputs(local, subs));
    LocalIs(Inputs(local, subs), k);
  }

  /** Across every interleaving of packets and reloads, a relayed packet that gets an
      OFFER, an ACK or a NAK got it from one pool of the one generation it took its
      snapshot of: a relay pool of a catalog subnet that contains both giaddr and the start
      of the pool's first range, never the local pool.  An offered address lies in that
      pool and is not excluded; so is a confirmed one if the REQUEST named it; otherwise it is
      the address last offered to the client, from some pool of some generation. */
  lemma RelayedPacket(c: Config, source: Option<Catalog>, steps: seq<Step>, t: Tid) returns (sn: SubnetRow)
    requires Start(c, source).Some?
    requires var s := Run(Start(c, source).value, steps); t in s.handlers && s.handlers[t].Replied?
    requires var h := Run(Start(c, source).value, steps).handlers[t];
      h.pkt.giaddr.Some? && h.pkt.giaddr.value != UNSPECIFIED && (h.reply.Offer? || h.reply.Ack? || h.reply.Nak?)
    ensures var s := Run(Start(c, source).value, steps);
            var h := s.handlers[t];
            && h.gen < |s.history| && h.live == s.history[h.gen].live
            && h.live.pools.Some? && s.history[h.gen].source.Some?
            && sn in s.history[h.gen].source.value.subs && sn.cidr.Cidr?
            && h.reply.pool in h.live.pools.value.relay && h.reply.pool != h.live.pools.value.local
            && h.reply.pool.ranges != []
            && Masked(sn.cidr.addr, sn.cidr.bits).Contains(h.pkt.giaddr.value)
            && Masked(sn.cidr.addr, sn.cidr.bits).Contains(h.reply.pool.ranges[0].start)
            && (h.reply.Offer? ==> h.reply.pool.Contains(h.reply.addr) && h.reply.addr !in h.reply.pool.exclude)
            && (h.reply.Ack? ==> h.pkt.kind.Request? && h.row == Some(h.reply.addr) && FromSomePool(s.history, h.reply.addr))
            && (h.reply.Ack? && h.pkt.kind.wanted.Some? ==> h.reply.pool.Contains(h.reply.addr))
  {
    StartInv(c, source);
    RunKeepsInv(Start(c, source).value, steps);
    hide Start, Run, Assemble, Respond, Masked, InputOk, InputPool, Inputs, Pool.Contains, FromSomePool;
    var s := Run(Start(c, source).value, steps);
    var h := s.handlers[t];
    assert HandlerOk(s.history, h);
    var free :| h.reply == Respond(h.live, h.pkt, free, h.row);
    ReplyPool(h.live, h.pkt, free, h.row);
    var g := s.history[h.gen];
    assert GenerationOk(g);
    RouteFinds(h.live.pools.value.relay, h.pkt.giaddr.value);
    var cat := g.source.value;
    sn := RelayStaysInSubnet(cat.local, cat.subs, h.pkt.giaddr.value);
    RelayIsNotLocal(cat.local, cat.subs, sn);
  }

  lemma Grows(s: State, steps: seq<Step>, step: Step)
    requires s.history != []
    ensures Run(s, steps + [step]) == Next(Run(s, steps), step)
  {
    hide Next;
    assert (steps + [step])[..|steps|] == steps;
  }

  /** One packet, from arrival to answer. */
  lemma Handles(s: State, steps: seq<Step>, t: Tid, pkt: Packet, free: Option<Addr>) returns (longer: seq<Step>)
    requires s.history != [] && t !in Run(s, steps).handlers
    ensures var a, b := Run(s, steps), Run(s, longer);
            var live := a.history[|a.history| - 1].live;
            var row := if pkt.mac in a.rows then Some(a.rows[pkt.mac]) else None;
            var reply := Respond(live, pkt, free, row);
            && b.history == a.history
            && b.handlers == a.handlers[t := Replied(|a.history| - 1, live, pkt, row, reply)]
            && b.rows == if reply.Offer? then a.rows[pkt.mac := reply.addr] else a.rows
  {
    hide Respond, Run;
    Grows(s, steps, Arrive(t, pkt));
    Grows(s, steps + [Arrive(t, pkt)], Answer(t, free, true));
    longer := steps + [Arrive(t, pkt)] + [Answer(t, free, true)];
  }

  /** It does happen: with any catalog, a client that was offered any address of the local
      pool and then sends a REQUEST without an address through a relay is confirmed on it,
      with the options of the relay's pool, which need not hold it. */
  lemma RoamingRun(s: State, cat: Catalog, mac: Mac, gi: Addr, a: Addr, p: Pool) returns (steps: seq<Step>)
    requires s.history != [] && s.handlers == map[] && Assemble(Inputs(cat.local, cat.subs)).Some? && gi != UNSPECIFIED
    requires var sp := Assemble(Inputs(cat.local, cat.subs)).value;
      PoolForRequest(sp, Some(gi)) == Some(p) && sp.local.Contains(a) && a !in sp.local.exclude
    ensures var s' := Run(s, steps);
            && 1 in s'.handlers && s'.handlers[1].Replied? && s'.handlers[1].reply == Ack(p, a)
            && s'.handlers[1].pkt == Packet(mac, Some(gi), Request(None))
  {
    hide Assemble, Run, PoolForRequest, Pool.Contains;
    var install := Install("full", Some(cat), Some(0));
    Nothing(s);
    Grows(s, [], install);
    var s1 := Run(s, [] + [install]);
    var live := Live("full", Assemble(Inputs(cat.local, cat.subs)), Some(0));
    assert s1 == s.(history := s.history + [Generation(live, Some(cat))]);
    var b := Handles(s, [] + [install], 0, Packet(mac, None, Discover), Some(a));
    assert Run(s, b).rows == s.rows[mac := a];
    steps := Handles(s, b, 1, Packet(mac, Some(gi), Request(None)), None);
  }

  lemma Nothing(s: State)
    requires s.history != []
    ensures Run(s, []) == s
  {
  }

  /** And what should happen does: once a catalog is installed in full mode, a DISCOVER relayed
      through any address of a catalog subnet is offered whatever free address the lease store
      finds in that subnet's ranges. */
  lemma RelayedDiscover(s: State, cat: Catalog, mac: Mac, i: nat, gi: Addr, a: Addr) returns (steps: seq<Step>)
    requires s.history != [] && s.handlers == map[] && Assemble(Inputs(cat.local, cat.subs)).Some?
    requires i < |cat.subs| && cat.subs[i].ranges != [] && cat.subs[i].cidr.Cidr?
    requires gi != [0, 0, 0, 0] && Agree(gi, cat.subs[i].cidr.addr, cat.subs[i].cidr.bits)
    requires exists k :: 0 <= k < |cat.subs[i].ranges| && cat.subs[i].ranges[k].start.V4? && cat.subs[i].ranges[k].end.V4?
                         && Num(cat.subs[i].ranges[k].start.addr) <= Num(a) <= Num(cat.subs[i].ranges[k].end.addr)
    ensures var s' := Run(s, steps);
            && 0 in s'.handlers && s'.handlers[0].Replied? && s'.handlers[0].reply.Offer? && s'.handlers[0].reply.addr == a
            && Carries(s'.handlers[0].reply.pool, cat.subs[i].ranges, Mask(4, 32 - cat.subs[i].cidr.bits), cat.subs[i].gateway,
                       cat.subs[i].dns, [], cat.local.leaseSec)
  {
    hide Assemble, Run, PoolForRequest, Agree, Mask;
    var p := CatalogServes(cat.local, cat.subs, i, gi);
    var k :| 0 <= k < |cat.subs[i].ranges| && cat.subs[i].ranges[k].start.V4? && cat.subs[i].ranges[k].end.V4?
             && Num(cat.subs[i].ranges[k].start.addr) <= Num(a) <= Num(cat.subs[i].ranges[k].end.addr);
    assert p.ranges[k].Holds(a) && V4(a) !in [];
    var install := Install("full", Some(cat), Some(0));
    Nothing(s);
    Grows(s, [], install);
    var live := Live("full", Assemble(Inputs(cat.local, cat.subs)), Some(0));
    assert Run(s, [] + [install]) == s.(history := s.history + [Generation(live, Some(cat))]);
    steps := Handles(s, [] + [install], 0, Packet(mac, Some(gi), Discover), Some(a));
  }

  /** A reload takes effect at once, for the packets that arrive from then on: the current
      generation is what was asked for, and a reload that is refused leaves it alone. */
  lemma InstallTakesEffect(s: State, mode: string, source: Option<Catalog>, leases: Option<Store>)
    requires s.history != []
    ensures var s' := Next(s, Install(mode, source, leases));
            var pools := if source.Some? then Assemble(Inputs(source.value.local, source.value.subs)) else None;
            var last := s'.history[|s'.history| - 1];
            && s'.handlers == s.handlers && s'.rows == s.rows
            && if (source.Some? && pools.None?) || mode !in {"", "proxy", "full"} || (mode == "full" && (pools.None? || leases.None?))
               then s'.history == s.history
               else s'.history == s.history + [last] && last.live.mode == (if mode == "" then "proxy" else mode)
                    && last.live.pools == pools && last.live.leases == leases && last.source == source
  {
    hide Assemble;
  }

  /** A packet that arrives is handled on the current generation. */
  lemma ArrivalSeesCurrent(s: State, t: Tid, pkt: Packet)
    requires s.history != [] && t !in s.handlers
    ensures var s' := Next(s, Arrive(t, pkt));
            t in s'.handlers && s'.handlers[t].live == s.history[|s.history| - 1].live && s'.handlers[t].pkt == pkt && s'.history == s.history
  {
  }
}
