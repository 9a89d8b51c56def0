/** Static address allocation: allocateIPFromSubnet and reservedIPs of
    internal/bindings/store.go, on the numeric view of addresses that
    Addresses.BytesAreNumbers justifies. */
module Allocator {
  import opened Basics
  import opened Addresses
  import opened Prober

  const MAX_CANDIDATES := 512
  const BATCH := 16
  const MAX_PROBES := 128

  // ---------------------------------------------------------------- reserved addresses

  /** The configured DHCP pool, when dhcp.mode is "full" and both bounds parse. */
  datatype Pool = Pool(start: IP, end: IP)

  /** What reservedIPs reads: the gateway, the other bindings' addresses, the
      controller's own addresses, the live leases and the DHCP pool. */
  datatype Sources = Sources(gateway: Option<IP>, others: seq<IP>, controller: seq<IP>,
                             leases: seq<IP>, pool: Option<Pool>)

  /** The pool loop's guard. */
  predicate PoolGuard(net: Net, pool: Pool, ip: IP) {
    net.Contains(ip) && !(ip > pool.end)
  }

  /** The loop variable after k increments. */
  function Iterate(a: IP, k: nat): IP {
    if k == 0 then a else NextNum(Iterate(a, k - 1))
  }

  lemma {:induction false} IterateValue(a: IP, k: nat)
    ensures Iterate(a, k) == (a + k) % SPACE
  {
    if k > 0 {
      IterateValue(a, k - 1);
      ModSucc(a + k - 1);
    }
  }

  lemma ModSucc(n: nat)
    ensures (n % SPACE + 1) % SPACE == (n + 1) % SPACE
  {
    var q, r := n / SPACE, n % SPACE;
    assert n + 1 == SPACE * q + (r + 1);
    if r + 1 == SPACE { assert n + 1 == SPACE * (q + 1); }
  }

  /** The pool loop reaches an address that fails its guard. */
  ghost predicate PoolLoopStops(net: Net, pool: Pool) {
    exists k: nat :: !PoolGuard(net, pool, Iterate(pool.start, k))
  }

  /** Increments cannot step out of the whole address space, so a /0 with a pool
      that ends at 255.255.255.255 is the one case that never ends. */
  predicate PoolLoopSafe(net: Net, pool: Pool) {
    net != Net(0, SPACE - 1) || pool.end < SPACE - 1
  }

  lemma PoolLoopStopsExactly(net: Net, pool: Pool)
    ensures PoolLoopStops(net, pool) <==> PoolLoopSafe(net, pool)
  {
    if PoolLoopSafe(net, pool) {
      var s, e := pool.start, pool.end;
      var k := if !PoolGuard(net, pool, s) then 0
               else if net != Net(0, SPACE - 1) then net.hi + 1 - s else e + 1 - s;
      IterateValue(s, k);
      assert !PoolGuard(net, pool, Iterate(s, k));
    } else {
      forall k: nat ensures PoolGuard(net, pool, Iterate(pool.start, k)) {}
    }
  }

  /** A subnet as the catalog stores it: validateCIDR admits prefix lengths 1 to 32 only. */
  ghost predicate InCatalog(net: Net) {
    exists n: IPNet :: n.Valid() && n.bits >= 1 && NetOf(n) == net
  }

  /** So on a subnet of the catalog the pool loop always ends. */
  lemma CatalogIsSafe(net: Net, pool: Pool)
    requires InCatalog(net)
    ensures PoolLoopSafe(net, pool) && PoolLoopStops(net, pool) && net.lo <= net.hi
  {
    hide PoolLoopStops, Pow2;
    var n: IPNet :| n.Valid() && n.bits >= 1 && NetOf(n) == net;
    WholeSpace(n);
    PoolLoopStopsExactly(net, pool);
  }

  /** The pool loop reserves exactly start up to the smaller of end and broadcast. */
  predicate PoolReserves(net: Net, pool: Pool, x: IP) {
    net.Contains(pool.start) && pool.start <= x <= pool.end && x <= net.hi
  }

  /** The loop that reserves the pool range. */
  method ReservePool(net: Net, pool: Pool, used0: set<IP>) returns (used: set<IP>)
    requires PoolLoopSafe(net, pool)
    ensures forall x: IP :: x in used <==> x in used0 || PoolReserves(net, pool, x)
  {
    used := used0;
    if !net.Contains(pool.start) { return; }
    var ip: IP := pool.start;
    ghost var pos: nat := ip;
    while net.Contains(ip) && !(ip > pool.end)
      invariant pool.start <= pos <= net.hi + 1
      invariant if pos <= net.hi then ip == pos else !net.Contains(ip)
      invariant forall x: IP :: x in used <==> x in used0 || (pool.start <= x < pos && x <= pool.end)
      decreases net.hi + 1 - pos
    {
      used := used + {ip};
      ip := NextNum(ip);
      pos := pos + 1;
    }
  }

  predicate Reserves(net: Net, src: Sources, x: IP) {
    || src.gateway == Some(x)
    || x in src.others || x in src.controller || x in src.leases
    || (src.pool.Some? && PoolReserves(net, src.pool.value, x))
  }

  predicate Terminates(net: Net, src: Sources) {
    src.pool.Some? ==> PoolLoopSafe(net, src.pool.value)
  }

  method AddAll(used0: set<IP>, xs: seq<IP>) returns (used: set<IP>)
    ensures forall x: IP :: x in used <==> x in used0 || x in xs
  {
    used := used0;
    for i := 0 to |xs|
      invariant forall x: IP :: x in used <==> x in used0 || x in xs[..i]
    {
      used := used + {xs[i]};
      assert xs[..i + 1] == xs[..i] + [xs[i]];
    }
    assert xs[..|xs|] == xs;
  }

  /** reservedIPs. */
  method ReservedIPs(net: Net, src: Sources) returns (used: set<IP>)
    requires Terminates(net, src)
    ensures forall x: IP :: x in used <==> Reserves(net, src, x)
    ensures forall x: IP :: x in used <==>
      || src.gateway == Some(x) || x in src.others || x in src.controller || x in src.leases
      || (src.pool.Some? && net.lo <= src.pool.value.start <= x && x <= src.pool.value.end && x <= net.hi)
  {
    used := {};
    if src.gateway.Some? { used := {src.gateway.value}; }
    used := AddAll(used, src.others);
    used := AddAll(used, src.controller);
    used := AddAll(used, src.leases);
    if src.pool.Some? { used := ReservePool(net, src.pool.value, used); }
  }

  // ---------------------------------------------------------------- candidates

  /** A host address of the network that is not reserved. */
  predicate Free(net: Net, used: set<IP>, x: IP) {
    net.lo < x < net.hi && x !in used
  }

  ghost predicate Ascending(s: seq<IP>) {
    forall i, j :: 0 <= i < j < |s| ==> s[i] < s[j]
  }

  /** The free addresses in increasing order, cut at MAX_CANDIDATES. */
  ghost predicate Candidates(net: Net, used: set<IP>, cand: seq<IP>) {
    && |cand| <= MAX_CANDIDATES
    && Ascending(cand)
    && (forall x: IP :: x in cand ==> Free(net, used, x))
    && (forall x: IP :: Free(net, used, x) && x !in cand ==>
          |cand| == MAX_CANDIDATES && cand[MAX_CANDIDATES - 1] < x)
  }

  /** The scan loop. */
  method CollectCandidates(net: Net, used: set<IP>) returns (cand: seq<IP>)
    requires net.lo <= net.hi
    ensures Candidates(net, used, cand)
  {
    cand := [];
    var ip: IP := NextNum(net.lo);
    ghost var pos: nat := net.lo + 1;
    while net.Contains(ip)
      invariant net.lo < pos <= net.hi + 1
      invariant if pos <= net.hi then ip == pos else !net.Contains(ip)
      invariant |cand| < MAX_CANDIDATES && Ascending(cand)
      invariant forall x: IP :: x in cand <==> Free(net, used, x) && x < pos
      decreases net.hi + 1 - pos
    {
      if ip == net.hi { break; }
      if ip !in used {
        assert forall i :: 0 <= i < |cand| ==> cand[i] in cand;
        cand := cand + [ip];
        if |cand| >= MAX_CANDIDATES { break; }
      }
      ip := NextNum(ip);
      pos := pos + 1;
    }
  }

  // ---------------------------------------------------------------- probing

  /** How many candidates may be probed at all. */
  function Reach(cand: seq<IP>): (n: nat)
    ensures n <= |cand| && n <= MAX_PROBES
  {
    if |cand| < MAX_PROBES then |cand| else MAX_PROBES
  }

  /** The k-th probe batch. */
  function Batch(cand: seq<IP>, k: nat): seq<IP>
    requires BATCH * k < Reach(cand)
  {
    cand[BATCH * k .. if BATCH * k + BATCH < Reach(cand) then BATCH * k + BATCH else Reach(cand)]
  }

  /** Candidate i answered the probe of its batch. */
  predicate Answered(cand: seq<IP>, probe: Layer, i: nat)
    requires i < Reach(cand)
  {
    var r := probe(Batch(cand, i / BATCH));
    r.Verdict? && Alive(r.live, cand[i])
  }

  ghost predicate AllAnswered(cand: seq<IP>, probe: Layer, n: nat)
    requires n <= Reach(cand)
  {
    forall j: nat :: j < n ==> Answered(cand, probe, j)
  }

  ghost predicate FirstSilentAt(cand: seq<IP>, probe: Layer, i: nat) {
    i < Reach(cand) && !Answered(cand, probe, i) && AllAnswered(cand, probe, i)
  }

  /** The chosen address is the first candidate that did not answer; failure
      means every candidate within reach answered. */
  ghost predicate FirstSilent(cand: seq<IP>, probe: Layer, r: Option<IP>) {
    match r
    case Some(a) => exists i: nat :: FirstSilentAt(cand, probe, i) && cand[i] == a
    case None => AllAnswered(cand, probe, Reach(cand))
  }

  /** One turn of the probe loop, starting at candidate i: the first silent
      candidate of the batch, or the batch's first one if the prober fails. */
  method ProbeBatch(cand: seq<IP>, probe: Layer, i: nat, probed: nat) returns (hit: Option<IP>, batch: seq<IP>)
    requires i % BATCH == 0 && i < Reach(cand) && probed == i
    requires AllAnswered(cand, probe, i)
    ensures batch == Batch(cand, i / BATCH)
    ensures hit.Some? ==> FirstSilent(cand, probe, hit) && hit.value in batch
    ensures hit.None? ==> AllAnswered(cand, probe, i + |batch|)
  {
    var end := i + BATCH;
    if end > |cand| { end := |cand|; }
    if end - i > MAX_PROBES - probed { end := i + (MAX_PROBES - probed); }
    batch := cand[i..end];
    var verdict := probe(batch);
    if verdict.Unavailable? {
      assert FirstSilentAt(cand, probe, i);
      return Some(batch[0]), batch;
    }
    for c := 0 to |batch|
      invariant AllAnswered(cand, probe, i + c)
    {
      assert (i + c) / BATCH == i / BATCH && cand[i + c] == batch[c];
      if !Alive(verdict.live, batch[c]) {
        assert FirstSilentAt(cand, probe, i + c);
        return Some(batch[c]), batch;
      }
    }
    return None, batch;
  }

  /** Probe in batches; the first candidate that stays silent is taken.  `log`
      records the batches handed to the prober. */
  method ProbeCandidates(cand: seq<IP>, probe: Layer) returns (r: Option<IP>, ghost log: seq<seq<IP>>)
    ensures FirstSilent(cand, probe, r)
    ensures ProbeLog(cand, log)
    ensures r.None? ==> BATCH * |log| >= Reach(cand)
    ensures r.Some? ==> |log| > 0 && r.value in log[|log| - 1] && AllAnswered(cand, probe, BATCH * (|log| - 1))
  {
    log := [];
    var probed, i := 0, 0;
    while i < |cand| && probed < MAX_PROBES
      invariant i == BATCH * |log| && i <= MAX_PROBES
      invariant probed == if i < |cand| then i else |cand|
      invariant AllAnswered(cand, probe, probed)
      invariant ProbeLog(cand, log)
    {
      var hit, batch := ProbeBatch(cand, probe, i, probed);
      log := log + [batch];
      if hit.Some? { return hit, log; }
      probed := probed + |batch|;
      i := i + BATCH;
    }
    return None, log;
  }

  ghost predicate ProbeLog(cand: seq<IP>, log: seq<seq<IP>>) {
    forall k :: 0 <= k < |log| ==> BATCH * k < Reach(cand) && log[k] == Batch(cand, k)
  }

  // ---------------------------------------------------------------- allocation

  /** The sticky test on the machine's previous address. */
  predicate Sticky(net: Net, own: IP) {
    net.Contains(own) && own != net.lo && own != net.hi
  }

  /** The outcome of a fresh allocation. */
  ghost predicate FirstFit(net: Net, used: set<IP>, probe: Layer, r: Option<IP>) {
    exists cand :: Candidates(net, used, cand) && FirstSilent(cand, probe, r)
  }

  /** The addresses reserved by the sources, as the set the code builds. */
  ghost predicate IsReserved(net: Net, src: Sources, used: set<IP>) {
    forall x: IP :: x in used <==> Reserves(net, src, x)
  }

  function ProberOf(prober: Option<Layer>): Layer {
    if prober.Some? then prober.value else (_ => Unavailable)
  }

  lemma ChosenIsCandidate(cand: seq<IP>, probe: Layer, a: IP)
    requires FirstSilent(cand, probe, Some(a))
    ensures a in cand
  {
    var i: nat :| FirstSilentAt(cand, probe, i) && cand[i] == a;
  }

  /** allocateIPFromSubnet.  A missing prober takes the first candidate, which is
      what a prober that is always unavailable does. */
  method AllocateIPFromSubnet(net: Net, own: Option<IP>, src: Sources, prober: Option<Layer>)
    returns (r: Option<IP>)
    requires net.lo <= net.hi && Terminates(net, src)
    ensures own.Some? && Sticky(net, own.value) ==> r == own
    ensures !(own.Some? && Sticky(net, own.value)) ==>
      exists used :: IsReserved(net, src, used) && FirstFit(net, used, ProberOf(prober), r)
    ensures own.Some? && net.lo < own.value < net.hi ==> r == own
    ensures r.Some? ==> net.lo < r.value < net.hi
    ensures r.Some? && !(own.Some? && net.lo < own.value < net.hi) ==>
      && src.gateway != r && r.value !in src.others && r.value !in src.controller && r.value !in src.leases
      && (src.pool.Some? && net.lo <= src.pool.value.start ==> r.value < src.pool.value.start || src.pool.value.end < r.value)
  {
    if own.Some? && Sticky(net, own.value) { return own; }
    var used := ReservedIPs(net, src);
    var cand := CollectCandidates(net, used);
    assert IsReserved(net, src, used);
    if |cand| == 0 {
      assert FirstSilent(cand, ProberOf(prober), None);
      return None;
    }
    assert cand[0] in cand;
    if prober.Some? {
      ghost var log;
      r, log := ProbeCandidates(cand, prober.value);
      if r.Some? { ChosenIsCandidate(cand, prober.value, r.value); }
    } else {
      r := Some(cand[0]);
      assert FirstSilentAt(cand, ProberOf(prober), 0);
    }
  }

  // ---------------------------------------------------------------- theorems

  /** Some probed batch that contains the address reported it live. */
  ghost predicate AnsweredProbe(cand: seq<IP>, probe: Layer, x: IP) {
    exists i: nat :: i < Reach(cand) && cand[i] == x && Answered(cand, probe, i)
  }

  /** First fit: the address handed out is a free host address, and every smaller
      free host address answered a probe, whatever later batches did. */
  lemma FreshIsFirstFit(net: Net, used: set<IP>, cand: seq<IP>, probe: Layer, a: IP)
    requires Candidates(net, used, cand) && FirstSilent(cand, probe, Some(a))
    ensures Free(net, used, a) && !AnsweredProbe(cand, probe, a)
    ensures forall x: IP :: Free(net, used, x) && x < a ==> AnsweredProbe(cand, probe, x)
  {
    var i: nat :| FirstSilentAt(cand, probe, i) && cand[i] == a;
    assert a in cand && (|cand| == MAX_CANDIDATES ==> cand[i] <= cand[MAX_CANDIDATES - 1]);
    forall x: IP | Free(net, used, x) && x < a ensures AnsweredProbe(cand, probe, x) {
      var j: nat :| j < |cand| && cand[j] == x;
      assert j < i && Answered(cand, probe, j);
    }
  }

  /** Candidate j was reported live in the probe of its batch of sixteen. */
  ghost predicate LiveInBatch(cand: seq<IP>, probe: Layer, j: nat)
    requires j < |cand|
  {
    var lo := j - j % 16;
    var verdict := probe(cand[lo..if lo + 16 < |cand| then lo + 16 else |cand|]);
    verdict.Verdict? && cand[j] in verdict.live && verdict.live[cand[j]]
  }

  /** The whole of a fresh allocation in elementary terms.  The candidates are the first up to
      512 unreserved addresses strictly between network and broadcast, in order.  The result is
      the first of the first 128 that was not reported live in its batch of sixteen, be it
      because the batch's probe failed, and there is none only if all of them were. */
  lemma FirstFitSpelt(net: Net, used: set<IP>, probe: Layer, r: Option<IP>) returns (cand: seq<IP>)
    requires FirstFit(net, used, probe, r)
    ensures |cand| <= 512 && forall i, j :: 0 <= i < j < |cand| ==> cand[i] < cand[j]
    ensures forall x: IP :: x in cand ==> net.lo < x < net.hi && x !in used
    ensures forall x: IP :: net.lo < x < net.hi && x !in used && x !in cand ==> |cand| == 512 && cand[511] < x
    ensures r.None? ==> forall j :: 0 <= j < |cand| && j < 128 ==> LiveInBatch(cand, probe, j)
    ensures r.Some? ==> exists i :: 0 <= i < |cand| && i < 128 && cand[i] == r.value && !LiveInBatch(cand, probe, i)
                                    && forall j :: 0 <= j < i ==> LiveInBatch(cand, probe, j)
  {
    cand :| Candidates(net, used, cand) && FirstSilent(cand, probe, r);
    forall j: nat | j < Reach(cand) ensures Answered(cand, probe, j) <==> LiveInBatch(cand, probe, j) {
      assert j - j % 16 == BATCH * (j / BATCH);
    }
    if r.Some? {
      var i: nat :| FirstSilentAt(cand, probe, i) && cand[i] == r.value;
      assert !LiveInBatch(cand, probe, i);
    }
  }

  /** The allocation fails exactly when there is no free host address, or the
      first min(128, count) free ones all answered; in particular an unavailable
      prober never makes it fail. */
  lemma FailsExactly(net: Net, used: set<IP>, cand: seq<IP>, probe: Layer, r: Option<IP>)
    requires Candidates(net, used, cand) && FirstSilent(cand, probe, r)
    ensures cand == [] <==> !exists x: IP :: Free(net, used, x)
    ensures r.None? <==> AllAnswered(cand, probe, Reach(cand))
    ensures r.None? && cand != [] ==> probe(Batch(cand, 0)).Verdict?
  {
    if cand != [] {
      assert cand[0] in cand;
      if r.None? { assert Answered(cand, probe, 0); }
    }
  }

  /** The specification leaves no choice: it determines candidates and outcome. */
  lemma FirstFitDeterministic(net: Net, used: set<IP>, probe: Layer, r1: Option<IP>, r2: Option<IP>)
    requires FirstFit(net, used, probe, r1) && FirstFit(net, used, probe, r2)
    ensures r1 == r2
  {
    var c1 :| Candidates(net, used, c1) && FirstSilent(c1, probe, r1);
    var c2 :| Candidates(net, used, c2) && FirstSilent(c2, probe, r2);
    CandidatesUnique(net, used, c1, c2);
    SilentUnique(c1, probe, r1, r2);
  }

  lemma SilentUnique(c: seq<IP>, probe: Layer, r1: Option<IP>, r2: Option<IP>)
    requires FirstSilent(c, probe, r1) && FirstSilent(c, probe, r2)
    ensures r1 == r2
  {
    if r1.Some? && r2.Some? {
      var i: nat :| FirstSilentAt(c, probe, i) && c[i] == r1.value;
      var k: nat :| FirstSilentAt(c, probe, k) && c[k] == r2.value;
      assert !(i < k) && !(k < i);
    }
  }

  lemma CandidatesUnique(net: Net, used: set<IP>, c1: seq<IP>, c2: seq<IP>)
    requires Candidates(net, used, c1) && Candidates(net, used, c2)
    ensures c1 == c2
  {
    CandidatesPrefix(net, used, c1, c2, |c1|);
    CandidatesPrefix(net, used, c2, c1, |c2|);
    assert c1[..|c1|] == c1 && c2[..|c2|] == c2;
  }

  lemma {:induction false} CandidatesPrefix(net: Net, used: set<IP>, c1: seq<IP>, c2: seq<IP>, n: nat)
    requires Candidates(net, used, c1) && Candidates(net, used, c2) && n <= |c1|
    ensures n <= |c2| && c1[..n] == c2[..n]
  {
    if n > 0 {
      var m := n - 1;
      CandidatesPrefix(net, used, c1, c2, m);
      EntryBound(net, used, c1, c2, m);
      EntryBound(net, used, c2, c1, m);
      assert c1[..n] == c1[..m] + [c1[m]] && c2[..n] == c2[..m] + [c2[m]];
    }
  }

  /** Lists that agree on m entries: entry m of one bounds entry m of the other. */
  lemma EntryBound(net: Net, used: set<IP>, c1: seq<IP>, c2: seq<IP>, m: nat)
    requires Candidates(net, used, c1) && Candidates(net, used, c2)
    requires m < |c1| && m <= |c2| && c1[..m] == c2[..m]
    ensures m < |c2| && c2[m] <= c1[m]
  {
    var x := c1[m];
    assert x in c1;
    if x in c2 {
      var j :| 0 <= j < |c2| && c2[j] == x;
      assert forall t :: 0 <= t < m ==> c2[..m][t] == c2[t] && c1[..m][t] == c1[t];
      assert j >= m;
    }
  }

  /** Every address is probed at most once, and at most 128 are. */
  lemma ProbesBounded(net: Net, used: set<IP>, cand: seq<IP>, log: seq<seq<IP>>, k: nat, l: nat, i: nat, j: nat)
    requires Candidates(net, used, cand) && ProbeLog(cand, log)
    requires k < |log| && l < |log| && i < |log[k]| && j < |log[l]|
    ensures |log| * BATCH <= MAX_PROBES && |log[k]| <= BATCH
    ensures log[k][i] == log[l][j] ==> k == l && i == j
  {
    assert log[k][i] == cand[BATCH * k + i] && log[l][j] == cand[BATCH * l + j];
    assert log[|log| - 1] == Batch(cand, |log| - 1);
  }

  /** A fresh address passes the sticky test, so repeating the allocation after
      it was stored returns the same address, whatever was reserved meanwhile. */
  lemma FreshIsSticky(net: Net, used: set<IP>, probe: Layer, a: IP)
    requires FirstFit(net, used, probe, Some(a))
    ensures Sticky(net, a) && a !in used
  {
    var cand :| Candidates(net, used, cand) && FirstSilent(cand, probe, Some(a));
    FreshIsFirstFit(net, used, cand, probe, a);
  }

  /** The sticky test ignores the gateway: an address that has meanwhile become
      the subnet's gateway is kept, although a fresh allocation would avoid it. */
  lemma StickyIgnoresGateway(net: Net, own: IP)
    requires net.lo < own < net.hi
    ensures Sticky(net, own) && Reserves(net, Sources(Some(own), [], [], [], None), own)
  {
  }

  /** Both layers gave a verdict on batch k: ARP on the batch, ICMP on what ARP left silent. */
  ghost predicate BothAnswered(cand: seq<IP>, arp: Layer, icmp: Layer, k: nat)
    requires BATCH * k < Reach(cand)
  {
    var b := Batch(cand, k);
    arp(b).Verdict? && icmp(Silent(arp(b).live, b)).Verdict?
  }

  ghost predicate SilentInBoth(cand: seq<IP>, arp: Layer, icmp: Layer, a: IP, k: nat)
    requires BATCH * k < Reach(cand) && BothAnswered(cand, arp, icmp, k)
  {
    var b := Batch(cand, k);
    var silent := Silent(arp(b).live, b);
    a in silent && !Alive(arp(b).live, a) && !Alive(icmp(silent).live, a)
  }

  /** The one batch a freshly allocated address was probed in: if both layers gave a verdict
      on it, the address stayed silent in the ARP probe of the batch and in the ICMP
      cross-check of the batch's silent part; and if only ARP did, it was silent to that.
      Nothing is asked of any other batch. */
  lemma FreshAnsweredNeither(cand: seq<IP>, arp: Layer, icmp: Layer, a: IP) returns (k: nat)
    requires FirstSilent(cand, ips => Composite(Some(arp), Some(icmp), ips), Some(a))
    ensures BATCH * k < Reach(cand) && a in Batch(cand, k)
    ensures BothAnswered(cand, arp, icmp, k) ==> SilentInBoth(cand, arp, icmp, a, k)
    ensures var first := arp(Batch(cand, k)); first.Verdict? ==> !(a in first.live && first.live[a])
  {
    var probe := ips => Composite(Some(arp), Some(icmp), ips);
    var i: nat :| FirstSilentAt(cand, probe, i) && cand[i] == a;
    k := i / BATCH;
    var b := Batch(cand, k);
    assert b[i - BATCH * k] == a;
    if BothAnswered(cand, arp, icmp, k) {
      CompositeSilence(arp, icmp, b, a);
    }
  }
}
