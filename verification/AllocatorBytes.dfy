/** The two address loops of the allocator as the code runs them, on byte strings
    (internal/bindings/store.go), proved against the numeric specifications. */
module AllocatorBytes {
  import opened Addresses
  import opened Allocator

  ghost function Numbers(used: set<Addr>): set<IP> {
    set a | a in used :: NumOf(a)
  }

  ghost function Values(s: seq<Addr>): seq<IP> {
    seq(|s|, k requires 0 <= k < |s| => NumOf(s[k]))
  }

  lemma NumberIn(used: set<Addr>, a: Addr)
    ensures NumOf(a) in Numbers(used) <==> a in used
  {
    hide Num;
    if NumOf(a) in Numbers(used) {
      var b :| b in used && NumOf(b) == NumOf(a);
      NumInjective(a, b);
    }
  }

  lemma LastAddress(net: IPNet)
    requires net.Valid()
    ensures NetOf(net).lo <= NetOf(net).hi && NumOf(net.ip) == NetOf(net).lo
  {
  }

  /** The candidates so far are the free addresses below pos, in order. */
  ghost predicate FreeBelow(n: Net, u: set<IP>, cand: seq<Addr>, pos: nat) {
    && Ascending(Values(cand))
    && forall x: IP :: x in Values(cand) <==> Free(n, u, x) && x < pos
  }

  lemma OneMore(n: Net, u: set<IP>, cand: seq<Addr>, ip: Addr, pos: nat)
    requires FreeBelow(n, u, cand, pos) && NumOf(ip) == pos && Free(n, u, NumOf(ip))
    ensures FreeBelow(n, u, cand + [ip], pos + 1)
  {
    hide NumOf;
    var vs := Values(cand);
    assert forall i :: 0 <= i < |vs| ==> vs[i] in vs;
    assert Values(cand + [ip]) == vs + [NumOf(ip)];
  }

  /** The scan loop: nextIP from the network address until the broadcast address or 512
      candidates. */
  method CollectCandidates(net: IPNet, used: set<Addr>) returns (cand: seq<Addr>)
    requires net.Valid()
    ensures Candidates(NetOf(net), Numbers(used), Values(cand))
  {
    hide Num, Next, MaskBytes, Mask, FillBytes, Pow2, IPNet.IsBroadcast, IPNet.Contains, NumOf, NetOf, Numbers;
    ghost var n, u := NetOf(net), Numbers(used);
    LastAddress(net);
    cand := [];
    BytesAreNumbers(net, net.ip, net.ip);
    var ip: Addr := Next(net.ip);
    ghost var pos: nat := n.lo + 1;
    BytesAreNumbers(net, ip, ip);
    while net.Contains(ip)
      invariant net.Contains(ip) <==> n.Contains(NumOf(ip))
      invariant n.lo < pos <= n.hi + 1
      invariant if pos <= n.hi then NumOf(ip) == pos else !n.Contains(NumOf(ip))
      invariant |cand| < MAX_CANDIDATES && FreeBelow(n, u, cand, pos)
      decreases n.hi + 1 - pos
    {
      BytesAreNumbers(net, ip, ip);
      if net.IsBroadcast(ip) { break; }
      NumberIn(used, ip);
      if ip !in used {
        OneMore(n, u, cand, ip, pos);
        cand := cand + [ip];
        if |cand| >= MAX_CANDIDATES { break; }
      }
      ip := Next(ip);
      pos := pos + 1;
      BytesAreNumbers(net, ip, ip);
    }
  }

  /** The pool loop: nextIP from start while inside the subnet and not past end. */
  method ReservePool(net: IPNet, start: Addr, end: Addr, used0: set<Addr>) returns (used: set<Addr>)
    requires net.Valid() && (net.bits >= 1 || NumOf(end) < SPACE - 1)
    ensures forall a: Addr :: a in used <==> a in used0 || PoolReserves(NetOf(net), Pool(NumOf(start), NumOf(end)), NumOf(a))
  {
    hide Num, Next, MaskBytes, Mask, FillBytes, Pow2, IPNet.IsBroadcast, IPNet.Contains, IpGT, NumOf, NetOf;
    ghost var n, lo, hi := NetOf(net), NumOf(start), NumOf(end);
    LastAddress(net);
    used := used0;
    BytesAreNumbers(net, start, end);
    if !net.Contains(start) { return; }
    var ip: Addr := start;
    ghost var pos: nat := lo;
    while net.Contains(ip) && !IpGT(ip, end)
      invariant net.Contains(ip) <==> n.Contains(NumOf(ip))
      invariant IpGT(ip, end) <==> NumOf(ip) > hi
      invariant lo <= pos <= n.hi + 1
      invariant if pos <= n.hi then NumOf(ip) == pos else !n.Contains(NumOf(ip))
      invariant forall a: Addr :: a in used <==> a in used0 || (lo <= NumOf(a) < pos && NumOf(a) <= hi)
      decreases n.hi + 1 - pos
    {
      forall a: Addr | NumOf(a) == pos ensures a == ip { BytesAreNumbers(net, a, ip); }
      BytesAreNumbers(net, ip, end);
      used := used + {ip};
      ip := Next(ip);
      pos := pos + 1;
      BytesAreNumbers(net, ip, end);
    }
  }
}
