/** DHCP pools and pool sets (internal/dhcp/pool.go, pools.go) and the assembly of a set
    from the subnets catalog (cmd/controller/main.go).  Address texts enter already
    parsed: a field either is an IPv4 address or is not. */
module Dhcp {
  import opened Basics
  import opened Addresses

  // ---------------------------------------------------------------- prefixes

  type Prefix = p: IPNet | p.bits <= 32 witness IPNet([0, 0, 0, 0], 0)

  function Masked(a: Addr, bits: nat): Prefix
    requires bits <= 32
  {
    IPNet(MaskBytes(a, Mask(4, 32 - bits)), bits)
  }

  /** netip.Prefix.Overlaps: compare under the shorter of the two masks. */
  predicate Overlaps(p: Prefix, q: Prefix) {
    var h := 32 - if p.bits < q.bits then p.bits else q.bits;
    MaskBytes(p.ip, Mask(4, h)) == MaskBytes(q.ip, Mask(4, h))
  }

  /** No address lies in both prefixes. */
  ghost predicate Apart(p: Prefix, q: Prefix) {
    forall a: Addr :: !(p.Contains(a) && q.Contains(a))
  }

  /** Masking twice is masking with the shorter mask. */
  lemma MaskTwice(a: Addr, g: nat, h: nat)
    requires g <= h <= 32
    ensures MaskBytes(MaskBytes(a, Mask(4, g)), Mask(4, h)) == MaskBytes(a, Mask(4, h))
  {
    var b := MaskBytes(a, Mask(4, g));
    MaskValue(a, g);
    MaskValue(a, h);
    MaskValue(b, h);
    ClearNested(Num(a), g, h);
    NumInjective(MaskBytes(b, Mask(4, h)), MaskBytes(a, Mask(4, h)));
  }

  lemma OverlapsOrdered(p: Prefix, q: Prefix)
    requires p.bits <= q.bits
    ensures Overlaps(p, q) <==> p.Contains(q.ip)
    ensures Overlaps(p, q) <==> !Apart(p, q)
  {
    hide MaskBytes, Mask;
    if Overlaps(p, q) {
      assert p.Contains(q.ip) && q.Contains(q.ip);
    }
    if a: Addr :| p.Contains(a) && q.Contains(a) {
      MaskTwice(a, 32 - q.bits, 32 - p.bits);
      MaskTwice(q.ip, 32 - q.bits, 32 - p.bits);
    }
  }

  /** Overlaps is false exactly when the prefixes share no address. */
  lemma OverlapsIff(p: Prefix, q: Prefix)
    ensures Overlaps(p, q) <==> !Apart(p, q)
  {
    hide Apart, Overlaps;
    if p.bits <= q.bits {
      OverlapsOrdered(p, q);
    } else {
      OverlapsOrdered(q, p);
      ApartSym(p, q);
    }
  }

  lemma ApartSym(p: Prefix, q: Prefix)
    ensures Apart(p, q) <==> Apart(q, p)
    ensures Overlaps(p, q) <==> Overlaps(q, p)
  {
    hide MaskBytes, Mask;
  }

  // ---------------------------------------------------------------- pools

  /** A configuration field that should hold an IPv4 address. */
  datatype Text = NotV4 | V4(addr: Addr)

  datatype RangeText = RangeText(start: Text, end: Text)

  datatype Range = Range(start: Addr, end: Addr) {
    predicate Holds(a: Addr) { Num(start) <= Num(a) <= Num(end) }
  }

  datatype Pool = Pool(ranges: seq<Range>, netmask: Addr, gateway: Addr, dns: seq<Addr>, exclude: set<Addr>,
                       leaseSec: nat, selectors: seq<Prefix>)
  {
    /** Pool.Contains. */
    predicate Contains(a: Addr) { exists k :: 0 <= k < |ranges| && ranges[k].Holds(a) }

    /** The first range's start and a lie in the same subnet under the pool's netmask. */
    predicate ContainsKey(a: Addr)
      requires ranges != []
    {
      MaskBytes(ranges[0].start, netmask) == MaskBytes(a, netmask)
    }
  }

  /** The arguments of NewPoolRanges. */
  datatype Spec = Spec(ranges: seq<RangeText>, netmask: Text, gateway: Text, dns: seq<Text>, exclude: seq<Text>,
                       leaseSec: nat)

  predicate RangesOverlap(a: Range, b: Range) {
    Num(a.start) <= Num(b.end) && Num(b.start) <= Num(a.end)
  }

  ghost predicate Disjoint(a: Range, b: Range) {
    forall x: Addr :: !(a.Holds(x) && b.Holds(x))
  }

  /** rangesOverlap finds exactly the non-empty ranges that share an address. */
  lemma RangesOverlapIff(a: Range, b: Range)
    requires Num(a.start) <= Num(a.end) && Num(b.start) <= Num(b.end)
    ensures RangesOverlap(a, b) <==> !Disjoint(a, b)
  {
    var top := if Num(a.start) < Num(b.start) then b.start else a.start;
    if RangesOverlap(a, b) { assert a.Holds(top) && b.Holds(top); }
  }

  predicate RangeOk(r: RangeText) {
    r.start.V4? && r.end.V4? && Num(r.start.addr) <= Num(r.end.addr)
  }

  function RangeOf(r: RangeText): Range
    requires RangeOk(r)
  {
    Range(r.start.addr, r.end.addr)
  }

  predicate AllV4(ts: seq<Text>) {
    forall k :: 0 <= k < |ts| ==> ts[k].V4?
  }

  /** What NewPoolRanges demands, whatever the order of the ranges. */
  ghost predicate SpecOk(s: Spec) {
    && s.ranges != [] && s.netmask.V4? && s.gateway.V4? && AllV4(s.dns) && AllV4(s.exclude)
    && RangesOk(s.ranges)
  }

  ghost predicate RangesOk(rs: seq<RangeText>) {
    && (forall k :: 0 <= k < |rs| ==> RangeOk(rs[k]))
    && (forall j, k :: 0 <= j < k < |rs| ==> Disjoint(RangeOf(rs[j]), RangeOf(rs[k])))
  }

  function AddrsOf(ts: seq<Text>): seq<Addr>
    requires AllV4(ts)
  {
    seq(|ts|, k requires 0 <= k < |ts| => ts[k].addr)
  }

  function RangesOf(rs: seq<RangeText>): seq<Range>
    requires forall k :: 0 <= k < |rs| ==> RangeOk(rs[k])
  {
    seq(|rs|, k requires 0 <= k < |rs| => RangeOf(rs[k]))
  }

  ghost function PoolOf(s: Spec): (p: Pool)
    requires SpecOk(s)
    ensures p.ranges != [] && p.selectors == []
  {
    Pool(RangesOf(s.ranges), s.netmask.addr, s.gateway.addr, AddrsOf(s.dns), set a | a in AddrsOf(s.exclude),
         if s.leaseSec == 0 then 86400 else s.leaseSec, [])
  }

  /** Ranges as NewPoolRanges wants them, in elementary terms: both ends are addresses, in
      order, and no address lies in two of them. */
  ghost predicate GoodRanges(rs: seq<RangeText>) {
    && (forall k :: 0 <= k < |rs| ==> rs[k].start.V4? && rs[k].end.V4? && Num(rs[k].start.addr) <= Num(rs[k].end.addr))
    && (forall j, k, x: Addr :: 0 <= j < k < |rs| && Num(rs[j].start.addr) <= Num(x) <= Num(rs[j].end.addr) ==>
          !(Num(rs[k].start.addr) <= Num(x) <= Num(rs[k].end.addr)))
  }

  lemma RangesOkIsGood(rs: seq<RangeText>)
    ensures RangesOk(rs) <==> GoodRanges(rs)
  {
    hide Num;
    if GoodRanges(rs) {
      forall j, k | 0 <= j < k < |rs| ensures Disjoint(RangeOf(rs[j]), RangeOf(rs[k])) {}
    }
    if RangesOk(rs) {
      forall j, k, x: Addr | 0 <= j < k < |rs| && Num(rs[j].start.addr) <= Num(x) <= Num(rs[j].end.addr)
        ensures !(Num(rs[k].start.addr) <= Num(x) <= Num(rs[k].end.addr))
      {
        assert Disjoint(RangeOf(rs[j]), RangeOf(rs[k]));
        assert RangeOf(rs[j]).Holds(x);
      }
    }
  }

  /** A pool carries what the texts say, field by field. */
  ghost predicate Carries(p: Pool, rs: seq<RangeText>, netmask: Addr, gateway: Text, dns: seq<Text>, exclude: seq<Text>, leaseSec: nat) {
    && |p.ranges| == |rs| && (forall k :: 0 <= k < |rs| ==> V4(p.ranges[k].start) == rs[k].start && V4(p.ranges[k].end) == rs[k].end)
    && p.netmask == netmask && V4(p.gateway) == gateway
    && |p.dns| == |dns| && (forall k :: 0 <= k < |dns| ==> V4(p.dns[k]) == dns[k])
    && (forall a: Addr :: a in p.exclude <==> V4(a) in exclude)
    && p.leaseSec == (if leaseSec == 0 then 24 * 3600 else leaseSec)
  }

  lemma PoolCarries(s: Spec)
    requires SpecOk(s)
    ensures Carries(PoolOf(s), s.ranges, s.netmask.addr, s.gateway, s.dns, s.exclude, s.leaseSec)
  {
    var p := PoolOf(s);
    forall a: Addr ensures a in p.exclude <==> V4(a) in s.exclude {
      if V4(a) in s.exclude {
        var k :| 0 <= k < |s.exclude| && s.exclude[k] == V4(a);
        assert AddrsOf(s.exclude)[k] == a;
      }
      if a in p.exclude {
        var k :| 0 <= k < |AddrsOf(s.exclude)| && AddrsOf(s.exclude)[k] == a;
        assert s.exclude[k] == V4(a);
      }
    }
  }

  /** NewPoolRanges. */
  method NewPoolRanges(s: Spec) returns (r: Option<Pool>)
    ensures r.Some? <==> SpecOk(s)
    ensures r.Some? ==> r.value == PoolOf(s)
    ensures r.Some? <==>
      && s.ranges != [] && GoodRanges(s.ranges) && s.netmask.V4? && s.gateway.V4?
      && AllV4(s.dns) && AllV4(s.exclude)
    ensures r.Some? ==>
      r.value.selectors == [] && Carries(r.value, s.ranges, s.netmask.addr, s.gateway, s.dns, s.exclude, s.leaseSec)
  {
    RangesOkIsGood(s.ranges);

    if s.ranges == [] || !s.netmask.V4? || !s.gateway.V4? { return None; }
    var dns: seq<Addr> := [];
    for k := 0 to |s.dns|
      invariant AllV4(s.dns[..k]) && dns == AddrsOf(s.dns[..k])
    {
      if !s.dns[k].V4? { return None; }
      dns := dns + [s.dns[k].addr];
    }
    var exclude: set<Addr> := {};
    for k := 0 to |s.exclude|
      invariant AllV4(s.exclude[..k])
      invariant exclude == set a | a in AddrsOf(s.exclude[..k])
    {
      if !s.exclude[k].V4? { return None; }
      exclude := exclude + {s.exclude[k].addr};
      assert AddrsOf(s.exclude[..k + 1]) == AddrsOf(s.exclude[..k]) + [s.exclude[k].addr];
    }
    var parsed := ParseRanges(s.ranges);
    if parsed.None? { return None; }
    assert s.dns[..|s.dns|] == s.dns && s.exclude[..|s.exclude|] == s.exclude;
    PoolCarries(s);
    r := Some(Pool(parsed.value, s.netmask.addr, s.gateway.addr, dns, exclude,
                   if s.leaseSec == 0 then 86400 else s.leaseSec, []));
  }

  lemma RangesExtend(rs: seq<RangeText>, k: nat)
    requires k < |rs| && RangesOk(rs[..k]) && RangeOk(rs[k])
    requires forall i :: 0 <= i < k ==> RangeOk(rs[i]) && Disjoint(RangeOf(rs[i]), RangeOf(rs[k]))
    ensures RangesOk(rs[..k + 1]) && RangesOf(rs[..k + 1]) == RangesOf(rs[..k]) + [RangeOf(rs[k])]
  {
    hide Disjoint, RangeOk;
    assert rs[..k + 1] == rs[..k] + [rs[k]];
  }

  /** The loop over the ranges: parse, check the order, compare with every earlier one. */
  method ParseRanges(rs: seq<RangeText>) returns (r: Option<seq<Range>>)
    ensures r.Some? <==> RangesOk(rs)
    ensures r.Some? ==> r.value == RangesOf(rs)
  {
    hide Disjoint, Num;
    var parsed: seq<Range> := [];
    for k := 0 to |rs|
      invariant RangesOk(rs[..k]) && parsed == RangesOf(rs[..k])
    {
      if !rs[k].start.V4? || !rs[k].end.V4? || Num(rs[k].start.addr) > Num(rs[k].end.addr) {
        assert !RangeOk(rs[k]);
        return None;
      }
      for j := 0 to k
        invariant forall i :: 0 <= i < j ==> Disjoint(RangeOf(rs[i]), RangeOf(rs[k]))
      {
        assert parsed[j] == RangeOf(rs[..k][j]);
        RangesOverlapIff(parsed[j], RangeOf(rs[k]));
        if RangesOverlap(parsed[j], RangeOf(rs[k])) { return None; }
      }
      RangesExtend(rs, k);
      parsed := parsed + [RangeOf(rs[k])];
    }
    assert rs[..|rs|] == rs;
    return Some(parsed);
  }
}
