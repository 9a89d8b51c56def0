/** Pool sets built from the subnets catalog, in elementary terms (cmd/controller/main.go,
    internal/dhcp/pools.go): which catalogs are accepted, and who serves a giaddr. */
module Catalogs {
  import opened Basics
  import opened Addresses
  import opened Dhcp
  import opened PoolSets
  import opened Routing

  /** The addresses agree on their first `bits` bits. */
  predicate Agree(a: Addr, b: Addr, bits: nat)
    requires bits <= 32
  {
    MaskBytes(a, Mask(4, 32 - bits)) == MaskBytes(b, Mask(4, 32 - bits))
  }

  ghost predicate TextsV4(ts: seq<Text>) {
    forall k :: 0 <= k < |ts| ==> ts[k].V4?
  }

  /** A subnet row fit to become a relay pool. */
  ghost predicate GoodSubnet(sn: SubnetRow)
    requires sn.ranges != []
  {
    && sn.cidr.Cidr? && sn.gateway.V4? && TextsV4(sn.dns) && GoodRanges(sn.ranges)
    && Agree(sn.ranges[0].start.addr, sn.cidr.addr, sn.cidr.bits)
  }

  ghost predicate GoodLocal(local: Input) {
    && local.selector.Empty? && local.netmask.V4? && local.gateway.V4? && TextsV4(local.dns) && TextsV4(local.exclude)
    && GoodRanges(if local.pools == [] then [RangeText(local.start, local.end)] else local.pools)
  }

  /** No address lies in both subnets. */
  ghost predicate SubnetsApart(a: SubnetRow, b: SubnetRow) {
    a.cidr.Cidr? && b.cidr.Cidr? ==>
      forall x: Addr :: !(Agree(x, a.cidr.addr, a.cidr.bits) && Agree(x, b.cidr.addr, b.cidr.bits))
  }

  ghost predicate GoodCatalog(local: Input, subs: seq<SubnetRow>) {
    && GoodLocal(local)
    && (forall i :: 0 <= i < |subs| && subs[i].ranges != [] ==> GoodSubnet(subs[i]))
    && (forall i, j :: 0 <= i < j < |subs| && subs[i].ranges != [] && subs[j].ranges != [] ==> SubnetsApart(subs[i], subs[j]))
  }

  // ---------------------------------------------------------------- single inputs

  /** Membership in a masked prefix is agreement with any address it was made from. */
  lemma MaskedHolds(a: Addr, bits: nat, x: Addr)
    requires bits <= 32
    ensures Masked(a, bits).Contains(x) <==> Agree(x, a, bits)
  {
    hide MaskBytes, Mask;
    MaskTwice(a, 32 - bits, 32 - bits);
  }

  lemma SubnetInputOk(local: Input, sn: SubnetRow)
    requires sn.ranges != []
    ensures InputOk(InputOf(local, sn)) <==> GoodSubnet(sn)
  {
    hide MaskBytes, Mask, RangesOk, GoodRanges;
    RangesOkIsGood(sn.ranges);
    if sn.cidr.Cidr? {
      MaskTwice(sn.cidr.addr, 32 - sn.cidr.bits, 32 - sn.cidr.bits);
      if SpecOk(SpecOf(InputOf(local, sn))) {
        PoolCarries(SpecOf(InputOf(local, sn)));
      }
    }
  }

  lemma LocalInputOk(local: Input)
    requires local.selector.Empty?
    ensures InputOk(local) <==> GoodLocal(local)
  {
    hide RangesOk, GoodRanges;
    RangesOkIsGood(SpecOf(local).ranges);
  }

  lemma SubnetsCompatible(local: Input, a: SubnetRow, b: SubnetRow)
    requires a.cidr.Cidr? && b.cidr.Cidr?
    ensures Compatible(InputOf(local, a), InputOf(local, b)) <==> SubnetsApart(a, b)
  {
    hide Masked, Agree, MaskBytes, Mask;
    var p, q := Masked(a.cidr.addr, a.cidr.bits), Masked(b.cidr.addr, b.cidr.bits);
    forall x: Addr ensures p.Contains(x) && q.Contains(x) <==> Agree(x, a.cidr.addr, a.cidr.bits) && Agree(x, b.cidr.addr, b.cidr.bits) {
      MaskedHolds(a.cidr.addr, a.cidr.bits, x);
      MaskedHolds(b.cidr.addr, b.cidr.bits, x);
    }
    assert Apart(p, q) <==> SubnetsApart(a, b);
  }

  lemma LocalCompatible(local: Input, sn: SubnetRow)
    requires local.selector.Empty? && sn.cidr.Cidr?
    ensures Compatible(local, InputOf(local, sn))
  {
  }

  // ---------------------------------------------------------------- any list of inputs

  /** The addresses a selector text stands for: a CIDR its prefix, a bare address itself. */
  predicate Covers(s: Selector, x: Addr) {
    match s
    case Cidr(a, bits) => Agree(x, a, bits)
    case Bare(a) => x == a
    case _ => false
  }

  /** The address a pool must contain to carry this selector. */
  function KeyOf(s: Selector): Addr
    requires s.Cidr? || s.Bare?
  {
    if s.Cidr? then MaskBytes(s.addr, Mask(4, 32 - s.bits)) else s.addr
  }

  lemma SelectorSpelt(s: Selector, x: Addr)
    ensures TryParse(s).Some? <==> s.Cidr? || s.Bare?
    ensures TryParse(s).Some? ==> TryParse(s).value.ip == KeyOf(s) && (TryParse(s).value.Contains(x) <==> Covers(s, x))
    ensures Covers(s, x) ==> s.Cidr? || s.Bare?
  {
    if s.Cidr? { MaskedHolds(s.addr, s.bits, x); }
    if s.Bare? { FullMask(s.addr, x); }
  }

  /** A full-length mask keeps every bit. */
  lemma FullMask(a: Addr, x: Addr)
    ensures MaskBytes(a, Mask(4, 0)) == MaskBytes(x, Mask(4, 0)) <==> a == x
  {
    hide MaskBytes, Mask, Num;
    MaskValue(a, 0);
    MaskValue(x, 0);
    ClearNone(Num(a));
    ClearNone(Num(x));
    if Num(a) == Num(x) { NumInjective(a, x); }
  }

  ghost predicate GoodInput(i: Input) {
    var rs := if i.pools == [] then [RangeText(i.start, i.end)] else i.pools;
    && i.netmask.V4? && i.gateway.V4? && TextsV4(i.dns) && TextsV4(i.exclude) && GoodRanges(rs)
    && (i.selector.Empty?
        || ((i.selector.Cidr? || i.selector.Bare?)
            && MaskBytes(rs[0].start.addr, i.netmask.addr) == MaskBytes(KeyOf(i.selector), i.netmask.addr)))
  }

  /** Not both local, and no relay address in common. */
  ghost predicate MayCoexist(i: Input, j: Input) {
    && !(i.selector.Empty? && j.selector.Empty?)
    && forall x: Addr :: !(Covers(i.selector, x) && Covers(j.selector, x))
  }

  lemma GoodInputIff(i: Input)
    ensures InputOk(i) <==> GoodInput(i)
  {
    hide MaskBytes, Mask, RangesOk, GoodRanges, KeyOf;
    RangesOkIsGood(SpecOf(i).ranges);
    SelectorSpelt(i.selector, UNSPECIFIED);
    if SpecOk(SpecOf(i)) { PoolCarries(SpecOf(i)); }
  }

  lemma MayCoexistIff(i: Input, j: Input)
    ensures Compatible(i, j) <==> MayCoexist(i, j)
  {
    hide TryParse, Covers, KeyOf;
    SelectorSpelt(i.selector, UNSPECIFIED);
    SelectorSpelt(j.selector, UNSPECIFIED);
    if TryParse(i.selector).Some? && TryParse(j.selector).Some? {
      var p, q := TryParse(i.selector).value, TryParse(j.selector).value;
      forall x: Addr ensures p.Contains(x) && q.Contains(x) <==> Covers(i.selector, x) && Covers(j.selector, x) {
        SelectorSpelt(i.selector, x);
        SelectorSpelt(j.selector, x);
      }
    } else {
      forall x: Addr ensures !(Covers(i.selector, x) && Covers(j.selector, x)) {
        SelectorSpelt(i.selector, x);
        SelectorSpelt(j.selector, x);
      }
    }
  }

  /** NewSubnetPools accepts a list exactly when every input is good, exactly one is local, and
      no relay address is claimed twice. */
  lemma InputsAcceptedIff(ins: seq<Input>)
    ensures Assemble(ins).Some? <==>
      && (forall k :: 0 <= k < |ins| ==> GoodInput(ins[k]))
      && (forall j, k :: 0 <= j < k < |ins| ==> MayCoexist(ins[j], ins[k]))
      && (exists k :: 0 <= k < |ins| && ins[k].selector.Empty?)
  {
    hide GoodInput, MayCoexist, InputOk, Compatible;
    forall k | 0 <= k < |ins| ensures InputOk(ins[k]) <==> GoodInput(ins[k]) { GoodInputIff(ins[k]); }
    forall j, k | 0 <= j < k < |ins| ensures Compatible(ins[j], ins[k]) <==> MayCoexist(ins[j], ins[k]) {
      MayCoexistIff(ins[j], ins[k]);
    }
  }

  /** In an accepted set a giaddr that a selector covers is served by that input's pool. */
  lemma CoveredIsServed(ins: seq<Input>, k: nat, gi: Addr) returns (p: Pool)
    requires Assemble(ins).Some? && k < |ins| && Covers(ins[k].selector, gi) && gi != [0, 0, 0, 0]
    ensures PoolForRequest(Assemble(ins).value, Some(gi)) == Some(p) && ins[k].netmask.V4?
    ensures Carries(p, if ins[k].pools == [] then [RangeText(ins[k].start, ins[k].end)] else ins[k].pools, ins[k].netmask.addr,
                    ins[k].gateway, ins[k].dns, ins[k].exclude, ins[k].leaseSec)
  {
    hide Carries, Relays, Compatible, PoolOf, Covers, TryParse, Route;
    SelectorSpelt(ins[k].selector, gi);
    RouteExact(ins, gi, k);
    assert InputOk(ins[k]);
    p := InputPool(ins[k]);
    PoolCarries(SpecOf(ins[k]));
    SelectorsDoNotMatter(PoolOf(SpecOf(ins[k])), p, SpecOf(ins[k]).ranges, ins[k].netmask.addr, ins[k].gateway,
                         ins[k].dns, ins[k].exclude, ins[k].leaseSec);
  }

  // ---------------------------------------------------------------- the list of inputs

  /** Where a subnet with ranges ends up among the inputs. */
  lemma {:induction false} InputAt(local: Input, subs: seq<SubnetRow>, i: nat) returns (k: nat)
    requires i < |subs| && subs[i].ranges != []
    ensures 0 < k < |Inputs(local, subs)| && Inputs(local, subs)[k] == InputOf(local, subs[i])
  {
    var n := |subs| - 1;
    if i < n { k := InputAt(local, subs[..n], i); } else { k := |Inputs(local, subs[..n])|; }
  }

  lemma {:induction false} InputFrom(local: Input, subs: seq<SubnetRow>, k: nat) returns (i: nat)
    requires 0 < k < |Inputs(local, subs)|
    ensures i < |subs| && subs[i].ranges != [] && Inputs(local, subs)[k] == InputOf(local, subs[i])
    ensures k == |Inputs(local, subs[..i])|
  {
    var n := |subs| - 1;
    if k < |Inputs(local, subs[..n])| {
      i := InputFrom(local, subs[..n], k);
      assert subs[..n][..i] == subs[..i];
    } else {
      i := n;
    }
  }

  lemma {:induction false} InputsGrow(local: Input, subs: seq<SubnetRow>, i: nat, j: nat)
    requires i < j <= |subs| && subs[i].ranges != []
    ensures |Inputs(local, subs[..i])| < |Inputs(local, subs[..j])|
  {
    assert subs[..j][..j - 1] == subs[..j - 1] && subs[..j][j - 1] == subs[j - 1];
    if i < j - 1 { InputsGrow(local, subs, i, j - 1); }
  }

  lemma GoodIsSound(local: Input, subs: seq<SubnetRow>)
    requires GoodCatalog(local, subs)
    ensures Acceptable(Inputs(local, subs))
  {
    hide GoodLocal, GoodSubnet, SubnetsApart, InputOk, Compatible;
    var ins := Inputs(local, subs);
    FirstIsLocal(local, subs, 0);
    assert local.selector.Empty? by { LocalEmpty(local); }
    forall k | 0 <= k < |ins| ensures InputOk(ins[k]) {
      if k == 0 { LocalInputOk(local); } else { var i := InputFrom(local, subs, k); SubnetInputOk(local, subs[i]); }
    }
    forall j, k | 0 <= j < k < |ins| ensures Compatible(ins[j], ins[k]) { PairCompatible(local, subs, j, k); }
    assert ins[0].selector.Empty?;
  }

  lemma LocalEmpty(local: Input)
    requires GoodLocal(local)
    ensures local.selector.Empty?
  {
  }

  lemma GoodCidr(sn: SubnetRow)
    requires sn.ranges != [] && GoodSubnet(sn)
    ensures sn.cidr.Cidr?
  {
  }

  lemma PairCompatible(local: Input, subs: seq<SubnetRow>, j: nat, k: nat)
    requires GoodCatalog(local, subs) && j < k < |Inputs(local, subs)|
    ensures Compatible(Inputs(local, subs)[j], Inputs(local, subs)[k])
  {
    hide GoodLocal, GoodSubnet, SubnetsApart, Compatible;
    var b := InputFrom(local, subs, k);
    GoodCidr(subs[b]);
    if j == 0 {
      FirstIsLocal(local, subs, 0);
      LocalEmpty(local);
      LocalCompatible(local, subs[b]);
    } else {
      var a := InputFrom(local, subs, j);
      GoodCidr(subs[a]);
      if b < a { InputsGrow(local, subs, b, a); }
      SubnetsCompatible(local, subs[a], subs[b]);
    }
  }

  lemma SoundIsGood(local: Input, subs: seq<SubnetRow>)
    requires Acceptable(Inputs(local, subs))
    ensures GoodCatalog(local, subs)
  {
    hide GoodLocal, GoodSubnet, SubnetsApart, InputOk, Compatible;
    var ins := Inputs(local, subs);
    FirstIsLocal(local, subs, 0);
    LocalHasNoSelector(local, subs);
    LocalInputOk(local);
    forall i | 0 <= i < |subs| && subs[i].ranges != [] ensures GoodSubnet(subs[i]) {
      var k := InputAt(local, subs, i);
      SubnetInputOk(local, subs[i]);
    }
    forall i, j | 0 <= i < j < |subs| && subs[i].ranges != [] && subs[j].ranges != [] ensures SubnetsApart(subs[i], subs[j]) {
      SoundPair(local, subs, i, j);
    }
  }

  lemma SoundPair(local: Input, subs: seq<SubnetRow>, i: nat, j: nat)
    requires Acceptable(Inputs(local, subs)) && i < j < |subs| && subs[i].ranges != [] && subs[j].ranges != []
    ensures SubnetsApart(subs[i], subs[j])
  {
    hide SubnetsApart, InputOk, Compatible, GoodSubnet;
    var ins := Inputs(local, subs);
    PrefixOf(local, subs, i);
    PrefixOf(local, subs, j);
    InputsGrow(local, subs, i, j);
    var a, b := |Inputs(local, subs[..i])|, |Inputs(local, subs[..j])|;
    assert InputOk(ins[a]) && InputOk(ins[b]) && Compatible(ins[a], ins[b]);
    SubnetInputOk(local, subs[i]);
    SubnetInputOk(local, subs[j]);
    GoodCidr(subs[i]);
    GoodCidr(subs[j]);
    SubnetsCompatible(local, subs[i], subs[j]);
  }

  /** Subnet i's input stands right after the inputs of the subnets before it. */
  lemma {:induction false} PrefixOf(local: Input, subs: seq<SubnetRow>, i: nat)
    requires i < |subs| && subs[i].ranges != []
    ensures var k := |Inputs(local, subs[..i])|; k < |Inputs(local, subs)| && Inputs(local, subs)[k] == InputOf(local, subs[i])
  {
    var n := |subs| - 1;
    if i < n {
      PrefixOf(local, subs[..n], i);
      assert subs[..n][..i] == subs[..i];
    }
  }

  // ---------------------------------------------------------------- theorems

  /** A catalog is accepted exactly when the local pool is good, every subnet with ranges is an
      IPv4 CIDR with good fields whose first range starts inside it, and no address lies in two
      such subnets. */
  lemma CatalogAcceptedIff(local: Input, subs: seq<SubnetRow>)
    ensures Assemble(Inputs(local, subs)).Some? <==> GoodCatalog(local, subs)
  {
    hide GoodCatalog, Acceptable;
    if GoodCatalog(local, subs) { GoodIsSound(local, subs); }
    if Acceptable(Inputs(local, subs)) { SoundIsGood(local, subs); }
  }

  /** Every relayed packet of a catalog subnet is served, by a pool with exactly that subnet's
      ranges, mask, gateway and name servers, and the local lease time. */
  lemma CatalogServes(local: Input, subs: seq<SubnetRow>, i: nat, gi: Addr) returns (p: Pool)
    requires Assemble(Inputs(local, subs)).Some? && i < |subs| && subs[i].ranges != [] && subs[i].cidr.Cidr?
    requires gi != [0, 0, 0, 0] && Agree(gi, subs[i].cidr.addr, subs[i].cidr.bits)
    ensures PoolForRequest(Assemble(Inputs(local, subs)).value, Some(gi)) == Some(p)
    ensures Carries(p, subs[i].ranges, Mask(4, 32 - subs[i].cidr.bits), subs[i].gateway, subs[i].dns, [], local.leaseSec)
  {
    hide Carries, Masked, Agree, Relays, Compatible, PoolOf, SpecOk, MaskBytes, Mask;
    var sn := subs[i];
    var k := InputAt(local, subs, i);
    MaskedHolds(sn.cidr.addr, sn.cidr.bits, gi);
    RouteExact(Inputs(local, subs), gi, k);
    assert InputOk(Inputs(local, subs)[k]);
    p := InputPool(InputOf(local, sn));
    PoolCarries(SpecOf(InputOf(local, sn)));
    SelectorsDoNotMatter(PoolOf(SpecOf(InputOf(local, sn))), p, sn.ranges, Mask(4, 32 - sn.cidr.bits), sn.gateway, sn.dns, [], local.leaseSec);
  }

  lemma SelectorsDoNotMatter(p: Pool, q: Pool, rs: seq<RangeText>, netmask: Addr, gateway: Text, dns: seq<Text>, exclude: seq<Text>, leaseSec: nat)
    requires q == p.(selectors := q.selectors) && Carries(p, rs, netmask, gateway, dns, exclude, leaseSec)
    ensures Carries(q, rs, netmask, gateway, dns, exclude, leaseSec)
  {
  }

  /** A relayed packet from outside every catalog subnet with ranges is not served. */
  lemma CatalogSilent(local: Input, subs: seq<SubnetRow>, gi: Addr)
    requires Assemble(Inputs(local, subs)).Some? && gi != [0, 0, 0, 0]
    requires forall i :: 0 <= i < |subs| && subs[i].ranges != [] && subs[i].cidr.Cidr? ==> !Agree(gi, subs[i].cidr.addr, subs[i].cidr.bits)
    ensures PoolForRequest(Assemble(Inputs(local, subs)).value, Some(gi)) == None
  {
    hide Masked, Agree, Relays, Compatible, PoolOf, SpecOk, MaskBytes, Mask, Route;
    var ins := Inputs(local, subs);
    LocalHasNoSelector(local, subs);
    FirstIsLocal(local, subs, 0);
    forall k | 0 <= k < |ins| ensures !Selects(ins[k], gi) {
      if k > 0 {
        var i := InputFrom(local, subs, k);
        assert InputOk(ins[k]);
        if subs[i].cidr.Cidr? { MaskedHolds(subs[i].cidr.addr, subs[i].cidr.bits, gi); } else { NotCidr(local, subs[i]); }
      }
    }
    RouteNone(ins, gi);
  }

  lemma NotCidr(local: Input, sn: SubnetRow)
    requires !sn.cidr.Cidr?
    ensures !InputOk(InputOf(local, sn))
  {
  }

  /** A direct packet is served by the local pool, which is what the local input says. */
  lemma DirectIsLocal(local: Input, subs: seq<SubnetRow>, gi: Option<Addr>) returns (p: Pool)
    requires Assemble(Inputs(local, subs)).Some? && (gi.None? || gi.value == [0, 0, 0, 0])
    ensures PoolForRequest(Assemble(Inputs(local, subs)).value, gi) == Some(p)
    ensures local.netmask.V4?
    ensures Carries(p, if local.pools == [] then [RangeText(local.start, local.end)] else local.pools, local.netmask.addr,
                    local.gateway, local.dns, local.exclude, local.leaseSec)
  {
    hide Carries, Relays, Compatible, Assemble;
    LocalHasNoSelector(local, subs);
    p := InputPool(local);
    PoolCarries(SpecOf(local));
  }
}
