/** Choosing the pool for a giaddr (internal/dhcp/pools.go:poolForRequest) and pool sets
    built from the subnets catalog (cmd/controller/main.go:subnetsToPools). */
module Routing {
  import opened Basics
  import opened Addresses
  import opened Dhcp
  import opened PoolSets

  predicate Matches(p: Pool, gi: Addr) {
    exists k :: 0 <= k < |p.selectors| && p.selectors[k].Contains(gi)
  }

  /** First match over the relay pools. */
  function Route(relay: seq<Pool>, gi: Addr): Option<Pool> {
    if relay == [] then None
    else if Matches(relay[0], gi) then Some(relay[0])
    else Route(relay[1..], gi)
  }

  const UNSPECIFIED: Addr := [0, 0, 0, 0]

  /** poolForRequest; None stands for an absent address. */
  function PoolForRequest(sp: SubnetPools, gi: Option<Addr>): Option<Pool> {
    if gi.None? || gi.value == UNSPECIFIED then Some(sp.local) else Route(sp.relay, gi.value)
  }

  // ---------------------------------------------------------------- routing is deterministic

  /** The input's selector is a prefix that holds gi. */
  predicate Selects(i: Input, gi: Addr) {
    TryParse(i.selector).Some? && TryParse(i.selector).value.Contains(gi)
  }

  lemma SelectsIsMatch(i: Input, gi: Addr)
    requires InputOk(i)
    ensures Matches(InputPool(i), gi) <==> Selects(i, gi)
  {
    hide SpecOk, PoolOf;
    var p := InputPool(i);
    if Selects(i, gi) { assert p.selectors[0].Contains(gi); }
  }

  /** Every relay pool comes from an input with a selector, later ones from later inputs. */
  lemma {:induction false} RelayOrigin(ins: seq<Input>, j: nat) returns (k: nat)
    requires Sound(ins) && j < |Relays(ins)|
    ensures k < |ins| && !ins[k].selector.Empty? && Relays(ins)[j] == InputPool(ins[k])
    ensures j == |Relays(ins[..k])|
  {
    hide InputOk, Compatible, InputPool;
    var n := |ins| - 1;
    if j < |Relays(ins[..n])| {
      k := RelayOrigin(ins[..n], j);
      assert ins[..n][..k] == ins[..k];
    } else {
      k := n;
    }
  }

  lemma {:induction false} RelayOf(ins: seq<Input>, k: nat)
    requires Sound(ins) && k < |ins| && !ins[k].selector.Empty?
    ensures InputPool(ins[k]) in Relays(ins)
  {
    hide InputOk, Compatible, InputPool;
    var n := |ins| - 1;
    if k < n { RelayOf(ins[..n], k); }
  }

  /** Any giaddr matches at most one relay pool. */
  lemma AtMostOneMatch(ins: seq<Input>, sp: SubnetPools, gi: Addr, a: nat, b: nat)
    requires Assemble(ins) == Some(sp) && a < |sp.relay| && b < |sp.relay|
    requires Matches(sp.relay[a], gi) && Matches(sp.relay[b], gi)
    ensures a == b
  {
    hide InputOk, Matches, InputPool, Relays;
    var j := RelayOrigin(ins, a);
    var k := RelayOrigin(ins, b);
    SelectsIsMatch(ins[j], gi);
    SelectsIsMatch(ins[k], gi);
    assert j < k ==> Compatible(ins[j], ins[k]);
    assert k < j ==> Compatible(ins[k], ins[j]);
  }

  lemma {:induction false} RouteFinds(relay: seq<Pool>, gi: Addr)
    ensures Route(relay, gi).Some? ==> Route(relay, gi).value in relay && Matches(Route(relay, gi).value, gi)
    ensures Route(relay, gi).None? ==> forall p :: p in relay ==> !Matches(p, gi)
  {
    hide Matches;
    if relay != [] {
      RouteFinds(relay[1..], gi);
      assert relay == [relay[0]] + relay[1..];
    }
  }

  /** First match is the match: the pool chosen for a giaddr is the pool of the input
      whose selector holds it, and there is none exactly when no selector does. */
  lemma RouteExact(ins: seq<Input>, gi: Addr, k: nat)
    requires Assemble(ins).Some? && k < |ins|
    ensures Selects(ins[k], gi) ==> Route(Assemble(ins).value.relay, gi) == Some(InputPool(ins[k]))
  {
    hide InputOk, Matches, InputPool, Relays, Compatible;
    var relay := Relays(ins);
    if Selects(ins[k], gi) {
      RelayOf(ins, k);
      SelectsIsMatch(ins[k], gi);
      RouteFinds(relay, gi);
      var a :| 0 <= a < |relay| && relay[a] == InputPool(ins[k]);
      var b :| 0 <= b < |relay| && relay[b] == Route(relay, gi).value;
      AtMostOneMatch(ins, Assemble(ins).value, gi, a, b);
    }
  }

  lemma RouteNone(ins: seq<Input>, gi: Addr)
    requires Assemble(ins).Some? && forall k :: 0 <= k < |ins| ==> !Selects(ins[k], gi)
    ensures Route(Assemble(ins).value.relay, gi) == None
  {
    hide InputOk, Matches, InputPool, Relays, Compatible, Selects;
    var relay := Relays(ins);
    RouteFinds(relay, gi);
    if Route(relay, gi).Some? {
      var b :| 0 <= b < |relay| && relay[b] == Route(relay, gi).value;
      var k := RelayOrigin(ins, b);
      SelectsIsMatch(ins[k], gi);
      assert false;
    }
  }

  // ---------------------------------------------------------------- order does not matter

  /** Acceptance, said of the bag of inputs. */
  ghost predicate AcceptableBag(m: multiset<Input>) {
    && (forall x :: x in m ==> m[x] == 1 && InputOk(x))
    && (forall x, y :: x in m && y in m && x != y ==> Compatible(x, y))
    && (exists x :: x in m && x.selector.Empty?)
  }

  lemma NeverTwice(i: Input)
    requires InputOk(i)
    ensures !Compatible(i, i)
  {
    hide SpecOk, PoolOf;
    if !i.selector.Empty? {
      var p := TryParse(i.selector).value;
      assert p.Contains(p.ip);
    }
  }

  lemma CompatibleSym(i: Input, j: Input)
    ensures Compatible(i, j) <==> Compatible(j, i)
  {
    hide Apart;
    if TryParse(i.selector).Some? && TryParse(j.selector).Some? {
      ApartSym(TryParse(i.selector).value, TryParse(j.selector).value);
    }
  }

  /** A value that occurs twice in a bag occurs at two places. */
  lemma {:induction false} TwoPlaces(s: seq<Input>, x: Input) returns (i: nat, j: nat)
    requires multiset(s)[x] >= 2
    ensures i < j < |s| && s[i] == x && s[j] == x
  {
    var n := |s| - 1;
    assert s == s[..n] + [s[n]];
    if multiset(s[..n])[x] >= 2 {
      i, j := TwoPlaces(s[..n], x);
    } else {
      assert x in s[..n];
      i :| 0 <= i < n && s[i] == x;
      j := n;
    }
  }

  lemma TwiceCounts(s: seq<Input>, i: nat, j: nat)
    requires i < j < |s| && s[i] == s[j]
    ensures multiset(s)[s[i]] >= 2
  {
    assert s == s[..j] + s[j..];
    assert s[i] in s[..j] && s[j..][0] == s[i];
    assert multiset(s)[s[i]] == multiset(s[..j])[s[i]] + multiset(s[j..])[s[i]];
  }

  lemma BagOf(ins: seq<Input>)
    requires Acceptable(ins)
    ensures AcceptableBag(multiset(ins))
  {
    hide InputOk, Compatible;
    var m := multiset(ins);
    forall x | x in m ensures m[x] == 1 && InputOk(x) {
      assert x in ins;
      if m[x] >= 2 {
        var i, j := TwoPlaces(ins, x);
        NeverTwice(x);
      }
    }
    forall x, y | x in m && y in m && x != y ensures Compatible(x, y) {
      assert x in ins && y in ins;
      var i :| 0 <= i < |ins| && ins[i] == x;
      var j :| 0 <= j < |ins| && ins[j] == y;
      CompatibleSym(x, y);
    }
    var k :| 0 <= k < |ins| && ins[k].selector.Empty?;
    assert ins[k] in m;
  }

  lemma ListOf(ins: seq<Input>)
    requires AcceptableBag(multiset(ins))
    ensures Acceptable(ins)
  {
    hide InputOk, Compatible;
    var m := multiset(ins);
    forall k | 0 <= k < |ins| ensures InputOk(ins[k]) { assert ins[k] in m; }
    forall j, k | 0 <= j < k < |ins| ensures Compatible(ins[j], ins[k]) {
      if ins[j] == ins[k] { TwiceCounts(ins, j, k); }
      assert ins[j] in m && ins[k] in m;
    }
    var x :| x in m && x.selector.Empty?;
    assert x in ins;
  }

  /** Whether a list of inputs is accepted does not depend on its order. */
  lemma AcceptanceIgnoresOrder(ins: seq<Input>, perm: seq<Input>)
    requires multiset(ins) == multiset(perm)
    ensures Assemble(ins).Some? <==> Assemble(perm).Some?
  {
    hide Acceptable, AcceptableBag;
    if Acceptable(ins) { BagOf(ins); ListOf(perm); }
    if Acceptable(perm) { BagOf(perm); ListOf(ins); }
  }

  lemma LocalIs(ins: seq<Input>, k: nat)
    requires Assemble(ins).Some? && k < |ins| && ins[k].selector.Empty?
    ensures Assemble(ins).value.local == InputPool(ins[k])
  {
    hide InputOk, InputPool, Relays, Apart;
    forall j | 0 <= j < |ins| && ins[j].selector.Empty? ensures j == k {
      assert j < k ==> Compatible(ins[j], ins[k]);
      assert k < j ==> Compatible(ins[k], ins[j]);
    }
  }

  /** Neither does the pool chosen for any giaddr. */
  lemma RoutingIgnoresOrder(ins: seq<Input>, perm: seq<Input>, gi: Option<Addr>)
    requires multiset(ins) == multiset(perm) && Assemble(ins).Some? && Assemble(perm).Some?
    ensures PoolForRequest(Assemble(ins).value, gi) == PoolForRequest(Assemble(perm).value, gi)
  {
    hide InputOk, InputPool, Relays, Compatible, Selects, Route, Assemble;
    if gi.None? || gi.value == UNSPECIFIED {
      var k := LocalInput(ins);
      var j := Same(ins, perm, k);
      LocalIs(ins, k);
      LocalIs(perm, j);
    } else if k :| 0 <= k < |ins| && Selects(ins[k], gi.value) {
      var j := Same(ins, perm, k);
      RouteExact(ins, gi.value, k);
      RouteExact(perm, gi.value, j);
    } else {
      forall j | 0 <= j < |perm| ensures !Selects(perm[j], gi.value) {
        var k := Same(perm, ins, j);
      }
      RouteNone(ins, gi.value);
      RouteNone(perm, gi.value);
    }
  }

  lemma LocalInput(ins: seq<Input>) returns (k: nat)
    requires Assemble(ins).Some?
    ensures k < |ins| && ins[k].selector.Empty?
  {
    hide Sound;
    k :| 0 <= k < |ins| && ins[k].selector.Empty?;
  }

  lemma Same(s: seq<Input>, t: seq<Input>, k: nat) returns (j: nat)
    requires multiset(s) == multiset(t) && k < |s|
    ensures j < |t| && t[j] == s[k]
  {
    assert s[k] in multiset(s);
    assert s[k] in t;
    j :| 0 <= j < |t| && t[j] == s[k];
  }

  // ---------------------------------------------------------------- pool sets of the subnets catalog

  /** The part of a subnets row that subnetsToPools reads. */
  datatype SubnetRow = SubnetRow(cidr: Selector, ranges: seq<RangeText>, gateway: Text, dns: seq<Text>)

  /** netmaskOf: empty for anything but an IPv4 CIDR. */
  function NetmaskOf(cidr: Selector): Text {
    if cidr.Cidr? then V4(Mask(4, 32 - cidr.bits)) else NotV4
  }

  function InputOf(local: Input, sn: SubnetRow): Input {
    Input(sn.cidr, sn.ranges, NotV4, NotV4, NetmaskOf(sn.cidr), sn.gateway, sn.dns, local.leaseSec, [])
  }

  /** The inputs: the local one, then one per subnet that declares ranges. */
  function Inputs(local: Input, subs: seq<SubnetRow>): (ins: seq<Input>)
    ensures ins != []
  {
    if subs == [] then [local]
    else
      var n := |subs| - 1;
      Inputs(local, subs[..n]) + if subs[n].ranges == [] then [] else [InputOf(local, subs[n])]
  }

  /** subnetsToPools. */
  method SubnetsToPools(local: Input, subs: seq<SubnetRow>) returns (r: Option<SubnetPools>)
    ensures r == Assemble(Inputs(local, subs))
  {
    hide Assemble;
    var ins := [local];
    for k := 0 to |subs|
      invariant ins == Inputs(local, subs[..k])
    {
      assert subs[..k + 1][..k] == subs[..k];
      if subs[k].ranges == [] { continue; }
      ins := ins + [InputOf(local, subs[k])];
    }
    assert subs[..|subs|] == subs;
    r := NewSubnetPools(ins);
  }

  lemma {:induction false} FirstIsLocal(local: Input, subs: seq<SubnetRow>, k: nat)
    requires k < |Inputs(local, subs)|
    ensures Inputs(local, subs)[0] == local
    ensures k > 0 ==> exists sn :: sn in subs && Inputs(local, subs)[k] == InputOf(local, sn)
  {
    if subs != [] {
      var n := |subs| - 1;
      var front := Inputs(local, subs[..n]);
      FirstIsLocal(local, subs[..n], if k < |front| then k else 0);
      if 0 < k < |front| {
        var sn :| sn in subs[..n] && front[k] == InputOf(local, sn);
        assert sn in subs;
      } else if k > 0 {
        assert subs[n] in subs;
      }
    }
  }

  /** The relay pool of a subnet sits in the subnet its selector describes. */
  lemma SubnetKey(local: Input, sn: SubnetRow, gi: Addr)
    requires var i := InputOf(local, sn); InputOk(i) && Selects(i, gi)
    ensures sn.cidr.Cidr?
    ensures InputPool(InputOf(local, sn)).ContainsKey(gi)
    ensures Masked(sn.cidr.addr, sn.cidr.bits).Contains(gi)
    ensures Masked(sn.cidr.addr, sn.cidr.bits).Contains(InputPool(InputOf(local, sn)).ranges[0].start)
  {
    hide MaskBytes, Mask;
  }

  /** A relayed packet is served by the pool of a catalog subnet that contains giaddr and
      the start of the pool's first range, or by nothing. */
  lemma RelayStaysInSubnet(local: Input, subs: seq<SubnetRow>, gi: Addr) returns (sn: SubnetRow)
    requires Assemble(Inputs(local, subs)).Some?
    requires var sp := Assemble(Inputs(local, subs)).value; gi != UNSPECIFIED && PoolForRequest(sp, Some(gi)).Some?
    ensures sn in subs && sn.cidr.Cidr? && InputOk(InputOf(local, sn))
    ensures var p := PoolForRequest(Assemble(Inputs(local, subs)).value, Some(gi)).value;
            && p == InputPool(InputOf(local, sn)) && p.ContainsKey(gi)
            && Masked(sn.cidr.addr, sn.cidr.bits).Contains(gi)
            && Masked(sn.cidr.addr, sn.cidr.bits).Contains(p.ranges[0].start)
  {
    hide InputOk, InputPool, Selects, Matches, Masked, Compatible, Relays;
    var ins := Inputs(local, subs);
    var relay := Relays(ins);
    RouteFinds(relay, gi);
    var b :| 0 <= b < |relay| && relay[b] == Route(relay, gi).value;
    var k := RelayOrigin(ins, b);
    SelectsIsMatch(ins[k], gi);
    FirstIsLocal(local, subs, k);
    LocalHasNoSelector(local, subs);
    sn :| sn in subs && ins[k] == InputOf(local, sn);
    SubnetKey(local, sn, gi);
  }

  /** An accepted set has the given local input as its local pool. */
  lemma LocalHasNoSelector(local: Input, subs: seq<SubnetRow>)
    requires Assemble(Inputs(local, subs)).Some?
    ensures local.selector.Empty? && InputOk(local)
    ensures Assemble(Inputs(local, subs)).value.local == InputPool(local)
  {
    hide InputPool, Compatible, Relays, RangesOk, PoolOf;
    var ins := Inputs(local, subs);
    var k :| 0 <= k < |ins| && ins[k].selector.Empty?;
    FirstIsLocal(local, subs, k);
    assert InputOk(ins[k]);
    LocalIs(ins, 0);
  }
}
