/** Pool sets (internal/dhcp/pools.go): building one from a list of inputs, choosing the
    pool for a giaddr, and building one from the subnets catalog (cmd/controller/main.go). */
module PoolSets {
  import opened Basics
  import opened Addresses
  import opened Dhcp

  /** The text of a selector: empty, an address, an IPv4 CIDR, or anything else. */
  datatype Selector = Empty | Junk | Bare(addr: Addr) | Cidr(addr: Addr, bits: Bits)

  type Bits = n: nat | n <= 32

  /** SubnetPoolInput. */
  datatype Input = Input(selector: Selector, pools: seq<RangeText>, start: Text, end: Text,
                         netmask: Text, gateway: Text, dns: seq<Text>, leaseSec: nat, exclude: seq<Text>)

  datatype SubnetPools = SubnetPools(local: Pool, relay: seq<Pool>)

  function SpecOf(i: Input): Spec {
    Spec(if i.pools == [] then [RangeText(i.start, i.end)] else i.pools,
         i.netmask, i.gateway, i.dns, i.exclude, i.leaseSec)
  }

  /** tryParseSelector. */
  function TryParse(s: Selector): Option<Prefix> {
    match s
    case Cidr(a, bits) => Some(Masked(a, bits))
    case Bare(a) => Some(IPNet(a, 32))
    case _ => None
  }

  // ---------------------------------------------------------------- acceptance

  /** An input is good on its own: a valid pool that contains its selection key. */
  ghost predicate InputOk(i: Input) {
    && SpecOk(SpecOf(i))
    && (i.selector.Empty? || (TryParse(i.selector).Some?
                              && PoolOf(SpecOf(i)).ContainsKey(TryParse(i.selector).value.ip)))
  }

  /** Two inputs may stand together: not two local pools, no shared relay address. */
  ghost predicate Compatible(i: Input, j: Input) {
    && !(i.selector.Empty? && j.selector.Empty?)
    && (TryParse(i.selector).Some? && TryParse(j.selector).Some? ==>
          Apart(TryParse(i.selector).value, TryParse(j.selector).value))
  }

  ghost predicate HasLocal(ins: seq<Input>) {
    exists k :: 0 <= k < |ins| && ins[k].selector.Empty?
  }

  ghost predicate Sound(ins: seq<Input>) {
    && (forall k :: 0 <= k < |ins| ==> InputOk(ins[k]))
    && (forall j, k :: 0 <= j < k < |ins| ==> Compatible(ins[j], ins[k]))
  }

  ghost predicate Acceptable(ins: seq<Input>) {
    Sound(ins) && HasLocal(ins)
  }

  /** The pool an input becomes. */
  ghost function InputPool(i: Input): (p: Pool)
    requires InputOk(i)
    ensures p.ranges != []
  {
    PoolOf(SpecOf(i)).(selectors := if i.selector.Empty? then [] else [TryParse(i.selector).value])
  }

  ghost function Relays(ins: seq<Input>): seq<Pool>
    requires forall k :: 0 <= k < |ins| ==> InputOk(ins[k])
  {
    if ins == [] then []
    else
      var n := |ins| - 1;
      Relays(ins[..n]) + if ins[n].selector.Empty? then [] else [InputPool(ins[n])]
  }

  /** The pool set of a list of inputs, if it is acceptable. */
  ghost function Assemble(ins: seq<Input>): Option<SubnetPools> {
    if Acceptable(ins) then
      var k :| 0 <= k < |ins| && ins[k].selector.Empty?;
      Some(SubnetPools(InputPool(ins[k]), Relays(ins)))
    else None
  }

  lemma SoundExtends(ins: seq<Input>, i: Input)
    requires Sound(ins) && InputOk(i) && forall j :: 0 <= j < |ins| ==> Compatible(ins[j], i)
    ensures Sound(ins + [i])
  {
    hide InputOk, Compatible;
  }

  lemma RelaysExtend(ins: seq<Input>, i: Input)
    requires Sound(ins) && InputOk(i) && Sound(ins + [i])
    ensures Relays(ins + [i]) == Relays(ins) + if i.selector.Empty? then [] else [InputPool(i)]
  {
    hide InputOk, Compatible;
    assert (ins + [i])[..|ins|] == ins;
  }

  /** The selectors collected so far are those of the inputs seen so far. */
  ghost predicate Collected(ins: seq<Input>, sels: seq<Prefix>) {
    && (forall k :: 0 <= k < |ins| && TryParse(ins[k].selector).Some? ==> TryParse(ins[k].selector).value in sels)
    && (forall p :: p in sels ==> exists k :: 0 <= k < |ins| && TryParse(ins[k].selector) == Some(p))
  }

  lemma LocalFits(ins: seq<Input>, i: Input, sels: seq<Prefix>)
    requires Sound(ins) && !HasLocal(ins) && Collected(ins, sels) && InputOk(i) && i.selector.Empty?
    ensures Sound(ins + [i]) && Collected(ins + [i], sels)
    ensures Relays(ins + [i]) == Relays(ins)
  {
    hide InputOk, Apart;
    SoundExtends(ins, i);
    RelaysExtend(ins, i);
  }

  lemma RelayFits(ins: seq<Input>, i: Input, sels: seq<Prefix>)
    requires Sound(ins) && Collected(ins, sels) && InputOk(i) && !i.selector.Empty?
    requires forall p :: p in sels ==> Apart(p, TryParse(i.selector).value)
    ensures Sound(ins + [i]) && Collected(ins + [i], sels + [TryParse(i.selector).value])
    ensures Relays(ins + [i]) == Relays(ins) + [InputPool(i)]
  {
    hide Apart, SpecOk, PoolOf;
    SoundExtends(ins, i);
    RelaysExtend(ins, i);
  }

  lemma Rejected(ins: seq<Input>, j: nat, k: nat)
    requires j < k < |ins| && !Compatible(ins[j], ins[k])
    ensures Assemble(ins) == None
  {
    hide InputOk, Compatible;
  }

  lemma RejectedAlone(ins: seq<Input>, k: nat)
    requires k < |ins| && !InputOk(ins[k])
    ensures Assemble(ins) == None
  {
    hide InputOk, Compatible;
  }

  lemma RejectedSecondLocal(ins: seq<Input>, k: nat)
    requires k < |ins| && HasLocal(ins[..k]) && ins[k].selector.Empty?
    ensures Assemble(ins) == None
  {
    hide InputOk, Apart;
    var j :| 0 <= j < k && ins[..k][j].selector.Empty?;
    Rejected(ins, j, k);
  }

  lemma RejectedClash(ins: seq<Input>, k: nat, sels: seq<Prefix>, p: Prefix)
    requires k < |ins| && Collected(ins[..k], sels) && p in sels
    requires TryParse(ins[k].selector).Some? && !Apart(p, TryParse(ins[k].selector).value)
    ensures Assemble(ins) == None
  {
    hide InputOk, Apart;
    var j :| 0 <= j < k && TryParse(ins[..k][j].selector) == Some(p);
    Rejected(ins, j, k);
  }

  /** The state of the loop of NewSubnetPools after the inputs `ins`. */
  ghost predicate Built(ins: seq<Input>, local: Option<Pool>, relay: seq<Pool>, sels: seq<Prefix>) {
    && Sound(ins) && Collected(ins, sels) && relay == Relays(ins)
    && (HasLocal(ins) <==> local.Some?)
    && (forall k :: 0 <= k < |ins| && ins[k].selector.Empty? ==> local == Some(InputPool(ins[k])))
  }

  lemma BuildLocal(ins: seq<Input>, i: Input, relay: seq<Pool>, sels: seq<Prefix>)
    requires Built(ins, None, relay, sels) && InputOk(i) && i.selector.Empty?
    ensures Built(ins + [i], Some(InputPool(i)), relay, sels)
  {
    LocalFits(ins, i, sels);
    hide InputOk, Sound, Collected, Relays;
    assert (ins + [i])[|ins|] == i;
  }

  lemma LocalKept(ins: seq<Input>, i: Input, local: Option<Pool>)
    requires Sound(ins) && Sound(ins + [i]) && !i.selector.Empty?
    requires forall k :: 0 <= k < |ins| && ins[k].selector.Empty? ==> local == Some(InputPool(ins[k]))
    ensures HasLocal(ins + [i]) <==> HasLocal(ins)
    ensures forall k :: 0 <= k <= |ins| && (ins + [i])[k].selector.Empty? ==> local == Some(InputPool((ins + [i])[k]))
  {
    hide InputOk, InputPool, Compatible;
    assert forall k :: 0 <= k < |ins| ==> (ins + [i])[k] == ins[k];
  }

  lemma BuildRelay(ins: seq<Input>, i: Input, local: Option<Pool>, relay: seq<Pool>, sels: seq<Prefix>)
    requires Built(ins, local, relay, sels) && InputOk(i) && !i.selector.Empty?
    requires forall p :: p in sels ==> Apart(p, TryParse(i.selector).value)
    ensures Built(ins + [i], local, relay + [InputPool(i)], sels + [TryParse(i.selector).value])
  {
    RelayFits(ins, i, sels);
    LocalKept(ins, i, local);
    hide Sound, Collected, Relays, SpecOk, PoolOf, Apart, InputPool, HasLocal, TryParse;
  }

  lemma BuildDone(ins: seq<Input>, local: Option<Pool>, relay: seq<Pool>, sels: seq<Prefix>)
    requires Built(ins, local, relay, sels)
    ensures Assemble(ins) == if local.Some? then Some(SubnetPools(local.value, relay)) else None
  {
    hide Sound, Collected, Relays, InputOk;
  }

  /** NewSubnetPools accepts exactly the acceptable lists. */
  method NewSubnetPools(ins: seq<Input>) returns (r: Option<SubnetPools>)
    ensures r == Assemble(ins)
  {
    hide Built, Assemble, SpecOk, PoolOf, TryParse, Collected, Apart, GoodRanges, Carries, AllV4;
    var local: Option<Pool> := None;
    var relay: seq<Pool> := [];
    var sels: seq<Prefix> := [];
    assert Built(ins[..0], local, relay, sels) by { BuildNothing(); }
    for k := 0 to |ins|
      invariant Built(ins[..k], local, relay, sels)
    {
      var i := ins[k];
      assert ins[..k + 1] == ins[..k] + [i];
      var pool := NewPoolRanges(SpecOf(i));
      if pool.None? {
        RejectedAlone(ins, k);
        return None;
      }
      if i.selector.Empty? {
        if local.Some? {
          SecondLocal(ins, k, local, relay, sels);
          return None;
        }
        BuildLocal(ins[..k], i, relay, sels);
        local := Some(pool.value);
        continue;
      }
      var sel := TryParse(i.selector);
      if sel.None? {
        RejectedAlone(ins, k);
        return None;
      }
      for j := 0 to |sels|
        invariant forall p :: p in sels[..j] ==> Apart(p, sel.value)
      {
        OverlapsIff(sels[j], sel.value);
        if Overlaps(sels[j], sel.value) {
          Clash(ins, k, local, relay, sels, sels[j]);
          return None;
        }
        assert sels[..j + 1] == sels[..j] + [sels[j]];
      }
      if !pool.value.ContainsKey(sel.value.ip) {
        RejectedAlone(ins, k);
        return None;
      }
      assert sels[..|sels|] == sels;
      BuildRelay(ins[..k], i, local, relay, sels);
      sels := sels + [sel.value];
      relay := relay + [pool.value.(selectors := [sel.value])];
    }
    assert ins[..|ins|] == ins;
    BuildDone(ins, local, relay, sels);
    if local.None? { return None; }
    return Some(SubnetPools(local.value, relay));
  }

  lemma BuildNothing()
    ensures Built([], None, [], [])
  {
  }

  lemma SecondLocal(ins: seq<Input>, k: nat, local: Option<Pool>, relay: seq<Pool>, sels: seq<Prefix>)
    requires k < |ins| && Built(ins[..k], local, relay, sels) && local.Some? && ins[k].selector.Empty?
    ensures Assemble(ins) == None
  {
    hide Assemble, InputOk;
    RejectedSecondLocal(ins, k);
  }

  lemma Clash(ins: seq<Input>, k: nat, local: Option<Pool>, relay: seq<Pool>, sels: seq<Prefix>, p: Prefix)
    requires k < |ins| && Built(ins[..k], local, relay, sels) && p in sels
    requires TryParse(ins[k].selector).Some? && !Apart(p, TryParse(ins[k].selector).value)
    ensures Assemble(ins) == None
  {
    hide Assemble, InputOk;
    RejectedClash(ins, k, sels, p);
  }
}
