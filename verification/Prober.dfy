/** Liveness probing: the layered ARP/ICMP prober of internal/bindings/icmpprobe.go.
    A layer is an oracle from a batch of addresses to a verdict. */
module Prober {
  import opened Basics
  import opened Addresses

  /** What InUseBatch returns: a verdict map, or an error. */
  datatype Probe = Verdict(live: map<IP, bool>) | Unavailable

  type Layer = seq<IP> -> Probe

  /** Go's `live[ip]`: a missing key reads as false. */
  predicate Alive(live: map<IP, bool>, a: IP) {
    a in live && live[a]
  }

  /** The addresses of a batch that a verdict leaves silent, in order. */
  function Silent(live: map<IP, bool>, ips: seq<IP>): (s: seq<IP>)
    ensures forall a :: a in s <==> a in ips && !Alive(live, a)
  {
    if ips == [] then []
    else if Alive(live, ips[0]) then Silent(live, ips[1..])
    else [ips[0]] + Silent(live, ips[1..])
  }

  /** The verdict of the composite, as a function of the two layers. */
  function Composite(arp: Option<Layer>, icmp: Option<Layer>, ips: seq<IP>): Probe {
    if arp.None? && icmp.None? then Unavailable
    else if arp.None? then icmp.value(ips)
    else if icmp.None? then arp.value(ips)
    else match arp.value(ips)
      case Unavailable => icmp.value(ips)
      case Verdict(live) =>
        var silent := Silent(live, ips);
        if silent == [] then Verdict(live)
        else match icmp.value(silent)
          case Unavailable => Verdict(live)
          case Verdict(more) => Verdict(live + (map a | a in more :: true))
  }

  /** The second layer was asked about exactly the addresses the first left silent; what it
      lists is added, and its failure changes nothing. */
  ghost predicate CrossChecked(live: map<IP, bool>, icmp: Layer, ips: seq<IP>, silent: seq<IP>, r: Probe) {
    && (forall a :: a in silent <==> a in ips && !(a in live && live[a]))
    && r.Verdict?
    && (silent == [] || icmp(silent).Unavailable? ==> r.live == live)
    && (silent != [] && icmp(silent).Verdict? ==>
          forall a: IP :: (a in r.live && r.live[a]) <==> (a in live && live[a]) || a in icmp(silent).live)
  }

  /** CompositeProber.InUseBatch. */
  method InUseBatch(arp: Option<Layer>, icmp: Option<Layer>, ips: seq<IP>) returns (r: Probe)
    ensures r == Composite(arp, icmp, ips)
    ensures arp.None? && icmp.None? ==> r.Unavailable?
    ensures arp.None? && icmp.Some? ==> r == icmp.value(ips)
    ensures arp.Some? && icmp.None? ==> r == arp.value(ips)
    ensures arp.Some? && icmp.Some? && arp.value(ips).Unavailable? ==> r == icmp.value(ips)
    ensures arp.Some? && icmp.Some? && arp.value(ips).Verdict? ==>
      exists silent :: CrossChecked(arp.value(ips).live, icmp.value, ips, silent, r)
    ensures arp.Some? && arp.value(ips).Verdict? ==>
      r.Verdict? && forall a :: a in arp.value(ips).live && arp.value(ips).live[a] ==> a in r.live && r.live[a]
  {
    if arp.None? && icmp.None? { return Unavailable; }
    if arp.None? { return icmp.value(ips); }
    if icmp.None? { return arp.value(ips); }
    var first := arp.value(ips);
    if first.Unavailable? { return icmp.value(ips); }
    var live := first.live;
    var silent: seq<IP> := [];
    for i := 0 to |ips|
      invariant silent + Silent(live, ips[i..]) == Silent(live, ips)
    {
      if !Alive(live, ips[i]) { silent := silent + [ips[i]]; }
    }
    assert silent == Silent(live, ips) by { assert ips[|ips|..] == []; }
    r := Verdict(live);
    if |silent| > 0 {
      var second := icmp.value(silent);
      if second.Verdict? {
        live := Merge(live, second.live);
        r := Verdict(live);
      }
    }
    assert CrossChecked(first.live, icmp.value, ips, silent, r);
  }

  /** Every address the second layer lists becomes live, whatever value it is listed with. */
  method Merge(live0: map<IP, bool>, more: map<IP, bool>) returns (live: map<IP, bool>)
    ensures live == live0 + (map a | a in more :: true)
  {
    live := live0;
    var todo := more.Keys;
    while todo != {}
      invariant todo <= more.Keys
      invariant live == live0 + (map a | a in more.Keys - todo :: true)
      decreases |todo|
    {
      var a :| a in todo;
      live := live[a := true];
      todo := todo - {a};
    }
    assert more.Keys - todo == more.Keys;
  }

  /** With both layers configured, an error means both of them failed on this batch. */
  lemma CompositeErrorNeedsBoth(arp: Layer, icmp: Layer, ips: seq<IP>)
    ensures Composite(Some(arp), Some(icmp), ips).Unavailable?
       <==> arp(ips).Unavailable? && icmp(ips).Unavailable?
  {
  }

  /** When both layers answer, an address the composite leaves silent answered
      neither ARP nor the ICMP cross-check, which did include it. */
  lemma CompositeSilence(arp: Layer, icmp: Layer, ips: seq<IP>, a: IP)
    requires a in ips && arp(ips).Verdict? && icmp(Silent(arp(ips).live, ips)).Verdict?
    ensures Composite(Some(arp), Some(icmp), ips).Verdict?
    ensures !Alive(Composite(Some(arp), Some(icmp), ips).live, a)
       <==> !Alive(arp(ips).live, a) && a !in icmp(Silent(arp(ips).live, ips)).live
  {
    var silent := Silent(arp(ips).live, ips);
    if !Alive(arp(ips).live, a) { assert a in silent; }
  }
}
