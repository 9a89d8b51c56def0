/** IPv4 addresses as the allocator handles them: big-endian byte strings with
    byte-wise masks and a byte-carry increment.  `Num` reads a byte string as a
    number; the lemmas say that every byte-level operation is the expected
    operation on numbers. */
module Addresses {

  type Byte = b: nat | b < 256
  type Addr = a: seq<Byte> | |a| == 4 witness [0, 0, 0, 0]

  const SPACE: nat := 0x1_0000_0000

  function Pow2(n: nat): (r: nat)
    ensures r > 0
  {
    if n == 0 then 1 else 2 * Pow2(n - 1)
  }

  /** The big-endian value of a byte string. */
  function Num(s: seq<Byte>): nat {
    if s == [] then 0 else 256 * Num(s[..|s| - 1]) + s[|s| - 1]
  }

  // ---------------------------------------------------------------- bit operations

  /** Bitwise AND and OR of two numbers, on their low w bits. */
  function And(a: nat, b: nat, w: nat): nat {
    if w == 0 then 0
    else 2 * And(a / 2, b / 2, w - 1) + (if a % 2 == 1 && b % 2 == 1 then 1 else 0)
  }

  function Or(a: nat, b: nat, w: nat): nat {
    if w == 0 then 0
    else 2 * Or(a / 2, b / 2, w - 1) + (if a % 2 == 1 || b % 2 == 1 then 1 else 0)
  }

  /** x with its low h bits cleared. */
  function Clear(x: nat, h: nat): nat {
    if h == 0 then x else 2 * Clear(x / 2, h - 1)
  }

  lemma {:induction false} AndBound(a: nat, b: nat, w: nat)
    ensures And(a, b, w) < Pow2(w)
  {
    if w > 0 { AndBound(a / 2, b / 2, w - 1); }
  }

  lemma {:induction false} OrBound(a: nat, b: nat, w: nat)
    ensures Or(a, b, w) < Pow2(w)
  {
    if w > 0 { OrBound(a / 2, b / 2, w - 1); }
  }

  /** AND with a mask whose low j of w bits are clear drops the low j bits. */
  lemma {:induction false} AndMask(a: nat, w: nat, j: nat)
    requires a < Pow2(w) && j <= w
    ensures Pow2(j) <= Pow2(w) && And(a, Pow2(w) - Pow2(j), w) == Clear(a, j)
  {
    if w > 0 { AndMask(a / 2, w - 1, if j == 0 then 0 else j - 1); }
  }

  /** OR with the complement of such a mask sets the low j bits. */
  lemma {:induction false} OrMask(a: nat, w: nat, j: nat)
    requires a < Pow2(w) && j <= w
    ensures Or(a, Pow2(j) - 1, w) == Clear(a, j) + Pow2(j) - 1
  {
    if w > 0 { OrMask(a / 2, w - 1, if j == 0 then 0 else j - 1); }
  }

  /** The numbers that clear to an aligned lo are the 2^h numbers from lo on. */
  lemma {:induction false} ClearBlock(x: nat, h: nat, lo: nat)
    requires Clear(lo, h) == lo
    ensures Clear(x, h) == lo <==> lo <= x <= lo + Pow2(h) - 1
  {
    if h > 0 { ClearBlock(x / 2, h - 1, lo / 2); }
  }

  lemma {:induction false} ClearNested(x: nat, g: nat, h: nat)
    requires g <= h
    ensures Clear(Clear(x, g), h) == Clear(x, h)
  {
    if g > 0 { ClearNested(x / 2, g - 1, h - 1); }
  }

  lemma Pow2Octet(n: nat)
    ensures Pow2(n + 8) == 256 * Pow2(n)
  {
    assert Pow2(n + 8) == 2 * Pow2(n + 7) == 4 * Pow2(n + 6) == 8 * Pow2(n + 5) == 16 * Pow2(n + 4);
    assert Pow2(n + 4) == 2 * Pow2(n + 3) == 4 * Pow2(n + 2) == 8 * Pow2(n + 1) == 16 * Pow2(n);
  }

  lemma Pow2Eight()
    ensures Pow2(8) == 256
  {
    Pow2Octet(0);
  }

  lemma {:induction false} Pow2Mono(a: nat, b: nat)
    requires a <= b
    ensures Pow2(a) <= Pow2(b)
    decreases b
  {
    if a < b { Pow2Mono(a, b - 1); }
  }

  // ---------------------------------------------------------------- masks

  function AndByte(a: Byte, b: Byte): Byte {
    AndBound(a, b, 8);
    Pow2Eight();
    And(a, b, 8)
  }

  function OrByte(a: Byte, b: Byte): Byte {
    OrBound(a, b, 8);
    Pow2Eight();
    Or(a, b, 8)
  }

  /** The host bits that fall in the last byte when h host bits remain. */
  function LowBits(h: nat): (j: nat)
    ensures j <= 8 && j <= h && (j < 8 ==> j == h)
  {
    if h < 8 then h else 8
  }

  /** n bytes of net.CIDRMask, built from the low end: h host bits remain to clear. */
  function Mask(n: nat, h: nat): (m: seq<Byte>)
    ensures |m| == n
  {
    if n == 0 then []
    else
      assert Pow2(LowBits(h)) <= 256 by { Pow2Mono(LowBits(h), 8); Pow2Eight(); }
      Mask(n - 1, h - LowBits(h)) + [256 - Pow2(LowBits(h))]
  }

  /** `b & mask`, byte by byte. */
  function MaskBytes(s: seq<Byte>, m: seq<Byte>): (r: seq<Byte>)
    requires |s| == |m|
    ensures |r| == |s|
  {
    seq(|s|, i requires 0 <= i < |s| => AndByte(s[i], m[i]))
  }

  /** `b | ^mask`, byte by byte. */
  function FillBytes(s: seq<Byte>, m: seq<Byte>): (r: seq<Byte>)
    requires |s| == |m|
    ensures |r| == |s|
  {
    seq(|s|, i requires 0 <= i < |s| => OrByte(s[i], 255 - m[i]))
  }

  lemma {:induction false} NumBound(s: seq<Byte>)
    ensures Num(s) < Pow2(8 * |s|)
  {
    if s != [] {
      NumBound(s[..|s| - 1]);
      Pow2Octet(8 * (|s| - 1));
    }
  }

  lemma {:induction false} NumInjective(a: seq<Byte>, b: seq<Byte>)
    requires |a| == |b| && Num(a) == Num(b)
    ensures a == b
  {
    if a != [] {
      var n := |a| - 1;
      NumInjective(a[..n], b[..n]);
      assert a == a[..n] + [a[n]] && b == b[..n] + [b[n]];
    }
  }

  /** Clearing h low bits of 256*u + b acts on u and b separately. */
  lemma {:induction false} ClearOctet(u: nat, b: Byte, h: nat)
    ensures Clear(256 * u + b, h) == 256 * Clear(u, h - LowBits(h)) + Clear(b, LowBits(h))
  {
    Pow2Eight();
    ClearSplit(u, b, h, 8);
  }

  lemma {:induction false} ClearSplit(u: nat, b: nat, h: nat, k: nat)
    requires b < Pow2(k)
    ensures h <= k ==> Clear(Pow2(k) * u + b, h) == Pow2(k) * u + Clear(b, h)
    ensures h > k ==> Clear(Pow2(k) * u + b, h) == Pow2(k) * Clear(u, h - k) && Clear(b, k) == 0
  {
    if h > 0 && k > 0 {
      var w := Pow2(k - 1);
      Halve(w, u, b);
      ClearSplit(u, b / 2, h - 1, k - 1);
      if h > k { Halve(w, Clear(u, h - k), 0); }
    }
  }

  lemma Halve(w: nat, u: nat, b: nat)
    ensures 2 * w * u == 2 * (w * u) && (2 * w * u + b) / 2 == w * u + b / 2
  {
    assert 2 * w * u == 2 * (w * u);
  }

  lemma MaskLast(n: nat, h: nat)
    ensures Mask(n + 1, h)[..n] == Mask(n, h - LowBits(h)) && Mask(n + 1, h)[n] == 256 - Pow2(LowBits(h))
  {
    hide Pow2;
  }

  lemma MaskedBefore(s: seq<Byte>, m: seq<Byte>, n: nat)
    requires |s| == |m| == n + 1
    ensures MaskBytes(s, m)[..n] == MaskBytes(s[..n], m[..n])
  {
    hide AndByte;
  }

  lemma FilledBefore(s: seq<Byte>, m: seq<Byte>, n: nat)
    requires |s| == |m| == n + 1
    ensures FillBytes(s, m)[..n] == FillBytes(s[..n], m[..n])
  {
    hide OrByte;
  }

  lemma ByteUnderMask(b: Byte, j: nat)
    requires j <= 8
    ensures Pow2(j) <= 256 && AndByte(b, 256 - Pow2(j)) == Clear(b, j)
    ensures OrByte(b, Pow2(j) - 1) == Clear(b, j) + Pow2(j) - 1
  {
    hide And, Or, Clear, Pow2;
    Pow2Eight();
    AndMask(b, 8, j);
    OrMask(b, 8, j);
  }

  /** Masking with h host bits clears the low h bits of the value. */
  lemma {:induction false} MaskValue(s: seq<Byte>, h: nat)
    requires h <= 8 * |s|
    ensures Num(MaskBytes(s, Mask(|s|, h))) == Clear(Num(s), h)
  {
    hide Mask, AndByte, Clear, Pow2;
    if s == [] {
      ClearNone(0);
    } else {
      var n, j := |s| - 1, LowBits(h);
      MaskLast(n, h);
      MaskedBefore(s, Mask(|s|, h), n);
      ByteUnderMask(s[n], j);
      MaskValue(s[..n], h - j);
      ClearOctet(Num(s[..n]), s[n], h);
    }
  }

  /** Filling with h host bits sets the low h bits of the value. */
  lemma {:induction false} FillValue(s: seq<Byte>, h: nat)
    requires h <= 8 * |s|
    ensures Num(FillBytes(s, Mask(|s|, h))) == Clear(Num(s), h) + Pow2(h) - 1
  {
    hide Mask, OrByte, Clear, Pow2;
    if s == [] {
      ClearNone(0);
    } else {
      var n, j := |s| - 1, LowBits(h);
      MaskLast(n, h);
      FilledBefore(s, Mask(|s|, h), n);
      ByteUnderMask(s[n], j);
      FillValue(s[..n], h - j);
      Pow2Eight();
      ClearNone(0);
      if j == 8 { Pow2Octet(h - 8); }
      ClearOctet(Num(s[..n]), s[n], h);
    }
  }

  lemma ClearNone(x: nat)
    ensures Clear(x, 0) == x && Pow2(0) == 1
  {
  }

  // ---------------------------------------------------------------- networks

  /** A parsed CIDR: the masked network address and the prefix length. */
  datatype IPNet = IPNet(ip: Addr, bits: nat) {
    function HostBits(): nat
      requires bits <= 32
    {
      32 - bits
    }

    predicate Valid() {
      bits <= 32 && ip == MaskBytes(ip, Mask(4, HostBits()))
    }

    /** net.IPNet.Contains: the masked bytes agree. */
    predicate Contains(a: Addr)
      requires bits <= 32
    {
      MaskBytes(ip, Mask(4, HostBits())) == MaskBytes(a, Mask(4, HostBits()))
    }

    /** isBroadcast: filling the host bits changes nothing. */
    predicate IsBroadcast(a: Addr)
      requires bits <= 32
    {
      a == FillBytes(a, Mask(4, HostBits()))
    }

    /** The network address and the broadcast address, as numbers. */
    function Lo(): nat { Num(ip) }

    function Hi(): nat
      requires bits <= 32
    {
      Num(ip) + Pow2(HostBits()) - 1
    }

    /** Byte-wise membership is membership in the interval from network to broadcast. */
    lemma ContainsIsInterval(a: Addr)
      requires Valid()
      ensures Contains(a) <==> Lo() <= Num(a) <= Hi()
    {
      MaskValue(ip, HostBits());
      MaskValue(a, HostBits());
      ClearBlock(Num(a), HostBits(), Lo());
      if Num(MaskBytes(a, Mask(4, HostBits()))) == Lo() {
        NumInjective(MaskBytes(a, Mask(4, HostBits())), ip);
      }
    }

    /** Inside the network, `isBroadcast` singles out network + 2^(32-bits) - 1. */
    lemma BroadcastIsTop(a: Addr)
      requires Valid() && Contains(a)
      ensures IsBroadcast(a) <==> Num(a) == Hi()
    {
      ContainsIsInterval(a);
      MaskValue(ip, HostBits());
      ClearBlock(Num(a), HostBits(), Lo());
      FillValue(a, HostBits());
      if Num(FillBytes(a, Mask(4, HostBits()))) == Num(a) {
        NumInjective(FillBytes(a, Mask(4, HostBits())), a);
      }
    }

    lemma HiBound()
      requires Valid()
      ensures Hi() < SPACE
    {
      MaskValue(ip, HostBits());
      FillValue(ip, HostBits());
      AddrBound(FillBytes(ip, Mask(4, HostBits())));
    }
  }

  lemma AddrBound(a: Addr)
    ensures Num(a) < SPACE
  {
    NumBound(a);
    SpaceIsPow();
  }

  lemma SpaceIsPow()
    ensures Pow2(32) == SPACE
  {
    Pow2Octet(0);
    Pow2Octet(8);
    Pow2Octet(16);
    Pow2Octet(24);
  }

  // ---------------------------------------------------------------- increment and order

  /** The value nextIP computes: add one with carry, wrapping at the end. */
  function Next(s: seq<Byte>): (r: seq<Byte>)
    ensures |r| == |s|
  {
    if s == [] then []
    else if s[|s| - 1] == 255 then Next(s[..|s| - 1]) + [0]
    else s[..|s| - 1] + [s[|s| - 1] + 1]
  }

  /** Carry arithmetic is +1, wrapping to zero past the last value of the width. */
  lemma {:induction false} NextValue(s: seq<Byte>)
    ensures Num(Next(s)) == if Num(s) + 1 == Pow2(8 * |s|) then 0 else Num(s) + 1
  {
    if s != [] {
      var n, r := |s| - 1, Next(s);
      Pow2Octet(8 * n);
      NumBound(s[..n]);
      if s[n] == 255 {
        NextValue(s[..n]);
        assert r[..n] == Next(s[..n]) && r[n] == 0;
      } else {
        assert r[..n] == s[..n] && r[n] == s[n] + 1;
      }
    }
  }

  /** `nextIP` is +1 modulo 2^32. */
  lemma NextAddr(a: Addr)
    ensures Num(Next(a)) == (Num(a) + 1) % SPACE
  {
    NextValue(a);
    AddrBound(a);
    SpaceIsPow();
  }

  /** nextIP: copy the bytes, then increment from the last one until a byte does not wrap. */
  method NextIP(ip: array<Byte>) returns (next: array<Byte>)
    ensures fresh(next) && next.Length == ip.Length
    ensures next[..] == Next(ip[..])
  {
    next := new Byte[ip.Length](i => 0);
    forall k | 0 <= k < ip.Length { next[k] := ip[k]; }
    ghost var s := ip[..];
    var i := next.Length - 1;
    while i >= 0
      invariant -1 <= i < next.Length
      invariant forall k :: 0 <= k <= i ==> next[k] == s[k]
      invariant forall k :: i < k < next.Length ==> next[k] == 0 && s[k] == 255
    {
      var b: nat := next[i];
      next[i] := (b + 1) % 256;
      if next[i] > 0 {
        CarryStops(s, i);
        assert next[..] == s[..i] + [s[i] + 1] + seq(|s| - 1 - i, _ => 0);
        return;
      }
      i := i - 1;
    }
    CarryOverflows(s);
    assert next[..] == seq(|s|, _ => 0);
  }

  lemma {:induction false} CarryStops(s: seq<Byte>, i: nat)
    requires i < |s| && s[i] < 255
    requires forall k :: i < k < |s| ==> s[k] == 255
    ensures Next(s) == s[..i] + [s[i] + 1] + seq(|s| - 1 - i, _ => 0)
    decreases |s|
  {
    var n := |s| - 1;
    if i < n {
      CarryStops(s[..n], i);
      assert s[..n][..i] == s[..i];
    }
  }

  lemma {:induction false} CarryOverflows(s: seq<Byte>)
    requires forall k :: 0 <= k < |s| ==> s[k] == 255
    ensures Next(s) == seq(|s|, _ => 0)
  {
    if s != [] { CarryOverflows(s[..|s| - 1]); }
  }

  /** ipGT: byte-wise lexicographic comparison. */
  predicate IpGT(a: seq<Byte>, b: seq<Byte>)
    requires |a| == |b|
  {
    a != [] && (a[0] > b[0] || (a[0] == b[0] && IpGT(a[1..], b[1..])))
  }

  /** Lexicographic order, peeled from the last byte instead of the first. */
  lemma {:induction false} IpGTLast(a: seq<Byte>, b: seq<Byte>)
    requires |a| == |b| && a != []
    ensures var n := |a| - 1;
            IpGT(a, b) <==> IpGT(a[..n], b[..n]) || (a[..n] == b[..n] && a[n] > b[n])
  {
    var n := |a| - 1;
    if n > 0 {
      IpGTLast(a[1..], b[1..]);
      assert a[..n][1..] == a[1..][..n - 1] && b[..n][1..] == b[1..][..n - 1];
      assert a[..n] == [a[0]] + a[1..][..n - 1] && b[..n] == [b[0]] + b[1..][..n - 1];
    }
  }

  /** `ipGT` is the numeric order. */
  lemma {:induction false} IpGTIsNumeric(a: seq<Byte>, b: seq<Byte>)
    requires |a| == |b|
    ensures IpGT(a, b) <==> Num(a) > Num(b)
  {
    if a != [] {
      var n := |a| - 1;
      IpGTLast(a, b);
      IpGTIsNumeric(a[..n], b[..n]);
      if Num(a[..n]) == Num(b[..n]) { NumInjective(a[..n], b[..n]); }
    }
  }

  // ---------------------------------------------------------------- the numeric view

  type IP = n: nat | n < SPACE

  /** A network as the interval from its network address to its broadcast address. */
  datatype Net = Net(lo: IP, hi: IP) {
    predicate Contains(x: IP) { lo <= x <= hi }
  }

  function NumOf(a: Addr): IP {
    AddrBound(a);
    Num(a)
  }

  function NetOf(n: IPNet): Net
    requires n.Valid()
  {
    n.HiBound();
    Net(n.Lo(), n.Hi())
  }

  function NextNum(x: IP): IP {
    (x + 1) % SPACE
  }

  /** The allocator's loops may be read on numbers: each byte-level primitive they
      use is the numeric one, and distinct byte strings are distinct numbers. */
  lemma BytesAreNumbers(net: IPNet, a: Addr, b: Addr)
    requires net.Valid()
    ensures NumOf(Next(a)) == NextNum(NumOf(a))
    ensures net.Contains(a) <==> NetOf(net).Contains(NumOf(a))
    ensures net.Contains(a) ==> (net.IsBroadcast(a) <==> NumOf(a) == NetOf(net).hi)
    ensures IpGT(a, b) <==> NumOf(a) > NumOf(b)
    ensures a == b <==> NumOf(a) == NumOf(b)
    ensures net.bits == 0 <==> NetOf(net) == Net(0, SPACE - 1)
  {
    hide Next, IpGT, Num, Pow2, MaskBytes, FillBytes, Mask;
    NextAddr(a);
    IpGTIsNumeric(a, b);
    if Num(a) == Num(b) { NumInjective(a, b); }
    WholeSpace(net);
    net.ContainsIsInterval(a);
    if net.Contains(a) { net.BroadcastIsTop(a); }
  }

  lemma WholeSpace(net: IPNet)
    requires net.Valid()
    ensures net.bits == 0 <==> NetOf(net) == Net(0, SPACE - 1)
  {
    SpaceIsPow();
    net.HiBound();
    if net.bits > 0 { Pow2Mono(net.HostBits(), 31); }
  }
}
