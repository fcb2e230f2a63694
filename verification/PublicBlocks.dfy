/**
 Which addresses are public, by the blocks that are not: each written as a prefix, and read by what a
 prefix contains.
 */
module PublicBlocks {
  import opened Scope
  import opened Words

  // ---- What a prefix contains, byte by byte ----

  /** Whether a byte is in the block of 2^c values around another. */
  predicate InByte(v: byte, w: byte, c: nat) {
    Clear(w, c) <= v < Clear(w, c) + Pow2(c)
  }

  lemma SameByte(v: byte, w: byte, c: nat)
    ensures Clear(v, c) == Clear(w, c) <==> InByte(v, w, c)
  {
    ClearFits(v, c);
    if InByte(v, w, c) { SameBlock(v, w, c); }
  }

  lemma ContainsBytes(p: Prefix, x: Ip)
    requires Valid(p) && |x| == |p.addr|
    ensures Contains(p, x) <==> forall k | 0 <= k < |x| :: InByte(x[k], p.addr[k], Share(Host(p), |x| - 1 - k))
  {
    forall k | 0 <= k < |x|
      ensures Masked(x, Host(p))[k] == Masked(p.addr, Host(p))[k] <==> InByte(x[k], p.addr[k], Share(Host(p), |x| - 1 - k))
    {
      ByteAt(x, Host(p), k);
      ByteAt(p.addr, Host(p), k);
      SameByte(x[k], p.addr[k], Share(Host(p), |x| - 1 - k));
    }
  }

  lemma WholeByte(v: byte, w: byte)
    ensures InByte(v, w, 0) <==> v == w
    ensures InByte(v, w, 8)
  {
    EightBits();
    ClearFits(v, 8);
    ClearFits(w, 8);
    ClearAll(w, 8);
  }

  lemma {:induction false} ClearAll(v: nat, c: nat)
    requires v < Pow2(c)
    ensures Clear(v, c) == 0
    decreases c
  {
    if c > 0 { ClearAll(v / 2, c - 1); }
  }

  /** The blocks of part of a byte that the table needs. */
  lemma PartByte(v: byte)
    ensures InByte(v, 18, 1) <==> 18 <= v < 20
    ensures InByte(v, 252, 1) <==> 252 <= v < 254
    ensures InByte(v, 16, 4) <==> 16 <= v < 32
    ensures InByte(v, 224, 4) <==> 224 <= v < 240
    ensures InByte(v, 240, 4) <==> 240 <= v < 256
    ensures InByte(v, 64, 6) <==> 64 <= v < 128
    ensures InByte(v, 128, 6) <==> 128 <= v < 192
  {
    assert Clear(18, 1) == 18 && Clear(252, 1) == 252;
    assert Clear(16, 4) == 16 && Clear(224, 4) == 224 && Clear(240, 4) == 240;
    assert Clear(64, 6) == 64 && Clear(128, 6) == 128;
    assert Pow2(1) == 2 && Pow2(4) == 16 && Pow2(6) == 64;
  }

  // ---- IPv4 ----

  /** The IPv4 blocks that are not public: this host, private, carrier NAT, loopback, link-local, protocol
      assignments, documentation, benchmarking, multicast, reserved. */
  const BLOCKS4: seq<Prefix> := [
    Prefix([0, 0, 0, 0], 32), Prefix([10, 0, 0, 0], 8), Prefix([100, 64, 0, 0], 10), Prefix([127, 0, 0, 0], 8),
    Prefix([169, 254, 0, 0], 16), Prefix([172, 16, 0, 0], 12), Prefix([192, 0, 0, 0], 24), Prefix([192, 0, 2, 0], 24),
    Prefix([192, 168, 0, 0], 16), Prefix([198, 18, 0, 0], 15), Prefix([198, 51, 100, 0], 24), Prefix([203, 0, 113, 0], 24),
    Prefix([224, 0, 0, 0], 4), Prefix([240, 0, 0, 0], 4)]

  lemma Bytes4(p: Prefix, a: Ip)
    requires Valid(p) && |p.addr| == |a| == 4
    ensures Contains(p, a) <==>
      && InByte(a[0], p.addr[0], Share(Host(p), 3)) && InByte(a[1], p.addr[1], Share(Host(p), 2))
      && InByte(a[2], p.addr[2], Share(Host(p), 1)) && InByte(a[3], p.addr[3], Share(Host(p), 0))
  {
    ContainsBytes(p, a);
  }

  lemma Slash8(a: Ip, b: byte)
    requires |a| == 4
    ensures Contains(Prefix([b, 0, 0, 0], 8), a) <==> a[0] == b
  {
    Bytes4(Prefix([b, 0, 0, 0], 8), a);
    WholeByte(a[0], b);
    WholeByte(a[1], 0);
    WholeByte(a[2], 0);
    WholeByte(a[3], 0);
  }

  lemma Slash16(a: Ip, b: byte, c: byte)
    requires |a| == 4
    ensures Contains(Prefix([b, c, 0, 0], 16), a) <==> a[0] == b && a[1] == c
  {
    Bytes4(Prefix([b, c, 0, 0], 16), a);
    WholeByte(a[0], b);
    WholeByte(a[1], c);
    WholeByte(a[2], 0);
    WholeByte(a[3], 0);
  }

  lemma Slash24(a: Ip, b: byte, c: byte, d: byte)
    requires |a| == 4
    ensures Contains(Prefix([b, c, d, 0], 24), a) <==> a[0] == b && a[1] == c && a[2] == d
  {
    Bytes4(Prefix([b, c, d, 0], 24), a);
    WholeByte(a[0], b);
    WholeByte(a[1], c);
    WholeByte(a[2], d);
    WholeByte(a[3], 0);
  }

  lemma Slash4(a: Ip, b: byte)
    requires |a| == 4
    ensures Contains(Prefix([b, 0, 0, 0], 4), a) <==> InByte(a[0], b, 4)
  {
    Bytes4(Prefix([b, 0, 0, 0], 4), a);
    WholeByte(a[1], 0);
    WholeByte(a[2], 0);
    WholeByte(a[3], 0);
  }

  lemma SecondByte(a: Ip, b: byte, c: byte, bits: nat)
    requires |a| == 4 && 8 <= bits <= 16
    ensures Contains(Prefix([b, c, 0, 0], bits), a) <==> a[0] == b && InByte(a[1], c, 16 - bits)
  {
    Bytes4(Prefix([b, c, 0, 0], bits), a);
    WholeByte(a[0], b);
    WholeByte(a[2], 0);
    WholeByte(a[3], 0);
  }

  lemma OneAddress(p: Prefix, a: Ip)
    requires |p.addr| == |a| && p.bits == 8 * |a|
    ensures Contains(p, a) <==> a == p.addr
  {
    ContainsBytes(p, a);
    forall k | 0 <= k < |a|
      ensures InByte(a[k], p.addr[k], Share(Host(p), |a| - 1 - k)) <==> a[k] == p.addr[k]
    {
      WholeByte(a[k], p.addr[k]);
    }
  }

  predicate InAny(a: Ip, blocks: seq<Prefix>)
    requires forall i | 0 <= i < |blocks| :: Valid(blocks[i])
  {
    exists i | 0 <= i < |blocks| :: Contains(blocks[i], a)
  }

  /** What each IPv4 block holds. */
  predicate Held(i: nat, a: Ip)
    requires |a| == 4 && i < 14
  {
    match i
    case 0 => a[0] == a[1] == a[2] == a[3] == 0
    case 1 => a[0] == 10
    case 2 => a[0] == 100 && 64 <= a[1] < 128
    case 3 => a[0] == 127
    case 4 => a[0] == 169 && a[1] == 254
    case 5 => a[0] == 172 && 16 <= a[1] < 32
    case 6 => a[0] == 192 && a[1] == 0 && a[2] == 0
    case 7 => a[0] == 192 && a[1] == 0 && a[2] == 2
    case 8 => a[0] == 192 && a[1] == 168
    case 9 => a[0] == 198 && 18 <= a[1] < 20
    case 10 => a[0] == 198 && a[1] == 51 && a[2] == 100
    case 11 => a[0] == 203 && a[1] == 0 && a[2] == 113
    case 12 => 224 <= a[0] < 240
    case _ => 240 <= a[0]
  }

  lemma BlockHolds(i: nat, a: Ip, p: Prefix)
    requires |a| == 4 && i < 14 && p == BLOCKS4[i]
    ensures Contains(p, a) <==> Held(i, a)
  {
    PartByte(a[0]);
    PartByte(a[1]);
    match i
    case 0 => OneAddress(p, a);
    case 1 => Slash8(a, 10);
    case 2 => SecondByte(a, 100, 64, 10);
    case 3 => Slash8(a, 127);
    case 4 => Slash16(a, 169, 254);
    case 5 => SecondByte(a, 172, 16, 12);
    case 6 => Slash24(a, 192, 0, 0);
    case 7 => Slash24(a, 192, 0, 2);
    case 8 => Slash16(a, 192, 168);
    case 9 => SecondByte(a, 198, 18, 15);
    case 10 => Slash24(a, 198, 51, 100);
    case 11 => Slash24(a, 203, 0, 113);
    case 12 => Slash4(a, 224);
    case _ => Slash4(a, 240);
  }

  /** An IPv4 address is public exactly when it is in none of them. */
  lemma Public4(a: Ip)
    requires |a| == 4
    ensures IsPublic4(a) <==> !InAny(a, BLOCKS4)
  {
    forall i: nat | i < 14
      ensures Contains(BLOCKS4[i], a) <==> Held(i, a)
    {
      BlockHolds(i, a, BLOCKS4[i]);
    }
    HeldByNone(a);
  }

  lemma HeldByNone(a: Ip)
    requires |a| == 4
    ensures IsPublic4(a) <==> forall i: nat | i < 14 :: !Held(i, a)
  {
    if forall i: nat | i < 14 :: !Held(i, a) {
      assert !Held(0, a) && !Held(1, a) && !Held(2, a) && !Held(3, a) && !Held(4, a) && !Held(5, a) && !Held(6, a);
      assert !Held(7, a) && !Held(8, a) && !Held(9, a) && !Held(10, a) && !Held(11, a) && !Held(12, a) && !Held(13, a);
    }
  }

  // ---- IPv6 ----

  /** The IPv6 blocks that are not public: unspecified, loopback, unique local, link-local, multicast. */
  const BLOCKS6: seq<Prefix> := [
    Prefix([0, 0, 0, 0, 0, 0, 0, 0, 0, 0, 0, 0, 0, 0, 0, 0], 128),
    Prefix([0, 0, 0, 0, 0, 0, 0, 0, 0, 0, 0, 0, 0, 0, 0, 1], 128),
    Prefix([0xFC, 0, 0, 0, 0, 0, 0, 0, 0, 0, 0, 0, 0, 0, 0, 0], 7),
    Prefix([0xFE, 0x80, 0, 0, 0, 0, 0, 0, 0, 0, 0, 0, 0, 0, 0, 0], 10),
    Prefix([0xFF, 0, 0, 0, 0, 0, 0, 0, 0, 0, 0, 0, 0, 0, 0, 0], 8)]

  /** A prefix of at most two bytes leaves the others free. */
  lemma FirstTwo(p: Prefix, a: Ip)
    requires |p.addr| == |a| == 16 && p.bits <= 16
    ensures Contains(p, a) <==> InByte(a[0], p.addr[0], Share(Host(p), 15)) && InByte(a[1], p.addr[1], Share(Host(p), 14))
  {
    ContainsBytes(p, a);
    forall k | 2 <= k < 16
      ensures InByte(a[k], p.addr[k], Share(Host(p), 15 - k))
    {
      assert Share(Host(p), 15 - k) == 8;
      WholeByte(a[k], p.addr[k]);
    }
  }

  lemma Blocks6(a: Ip)
    requires |a| == 16
    ensures Contains(BLOCKS6[0], a) <==> a == [0, 0, 0, 0, 0, 0, 0, 0, 0, 0, 0, 0, 0, 0, 0, 0]
    ensures Contains(BLOCKS6[1], a) <==> a == [0, 0, 0, 0, 0, 0, 0, 0, 0, 0, 0, 0, 0, 0, 0, 1]
    ensures Contains(BLOCKS6[2], a) <==> 0xFC <= a[0] < 0xFE
    ensures Contains(BLOCKS6[3], a) <==> a[0] == 0xFE && 0x80 <= a[1] < 0xC0
    ensures Contains(BLOCKS6[4], a) <==> a[0] == 0xFF
  {
    OneAddress(BLOCKS6[0], a);
    OneAddress(BLOCKS6[1], a);
    FirstTwo(BLOCKS6[2], a);
    FirstTwo(BLOCKS6[3], a);
    FirstTwo(BLOCKS6[4], a);
    WholeByte(a[0], 0xFE);
    WholeByte(a[0], 0xFF);
    WholeByte(a[1], 0);
    PartByte(a[0]);
    PartByte(a[1]);
  }

  lemma Public6(a: Ip)
    requires |a| == 16
    ensures IsPublic6(a) <==> !InAny(a, BLOCKS6)
  {
    Blocks6(a);
  }

  // ---- Any address ----

  /** The IPv4-mapped block, ::ffff:0:0/96, whose addresses stand for the IPv4 ones at their end. */
  const MAPPED: Prefix := Prefix([0, 0, 0, 0, 0, 0, 0, 0, 0, 0, 0xFF, 0xFF, 0, 0, 0, 0], 96)

  lemma MappedHolds(a: Ip, w: Ip)
    requires |a| == 16 && w == MAPPED.addr
    ensures Contains(MAPPED, a) <==> forall k | 0 <= k < 12 :: a[k] == w[k]
  {
    ContainsBytes(MAPPED, a);
    forall k | 0 <= k < 16
      ensures InByte(a[k], w[k], Share(Host(MAPPED), 15 - k)) <==> k >= 12 || a[k] == w[k]
    {
      assert Share(Host(MAPPED), 15 - k) == if k >= 12 then 8 else 0;
      WholeByte(a[k], w[k]);
    }
  }

  lemma MappedIs(a: Ip)
    requires |a| == 16
    ensures Contains(MAPPED, a) <==> Unmap(a) == a[12..]
  {
    var w := MAPPED.addr;
    MappedHolds(a, w);
    assert a[..10] == w[..10] <==> forall k | 0 <= k < 10 :: a[k] == w[k];
  }

  /** An address is public exactly when it, or the IPv4 address it stands for, is in no such block. */
  lemma PublicExactly(a: Ip)
    ensures IsPublic(a) <==>
      if |a| == 4 then !InAny(a, BLOCKS4)
      else if Contains(MAPPED, a) then !InAny(a[12..], BLOCKS4)
      else !InAny(a, BLOCKS6)
  {
    if |a| == 4 {
      Public4(a);
    } else {
      MappedIs(a);
      if Contains(MAPPED, a) { Public4(a[12..]); } else { Public6(a); }
    }
  }

  /** Loopback is 127.0.0.0/8 and ::1/128. */
  lemma LoopbackExactly(a: Ip)
    ensures IsLoopback(a) <==> Contains(if |a| == 4 then BLOCKS4[3] else BLOCKS6[1], a)
  {
    if |a| == 4 { BlockHolds(3, a, BLOCKS4[3]); } else { Blocks6(a); }
  }

  // ---- Ports ----

  /** No ranges allow every port; otherwise each range adds the ports from its first to its last. */
  lemma PortsExactly(ports: seq<PortRange>, r: PortRange, port: Port)
    ensures PortAllowed([], port)
    ensures PortAllowed([r], port) <==> r.lo <= port && port <= r.hi
    ensures ports != [] ==> (PortAllowed(ports + [r], port) <==> PortAllowed(ports, port) || (r.lo <= port && port <= r.hi))
  {
    assert (ports + [r])[|ports|] == r;
    assert [r][0] == r;
    forall q | q in ports + [r]
      ensures q in ports || q == r
    {
    }
  }

  /** A destination, an IPv4-mapped one as the IPv4 address it stands for, is permitted exactly when loopback is
      allowed and it is in 127.0.0.0/8 or ::1/128, or some rule's prefix contains it and its ports, if any, the port. */
  lemma PermittedExactly(rules: seq<Rule>, loopback: bool, ip: Ip, port: Port)
    requires AllWellFormed(rules)
    ensures var d := if |ip| == 16 && Contains(MAPPED, ip) then ip[12..] else ip;
      Permitted(rules, loopback, ip, port) <==>
        || (loopback && Contains(if |d| == 4 then BLOCKS4[3] else BLOCKS6[1], d))
        || exists i | 0 <= i < |rules| ::
             Contains(rules[i].prefix, d) && (rules[i].ports == [] || exists r | r in rules[i].ports :: r.lo <= port <= r.hi)
  {
    var d := Unmap(ip);
    if |ip| == 16 { MappedIs(ip); }
    LoopbackExactly(d);
    forall i | 0 <= i < |rules|
      ensures RuleAllows(rules[i], d, port) <==>
        Contains(rules[i].prefix, d) && (rules[i].ports == [] || exists r | r in rules[i].ports :: r.lo <= port <= r.hi)
    {
    }
  }

  // ----- Host bits -----

  /** Setting one bit sets that bit and keeps the others; clearing the low ones clears those and keeps the others. */
  lemma {:induction false} OneBitSet(v: nat, j: nat, i: nat)
    ensures Bit(OrBit(v, j), i) <==> i == j || Bit(v, i)
    decreases j
  {
    var r := OrBit(v, j);
    if j == 0 {
      assert r % 2 == 1 && r / 2 == v / 2;
    } else {
      assert r % 2 == v % 2 && r / 2 == OrBit(v / 2, j - 1);
      if i > 0 { OneBitSet(v / 2, j - 1, i - 1); }
    }
  }

  lemma {:induction false} LowBitsCleared(v: nat, c: nat, i: nat)
    ensures Bit(Clear(v, c), i) <==> i >= c && Bit(v, i)
    decreases c
  {
    if c > 0 {
      var r := Clear(v, c);
      assert r % 2 == 0 && r / 2 == Clear(v / 2, c - 1);
      if i > 0 { LowBitsCleared(v / 2, c - 1, i - 1); }
    }
  }
}
