/**
 The network scope guard: prefix arithmetic, the public-address test, and what a validated
 allowlist lets through. An address is its bytes, most significant first: 4 of them or 16.
 */
module Scope {
  import opened Words

  type Ip = b: seq<byte> | |b| == 4 || |b| == 16 witness [0, 0, 0, 0]

  datatype Prefix = Prefix(addr: Ip, bits: nat)

  predicate Valid(p: Prefix) {
    p.bits <= 8 * |p.addr|
  }

  function Host(p: Prefix): nat
    requires Valid(p)
  {
    8 * |p.addr| - p.bits
  }

  // ---- Bits of one byte ----

  /** The number with its low c bits cleared. */
  function Clear(v: nat, c: nat): nat {
    if c == 0 then v else 2 * Clear(v / 2, c - 1)
  }

  /** v | 1 << j */
  function OrBit(v: nat, j: nat): nat {
    if j == 0 then v - v % 2 + 1 else 2 * OrBit(v / 2, j - 1) + v % 2
  }

  lemma {:induction false} ClearFits(v: nat, c: nat)
    ensures Clear(v, c) <= v < Clear(v, c) + Pow2(c)
    ensures Clear(Clear(v, c), c) == Clear(v, c)
  {
    if c != 0 { ClearFits(v / 2, c - 1); }
  }

  /** The block of 2^c numbers around v stays below any power of two that v is below. */
  lemma {:induction false} BlockFits(v: nat, c: nat, n: nat)
    requires v < Pow2(n) && c <= n
    ensures Clear(v, c) + Pow2(c) <= Pow2(n)
  {
    if c != 0 { BlockFits(v / 2, c - 1, n - 1); }
  }

  /** Clearing picks out the block of 2^c numbers that v is in. */
  lemma {:induction false} SameBlock(v: nat, w: nat, c: nat)
    requires Clear(w, c) <= v < Clear(w, c) + Pow2(c)
    ensures Clear(v, c) == Clear(w, c)
  {
    if c != 0 { SameBlock(v / 2, w / 2, c - 1); }
  }

  /** Setting the bits of a block one after the other, from the lowest up. */
  lemma {:induction false} OrNext(v: nat, c: nat, j: nat)
    requires j < c
    ensures OrBit(Clear(v, c) + Pow2(j) - 1, j) == Clear(v, c) + Pow2(j + 1) - 1
  {
    var block := Clear(v / 2, c - 1);
    assert Clear(v, c) == 2 * block;
    if j != 0 {
      OrNext(v / 2, c - 1, j - 1);
      OrOdd(block + Pow2(j - 1) - 1, j - 1);
    } else {
      OrEven(block);
    }
  }

  lemma OrEven(y: nat)
    ensures OrBit(2 * y, 0) == 2 * y + 1
  {
  }

  lemma OrOdd(y: nat, j: nat)
    ensures OrBit(2 * y + 1, j + 1) == 2 * OrBit(y, j) + 1
  {
    assert (2 * y + 1) / 2 == y && (2 * y + 1) % 2 == 1;
  }

  lemma EightBits()
    ensures Pow2(8) == 256
  {
    assert Pow2(4) == 16;
    assert Pow2(8) == 2 * 2 * 2 * 2 * Pow2(4);
  }

  // ---- Addresses ----

  function Min8(host: nat): nat {
    if host < 8 then host else 8
  }

  function Less8(host: nat): nat {
    if host < 8 then 0 else host - 8
  }

  function ClearByte(v: byte, c: nat): (r: byte)
  {
    ClearFits(v, c);
    Clear(v, c)
  }

  function FillByte(v: byte, c: nat): (r: byte)
    requires c <= 8
    ensures r == Clear(v, c) + Pow2(c) - 1
  {
    EightBits();
    BlockFits(v, c, 8);
    Clear(v, c) + Pow2(c) - 1
  }

  /** Masked: the low `host` bits cleared. */
  function Masked(b: seq<byte>, host: nat): (r: seq<byte>)
    ensures |r| == |b|
  {
    if b == [] then []
    else Masked(b[..|b| - 1], Less8(host)) + [ClearByte(b[|b| - 1], Min8(host))]
  }

  /** The low `host` bits set. */
  function Filled(b: seq<byte>, host: nat): (r: seq<byte>)
    ensures |r| == |b|
  {
    if b == [] then []
    else Filled(b[..|b| - 1], Less8(host)) + [FillByte(b[|b| - 1], Min8(host))]
  }

  function Base(p: Prefix): Ip
    requires Valid(p)
  {
    Masked(p.addr, Host(p))
  }

  function Last(p: Prefix): Ip
    requires Valid(p)
  {
    Filled(p.addr, Host(p))
  }

  /** Same family, and the same bits above the host part. */
  predicate Contains(p: Prefix, a: Ip)
    requires Valid(p)
  {
    |a| == |p.addr| && Masked(a, Host(p)) == Base(p)
  }

  /** The block above an address: 2^host addresses from the masked one up. */
  lemma {:induction false} BlockOf(b: seq<byte>, host: nat)
    requires host <= 8 * |b|
    ensures BeValue(Masked(b, host)) <= BeValue(b) < BeValue(Masked(b, host)) + Pow2(host)
    ensures BeValue(Filled(b, host)) == BeValue(Masked(b, host)) + Pow2(host) - 1
  {
    if b != [] {
      var n := |b| - 1;
      BlockOf(b[..n], Less8(host));
      ClearFits(b[n], Min8(host));
      assert Masked(b, host)[..n] == Masked(b[..n], Less8(host));
      assert Filled(b, host)[..n] == Filled(b[..n], Less8(host));
      BitOfHost(host);
      ClearAll(b[n]);
    }
  }

  lemma {:induction false} MaskedTwice(b: seq<byte>, host: nat)
    ensures Masked(Masked(b, host), host) == Masked(b, host)
  {
    if b != [] {
      var n := |b| - 1;
      MaskedTwice(b[..n], Less8(host));
      ClearFits(b[n], Min8(host));
      assert Masked(b, host)[..n] == Masked(b[..n], Less8(host));
    }
  }

  lemma BitOfHost(host: nat)
    ensures host >= 8 ==> Pow2(host) == 256 * Pow2(host - 8)
    ensures Pow2(8) == 256 && Pow2(0) == 1
  {
    EightBits();
    if host >= 8 { BitSum(host - 8, 8); }
  }

  lemma {:induction false} BitSum(a: nat, b: nat)
    ensures Pow2(a + b) == Pow2(b) * Pow2(a)
  {
    if b != 0 {
      BitSum(a, b - 1);
      assert Pow2(a + b) == 2 * (Pow2(b - 1) * Pow2(a));
      assert (2 * Pow2(b - 1)) * Pow2(a) == 2 * (Pow2(b - 1) * Pow2(a));
    }
  }

  lemma ClearAll(v: byte)
    ensures Clear(v, 8) == 0
  {
    EightBits();
    BlockFits(v, 8, 8);
  }

  lemma {:induction false} ValueInjective(a: seq<byte>, b: seq<byte>)
    requires |a| == |b| && BeValue(a) == BeValue(b)
    ensures a == b
  {
    if a != [] {
      var n := |a| - 1;
      ValueInjective(a[..n], b[..n]);
      assert a == a[..n] + [a[n]] && b == b[..n] + [b[n]];
    }
  }

  /** An address in the range of a block masks to its base. */
  lemma {:induction false} RangeMasks(a: seq<byte>, b: seq<byte>, host: nat)
    requires |a| == |b| && host <= 8 * |b|
    requires BeValue(Masked(b, host)) <= BeValue(a) < BeValue(Masked(b, host)) + Pow2(host)
    ensures Masked(a, host) == Masked(b, host)
  {
    if a != [] {
      var n := |a| - 1;
      var m := Masked(b, host);
      assert m[..n] == Masked(b[..n], Less8(host));
      BitOfHost(host);
      ClearAll(a[n]);
      ClearAll(b[n]);
      ClearFits(b[n], Min8(host));
      BlockFits(b[n], Min8(host), 8);
      RangeMasks(a[..n], b[..n], Less8(host));
      if host < 8 {
        NoHost(a[..n]);
        NoHost(b[..n]);
        SameBlock(a[n], b[n], host);
      }
    }
  }

  lemma {:induction false} NoHost(b: seq<byte>)
    ensures Masked(b, 0) == b && Filled(b, 0) == b
  {
    if b != [] { NoHost(b[..|b| - 1]); }
  }

  /** A prefix contains exactly the addresses from its base to its last, of which there are 2^host. */
  lemma PrefixIsRange(p: Prefix, a: Ip)
    requires Valid(p) && |a| == |p.addr|
    ensures Contains(p, a) <==> BeValue(Base(p)) <= BeValue(a) <= BeValue(Last(p))
    ensures BeValue(Last(p)) == BeValue(Base(p)) + Pow2(Host(p)) - 1
  {
    BlockOf(p.addr, Host(p));
    BlockOf(a, Host(p));
    if BeValue(Base(p)) <= BeValue(a) <= BeValue(Last(p)) {
      RangeMasks(a, p.addr, Host(p));
    }
  }

  // ---- Byte by byte ----

  /** How many of the low `host` bits fall in the byte d places from the end. */
  function Share(host: nat, d: nat): nat {
    if host < 8 * d then 0 else Min8(host - 8 * d)
  }

  lemma {:induction false} ByteAt(b: seq<byte>, host: nat, k: nat)
    requires k < |b|
    ensures Masked(b, host)[k] == Clear(b[k], Share(host, |b| - 1 - k))
    ensures Filled(b, host)[k] == Clear(b[k], Share(host, |b| - 1 - k)) + Pow2(Share(host, |b| - 1 - k)) - 1
  {
    var n := |b| - 1;
    if k < n {
      ByteAt(b[..n], Less8(host), k);
      assert Share(Less8(host), n - 1 - k) == Share(host, n - k);
    }
  }

  /** Byte k of a masked address once its lowest i host bits have been set. */
  function Stage(addr: Ip, host: nat, i: nat, k: nat): nat
    requires k < |addr|
  {
    var d := |addr| - 1 - k;
    ClearFits(addr[k], Share(host, d));
    Clear(addr[k], Share(host, d)) + Pow2(Share(i, d)) - 1
  }

  lemma StageOther(addr: Ip, host: nat, i: nat, k: nat)
    requires i < host && k < |addr| && k != |addr| - 1 - i / 8
    ensures Stage(addr, host, i + 1, k) == Stage(addr, host, i, k)
  {
    ShareStep(host, i);
  }

  lemma StageStep(addr: Ip, host: nat, i: nat)
    requires i < host <= 8 * |addr|
    ensures var at := |addr| - 1 - i / 8;
      OrBit(Stage(addr, host, i, at), i % 8) == Stage(addr, host, i + 1, at) < 256
  {
    var at := |addr| - 1 - i / 8;
    var c := Share(host, i / 8);
    ShareStep(host, i);
    OrNext(addr[at], c, i % 8);
    EightBits();
    BlockFits(addr[at], c, 8);
    BitGrows(i % 8 + 1, c);
  }

  method SetLowBits(b: array<byte>, ghost addr: Ip, host: nat)
    requires b.Length == |addr| && host <= 8 * |addr|
    requires forall k: nat | k < |addr| :: b[k] == Stage(addr, host, 0, k)
    modifies b
    ensures forall k: nat | k < |addr| :: b[k] == Stage(addr, host, host, k)
  {
    for i := 0 to host
      invariant forall k: nat | k < |addr| :: b[k] == Stage(addr, host, i, k)
    {
      StageStep(addr, host, i);
      var at := b.Length - 1 - i / 8;
      b[at] := OrBit(b[at], i % 8);
      forall k: nat | k < |addr| ensures b[k] == Stage(addr, host, i + 1, k) {
        if k != at { StageOther(addr, host, i, k); }
      }
    }
  }

  /** The highest address of a prefix, one host bit at a time. */
  method LastAddr(p: Prefix) returns (last: Ip)
    requires Valid(p)
    ensures last == Last(p)
  {
    var n, host := |p.addr|, Host(p);
    if p.bits == 8 * n {
      NoHost(p.addr);
      return p.addr;
    }
    var base := Base(p);
    var b := new byte[n](k requires 0 <= k < n => base[k]);
    forall k | 0 <= k < n ensures b[k] == Stage(p.addr, host, 0, k) {
      ByteAt(p.addr, host, k);
    }
    SetLowBits(b, p.addr, host);
    last := b[..];
    forall k | 0 <= k < n ensures last[k] == Last(p)[k] {
      ByteAt(p.addr, host, k);
    }
  }

  lemma ShareStep(host: nat, i: nat)
    requires i < host
    ensures Share(i, i / 8) == i % 8 && Share(i + 1, i / 8) == i % 8 + 1 && i % 8 < Share(host, i / 8) <= 8
    ensures forall d: nat | d != i / 8 :: Share(i, d) == Share(i + 1, d)
  {
  }

  lemma {:induction false} BitGrows(a: nat, b: nat)
    requires a <= b
    ensures Pow2(a) <= Pow2(b)
    decreases b
  {
    if a < b { BitGrows(a, b - 1); }
  }

  // ---- Public addresses ----

  function Unmap(a: Ip): Ip {
    if |a| == 16 && a[..10] == [0, 0, 0, 0, 0, 0, 0, 0, 0, 0] && a[10] == 255 && a[11] == 255 then a[12..] else a
  }

  predicate IsLoopback(a: Ip) {
    if |a| == 4 then a[0] == 127 else a == [0, 0, 0, 0, 0, 0, 0, 0, 0, 0, 0, 0, 0, 0, 0, 1]
  }

  predicate Public(b0: byte, b1: byte, b2: byte, b3: byte) {
    && b0 != 127                               // loopback
    && b0 != 10                                // private
    && !(b0 == 172 && 16 <= b1 < 32)
    && !(b0 == 192 && b1 == 168)
    && !(b0 == 169 && b1 == 254)               // link-local
    && !(224 <= b0 < 240)                      // multicast
    && !(b0 == 0 && b1 == 0 && b2 == 0 && b3 == 0)
    && !(b0 == 100 && 64 <= b1 < 128)          // carrier NAT
    && !(b0 == 192 && b1 == 0 && b2 == 0)      // protocol assignments
    && !(b0 == 192 && b1 == 0 && b2 == 2)      // documentation
    && !(b0 == 198 && (b1 == 18 || b1 == 19))  // benchmarking
    && !(b0 == 198 && b1 == 51 && b2 == 100)
    && !(b0 == 203 && b1 == 0 && b2 == 113)
    && b0 < 240                                // reserved
  }

  predicate IsPublic4(b: Ip)
    requires |b| == 4
  {
    Public(b[0], b[1], b[2], b[3])
  }

  predicate IsPublic6(b: Ip)
    requires |b| == 16
  {
    && !IsLoopback(b)
    && b != [0, 0, 0, 0, 0, 0, 0, 0, 0, 0, 0, 0, 0, 0, 0, 0]
    && !(b[0] == 0xFC || b[0] == 0xFD)               // unique local
    && !(b[0] == 0xFE && 0x80 <= b[1] < 0xC0)        // link-local
    && b[0] != 0xFF                                  // multicast
  }

  predicate IsPublic(a: Ip) {
    var u := Unmap(a);
    if |u| == 4 then IsPublic4(u) else IsPublic6(u)
  }

  /** What the two-endpoint test of a rule asks. */
  predicate EndsPrivate(p: Prefix)
    requires Valid(p)
  {
    !IsPublic(p.addr) && !IsPublic(Last(p))
  }

  /** The prefixes 0.0.0.0/0, 0.0.0.0/1 and 192.0.0.0/2: both ends lie in special blocks that are far
      apart. */
  predicate Straddles4(p: Prefix) {
    |p.addr| == 4 && ((p.bits <= 1 && p.addr[0] == 0) || (p.bits == 2 && p.addr[0] == 192))
  }

  predicate IsMasked(p: Prefix)
    requires Valid(p)
  {
    Base(p) == p.addr
  }

  /** The bytes of an address in a masked prefix lie between those of its ends, and where the prefix
      covers part of a byte that byte of the base is even. */
  lemma BetweenEnds(p: Prefix, x: Ip, k: nat)
    requires Valid(p) && IsMasked(p) && Contains(p, x) && k < |p.addr|
    ensures var c := Share(Host(p), |p.addr| - 1 - k);
      && p.addr[k] <= x[k] <= Last(p)[k] == p.addr[k] + Pow2(c) - 1 && c <= 8
      && (c > 0 ==> p.addr[k] % 2 == 0) && (c == 8 ==> p.addr[k] == 0 && Last(p)[k] == 255)
      && (c == 0 ==> Last(p)[k] == p.addr[k])
  {
    var c := Share(Host(p), |p.addr| - 1 - k);
    ByteAt(p.addr, Host(p), k);
    ByteAt(x, Host(p), k);
    ClearFits(x[k], c);
    EightBits();
    if c == 8 { ClearAll(p.addr[k]); }
  }

  /** A block within the third byte: special blocks there end at even or odd bytes that no block of
      two or more can have at both ends. */
  lemma WithinThird(b0: byte, b1: byte, b2: byte, l2: byte, x2: byte, x3: byte)
    requires b2 <= x2 <= l2 && b2 % 2 == 0 && l2 % 2 == 1
    requires !Public(b0, b1, b2, 0) && !Public(b0, b1, l2, 255)
    ensures !Public(b0, b1, x2, x3)
  {
  }

  lemma WithinSecond(b0: byte, b1: byte, l1: byte, x1: byte, x2: byte, x3: byte)
    requires b1 <= x1 <= l1 && b1 % 2 == 0 && l1 % 2 == 1
    requires !Public(b0, b1, 0, 0) && !Public(b0, l1, 255, 255)
    ensures !Public(b0, x1, x2, x3)
  {
  }

  lemma WithinFirst(b0: byte, size: nat, x0: byte, x1: byte, x2: byte, x3: byte)
    requires size in {2, 4, 8, 16, 32, 64, 128, 256} && b0 % 2 == 0 && b0 + size <= 256 && b0 <= x0 < b0 + size
    requires !(b0 == 0 && size >= 128) && !(b0 == 192 && size == 64)
    requires !Public(b0, 0, 0, 0) && !Public(b0 + size - 1, 255, 255, 255)
    ensures !Public(x0, x1, x2, x3)
  {
  }

  lemma Sizes(c: nat)
    requires 1 <= c <= 8
    ensures Pow2(c) in {2, 4, 8, 16, 32, 64, 128, 256} && (Pow2(c) >= 128 <==> c >= 7) && (Pow2(c) == 64 <==> c == 6)
    ensures Pow2(c) % 2 == 0
  {
    assert Pow2(3) == 8 && Pow2(6) == 8 * Pow2(3) && Pow2(8) == 4 * Pow2(6);
  }

  /** The bytes of a base, of a last address and of an address between them. */
  lemma BytesBetween(p: Prefix, x: Ip)
    requires Valid(p) && IsMasked(p) && |p.addr| == 4 && Contains(p, x)
    ensures var b, l, h := p.addr, Last(p), Host(p);
      && (h <= 24 ==> x[0] == l[0] == b[0])
      && (h <= 16 ==> x[1] == l[1] == b[1])
      && (h <= 8 ==> x[2] == l[2] == b[2] && b[3] <= x[3] <= l[3] && (h > 0 ==> l[3] > b[3]))
      && (8 < h <= 16 ==> b[2] <= x[2] <= l[2] && b[2] % 2 == 0 && l[2] % 2 == 1)
      && (8 < h ==> b[3] == 0 && l[3] == 255)
      && (16 < h <= 24 ==> b[1] <= x[1] <= l[1] && b[1] % 2 == 0 && l[1] % 2 == 1)
      && (16 < h ==> b[2] == 0 && l[2] == 255)
      && (24 < h ==> b[1] == 0 && l[1] == 255 && b[0] % 2 == 0)
      && (24 < h ==> b[0] <= x[0] <= l[0] == b[0] + Pow2(h - 24) - 1)
  {
    var h := Host(p);
    BetweenEnds(p, x, 0);
    BetweenEnds(p, x, 1);
    BetweenEnds(p, x, 2);
    BetweenEnds(p, x, 3);
    if 0 < h <= 8 { Sizes(h); }
    if 8 < h <= 16 { Sizes(h - 8); }
    if 16 < h <= 24 { Sizes(h - 16); }
  }

  lemma WithinFourth(b0: byte, b1: byte, b2: byte, b3: byte, l3: byte, x3: byte)
    requires b3 == x3 == l3 || b3 < l3
    requires !Public(b0, b1, b2, b3) && !Public(b0, b1, b2, l3)
    ensures !Public(b0, b1, b2, x3)
  {
  }

  /** The endpoint test is sound for every masked IPv4 prefix but the three that straddle. */
  lemma EndsDecide4(p: Prefix, x: Ip)
    requires Valid(p) && IsMasked(p) && |p.addr| == 4 && Contains(p, x)
    requires EndsPrivate(p) && !Straddles4(p)
    ensures !IsPublic(x)
  {
    var b, l, h := p.addr, Last(p), Host(p);
    BytesBetween(p, x);
    if h <= 8 {
      WithinFourth(b[0], b[1], b[2], b[3], l[3], x[3]);
    } else if h <= 16 {
      WithinThird(b[0], b[1], b[2], l[2], x[2], x[3]);
    } else if h <= 24 {
      WithinSecond(b[0], b[1], l[1], x[1], x[2], x[3]);
    } else {
      Sizes(h - 24);
      WithinFirst(b[0], Pow2(h - 24), x[0], x[1], x[2], x[3]);
    }
  }

  /** A prefix of at most eight bits is decided by the first byte. */
  lemma ShortPrefix(p: Prefix, x: Ip)
    requires Valid(p) && IsMasked(p) && |p.addr| == |x| == 4 && p.bits <= 8
    ensures p.addr[1..] == [0, 0, 0] && Last(p)[1..] == [255, 255, 255]
    ensures Last(p)[0] == p.addr[0] + Pow2(8 - p.bits) - 1
    ensures p.addr[0] <= x[0] < p.addr[0] + Pow2(8 - p.bits) ==> Contains(p, x)
  {
    BetweenEnds(p, p.addr, 0);
    BetweenEnds(p, p.addr, 1);
    BetweenEnds(p, p.addr, 2);
    BetweenEnds(p, p.addr, 3);
    ByteAt(p.addr, Host(p), 0);
    if p.addr[0] <= x[0] < p.addr[0] + Pow2(8 - p.bits) {
      SameBlock(x[0], p.addr[0], 8 - p.bits);
      forall k: nat | k < 4 ensures Masked(x, Host(p))[k] == p.addr[k] {
        ByteAt(x, Host(p), k);
        ClearAll(x[k]);
      }
    }
  }

  /** A straddling prefix passes the test and contains a public address. */
  lemma StraddlingFails4(p: Prefix) returns (x: Ip)
    requires Valid(p) && IsMasked(p) && Straddles4(p)
    ensures EndsPrivate(p) && Contains(p, x) && IsPublic(x)
  {
    x := if p.bits == 2 then [193, 0, 0, 1] else [8, 8, 8, 8];
    ShortPrefix(p, x);
    EightBits();
    assert Pow2(8 - p.bits) == if p.bits == 2 then 64 else if p.bits == 1 then 128 else 256;
    var b, l := p.addr, Last(p);
    assert b[1] == b[1..][0] && b[2] == b[1..][1] && b[3] == b[1..][2];
    assert l[1] == l[1..][0] && l[2] == l[1..][1] && l[3] == l[1..][2];
  }

  // ---- The endpoint test on IPv6 ----

  const ZERO: seq<byte> := [0, 0, 0, 0, 0, 0, 0, 0, 0, 0, 0, 0, 0, 0, 0, 0]

  predicate IsMapped(a: Ip)
    requires |a| == 16
  {
    a[..10] == [0, 0, 0, 0, 0, 0, 0, 0, 0, 0] && a[10] == 255 && a[11] == 255
  }

  /** The IPv4 prefix inside a mapped one. */
  function Inner(p: Prefix): Prefix
    requires Valid(p) && |p.addr| == 16 && p.bits >= 96
  {
    Prefix(p.addr[12..], p.bits - 96)
  }

  /** ::/0, ::/80, fc00::/6, and what straddles among the mapped IPv4 prefixes. */
  predicate Straddles6(p: Prefix)
    requires Valid(p) && |p.addr| == 16
  {
    || (p.addr == ZERO && (p.bits == 0 || p.bits == 80))
    || (p.addr[0] == 252 && p.bits == 6)
    || (p.bits >= 96 && IsMapped(p.addr) && Straddles4(Inner(p)))
  }

  lemma LowBytes(p: Prefix, x: Ip)
    requires Valid(p) && IsMasked(p) && Contains(p, x) && |p.addr| == 16
    requires p.addr[15] % 2 == 1
    ensures Host(p) == 0 && x == p.addr
  {
    BetweenEnds(p, x, 15);
    NoHost(x);
    NoHost(p.addr);
  }

  lemma SameBits(b: seq<byte>, host: nat, k: nat)
    requires k < |b| && host <= 8 * (|b| - 1 - k)
    ensures Masked(b, host)[k] == Filled(b, host)[k] == b[k]
  {
    assert Share(host, |b| - 1 - k) == 0;
    ByteAt(b, host, k);
    assert Pow2(0) == 1 && Clear(b[k], 0) == b[k];
  }

  /** Bytes above the host part are neither masked nor filled. */
  lemma HeadKept(b: seq<byte>, host: nat, n: nat)
    requires n <= |b| && host <= 8 * (|b| - n)
    ensures Masked(b, host)[..n] == Filled(b, host)[..n] == b[..n]
  {
    var m, f := Masked(b, host), Filled(b, host);
    forall k: nat | k < n
      ensures m[k] == f[k] == b[k]
    {
      SameBits(b, host, k);
    }
  }

  /** Masking and filling go by distance from the end. */
  lemma TailAlone(b: seq<byte>, host: nat, n: nat)
    requires n <= |b|
    ensures Masked(b, host)[n..] == Masked(b[n..], host) && Filled(b, host)[n..] == Filled(b[n..], host)
  {
    var m, f, t := Masked(b, host), Filled(b, host), b[n..];
    forall k: nat | k < |t|
      ensures m[n..][k] == Masked(t, host)[k] && f[n..][k] == Filled(t, host)[k]
    {
      ByteAt(b, host, n + k);
      ByteAt(t, host, k);
    }
  }

  lemma MappedHead(a: Ip, x: Ip)
    requires |a| == |x| == 16 && IsMapped(a)
    ensures IsMapped(x) <==> x[..12] == a[..12]
  {
    assert x[..12][..10] == x[..10] && a[..12][..10] == a[..10];
    assert x[..12][10] == x[10] && x[..12][11] == x[11] && a[..12][10] == a[10] && a[..12][11] == a[11];
    assert x[..12] == x[..10] + [x[10], x[11]] && a[..12] == a[..10] + [a[10], a[11]];
  }

  lemma TwoParts(a: seq<byte>, b: seq<byte>, n: nat)
    requires n <= |a| == |b|
    ensures a == b <==> a[..n] == b[..n] && a[n..] == b[n..]
  {
    assert a == a[..n] + a[n..] && b == b[..n] + b[n..];
  }

  /** The last four bytes of a prefix within the mapped block behave as an IPv4 prefix. */
  lemma MappedBlock(p: Prefix, x: Ip)
    requires Valid(p) && IsMasked(p) && |p.addr| == |x| == 16 && IsMapped(p.addr)
    ensures p.bits >= 96 && IsMasked(Inner(p)) && IsMapped(Last(p)) && Last(p)[12..] == Last(Inner(p))
    ensures Contains(p, x) <==> IsMapped(x) && Contains(Inner(p), x[12..])
  {
    var h := Host(p);
    BetweenEnds(p, p.addr, 11);
    assert h <= 32;
    HeadKept(p.addr, h, 12);
    HeadKept(x, h, 12);
    TailAlone(p.addr, h, 12);
    TailAlone(x, h, 12);
    MappedHead(p.addr, x);
    MappedHead(p.addr, Last(p));
    TwoParts(Masked(x, h), Base(p), 12);
  }

  /** The last address of a block of four or more at the unspecified address, but for two sizes. */
  lemma LastFromZero(p: Prefix)
    requires Valid(p) && IsMasked(p) && p.addr == ZERO
    requires Host(p) >= 2 && Host(p) != 48 && Host(p) != 128
    ensures IsPublic(Last(p))
  {
    var h, l := Host(p), Last(p);
    var c0, c9, c10, c15 := Share(h, 15), Share(h, 6), Share(h, 5), Share(h, 0);
    ByteFromZero(p, 0);
    ByteFromZero(p, 9);
    ByteFromZero(p, 10);
    ByteFromZero(p, 15);
    LargeBits(c15);
    assert c0 <= 7 && (c0 >= 1 || c9 >= 1 || c10 <= 7);
    LargeBits(c0);
    LargeBits(c9);
    LargeBits(c10);
    assert Pow2(0) == 1;
    PublicAbove(l);
  }

  lemma ByteFromZero(p: Prefix, k: nat)
    requires Valid(p) && p.addr == ZERO && k < 16
    ensures Last(p)[k] == Pow2(Share(Host(p), 15 - k)) - 1
  {
    assert p.addr[k] == 0;
    ByteAt(p.addr, Host(p), k);
    ClearZero(Share(Host(p), 15 - k));
  }

  lemma {:induction false} ClearZero(c: nat)
    ensures Clear(0, c) == 0
  {
    if c > 0 {
      ClearZero(c - 1);
    }
  }

  /** From the unspecified address up only a block of one or two stays special. */
  lemma FromZero(p: Prefix, x: Ip)
    requires Valid(p) && IsMasked(p) && Contains(p, x) && p.addr == ZERO
    requires !IsPublic(Last(p)) && !Straddles6(p)
    ensures !IsPublic(x)
  {
    if Host(p) >= 2 {
      LastFromZero(p);
    } else {
      BlockOfTwo(p, x);
      Lowest(x);
    }
  }

  lemma BlockOfTwo(p: Prefix, x: Ip)
    requires Valid(p) && IsMasked(p) && Contains(p, x) && p.addr == ZERO && Host(p) < 2
    ensures x[15] <= 1 && forall k: nat | k < 15 :: x[k] == 0
  {
    forall k: nat | k < 15
      ensures x[k] == 0
    {
      SameBits(x, Host(p), k);
      assert Base(p)[k] == p.addr[k] == 0;
    }
    BetweenEnds(p, x, 15);
    assert Pow2(0) == 1 && Pow2(1) == 2;
  }

  lemma Lowest(x: Ip)
    requires |x| == 16 && x[15] <= 1 && forall k: nat | k < 15 :: x[k] == 0
    ensures !IsPublic(x)
  {
    assert x[10] == 0;
    assert Unmap(x) == x;
    assert x[15] == 0 ==> x == ZERO;
    assert x[15] == 1 ==> IsLoopback(x);
  }

  /** An address that is past ::1, not mapped, and below the special blocks at the top. */
  lemma PublicAbove(a: Ip)
    requires |a| == 16 && a[0] < 252 && a[15] >= 3 && (a[0] > 0 || a[9] > 0 || a[10] < 255)
    ensures IsPublic(a)
  {
    assert a[..10] == [0, 0, 0, 0, 0, 0, 0, 0, 0, 0] ==> a[..10][0] == 0 && a[..10][9] == 0;
    assert Unmap(a) == a;
  }

  /** The special blocks at the top: a prefix with special ends stays in one of them. */
  lemma FromTop(p: Prefix, x: Ip)
    requires Valid(p) && IsMasked(p) && Contains(p, x) && |p.addr| == 16 && p.addr[0] >= 252
    requires EndsPrivate(p) && !Straddles6(p)
    ensures !IsPublic(x)
  {
    var h, b, l := Host(p), p.addr, Last(p);
    BetweenEnds(p, x, 0);
    BetweenEnds(p, x, 1);
    NotMapped(b);
    NotMapped(l);
    NotMapped(x);
    if h > 120 {
      LargeBits(h - 120);
    }
  }

  lemma LargeBits(c: nat)
    ensures c >= 1 ==> Pow2(c) >= 2
    ensures c >= 2 ==> Pow2(c) >= 4
    ensures c >= 3 ==> Pow2(c) >= 8
    ensures c <= 7 ==> Pow2(c) <= 128
  {
    assert Pow2(1) == 2 && Pow2(2) == 4 && Pow2(3) == 8 && Pow2(7) == 16 * Pow2(3);
    if c <= 7 {
      BitGrows(c, 7);
    }
    if c >= 3 {
      BitGrows(3, c);
    }
  }

  lemma NotMapped(a: Ip)
    requires |a| == 16 && a[0] > 0
    ensures Unmap(a) == a
  {
    assert a[..10][0] == a[0];
  }

  lemma EndsDecide6(p: Prefix, x: Ip)
    requires Valid(p) && IsMasked(p) && |p.addr| == 16 && Contains(p, x)
    requires EndsPrivate(p) && !Straddles6(p)
    ensures !IsPublic(x)
  {
    if IsMapped(p.addr) {
      MappedBlock(p, x);
      EndsDecide4(Inner(p), x[12..]);
    } else if p.addr == ZERO {
      FromZero(p, x);
    } else if IsLoopback(p.addr) {
      LowBytes(p, x);
    } else {
      FromTop(p, x);
    }
  }

  /** Where a prefix covers a whole byte, the base has 0 there and the last address 255. */
  lemma CoveredByte(p: Prefix, x: Ip, k: nat)
    requires Valid(p) && IsMasked(p) && |p.addr| == |x| && k < |x| && Share(Host(p), |x| - 1 - k) == 8
    ensures p.addr[k] == Masked(x, Host(p))[k] == 0 && Last(p)[k] == 255
  {
    BetweenEnds(p, p.addr, k);
    ByteAt(x, Host(p), k);
    ClearAll(x[k]);
  }

  /** The prefixes that begin in the first byte or just before the mapped block, and one address of each. */
  lemma WideBlock(p: Prefix, x: Ip)
    requires Valid(p) && IsMasked(p) && |p.addr| == 16
    requires (p.addr == ZERO && p.bits == 0 && x == ZERO[0 := 32])
          || (p.addr == ZERO && p.bits == 80 && x == ZERO[15 := 2])
          || (p.addr[0] == 252 && p.bits == 6 && x == ZERO[0 := 254])
    ensures EndsPrivate(p) && Contains(p, x) && IsPublic(x)
  {
    if p.bits == 80 {
      BeforeMapped(p, x);
    } else {
      WideAtFirst(p, x);
    }
  }

  /** ::/80 ends with the last mapped address. */
  lemma BeforeMapped(p: Prefix, x: Ip)
    requires Valid(p) && IsMasked(p) && p.addr == ZERO && p.bits == 80 && x == ZERO[15 := 2]
    ensures EndsPrivate(p) && Contains(p, x) && IsPublic(x)
  {
    var h, l := Host(p), Last(p);
    forall k: nat | 10 <= k < 16
      ensures Masked(x, h)[k] == 0 && l[k] == 255
    {
      CoveredByte(p, x, k);
    }
    HeadKept(p.addr, h, 10);
    HeadKept(x, h, 10);
    assert l[..10] == [0, 0, 0, 0, 0, 0, 0, 0, 0, 0];
    assert l[12..] == [255, 255, 255, 255];
    assert Unmap(x) == x by {
      assert x[10] == 0;
    }
    assert Masked(x, h) == Masked(x, h)[..10] + Masked(x, h)[10..];
    assert Masked(x, h) == ZERO;
  }

  lemma WideAtFirst(p: Prefix, x: Ip)
    requires Valid(p) && IsMasked(p) && |p.addr| == |x| == 16 && x[0] > 0 && IsPublic6(x)
    requires (p.bits == 0 && p.addr == ZERO) || (p.bits == 6 && p.addr[0] == 252 && x[0] == 254)
    ensures EndsPrivate(p) && Contains(p, x) && IsPublic(x)
  {
    var h, l := Host(p), Last(p);
    forall k: nat | 1 <= k < 16
      ensures p.addr[k] == Masked(x, h)[k] == 0 && l[k] == 255
    {
      CoveredByte(p, x, k);
    }
    if p.bits == 0 {
      CoveredByte(p, x, 0);
    } else {
      FirstByteOfSix(p, x);
      NotMapped(p.addr);
    }
    NotMapped(x);
    NotMapped(l);
    assert Masked(x, h) == Base(p);
  }

  lemma FirstByteOfSix(p: Prefix, x: Ip)
    requires Valid(p) && IsMasked(p) && |p.addr| == |x| == 16 && p.bits == 6 && p.addr[0] == 252 && x[0] == 254
    ensures Masked(x, Host(p))[0] == 252 && Last(p)[0] == 255
  {
    BetweenEnds(p, p.addr, 0);
    ByteAt(x, Host(p), 0);
    assert Pow2(2) == 4 && Clear(254, 2) == 2 * (2 * (254 / 2 / 2));
  }

  lemma MappedStraddlingFails(p: Prefix) returns (x: Ip)
    requires Valid(p) && IsMasked(p) && |p.addr| == 16 && p.bits >= 96 && IsMapped(p.addr) && Straddles4(Inner(p))
    ensures EndsPrivate(p) && Contains(p, x) && IsPublic(x)
  {
    MappedBlock(p, p.addr);
    var y := StraddlingFails4(Inner(p));
    x := p.addr[..12] + y;
    MappedBlock(p, x);
    assert x[12..] == y && x[..10] == p.addr[..10];
  }

  /** A straddling prefix passes the test and contains a public address. */
  lemma StraddlingFails6(p: Prefix) returns (x: Ip)
    requires Valid(p) && IsMasked(p) && |p.addr| == 16 && Straddles6(p)
    ensures EndsPrivate(p) && Contains(p, x) && IsPublic(x)
    ensures !IsMapped(p.addr) ==> Unmap(x) == x
  {
    if p.bits >= 96 && IsMapped(p.addr) {
      x := MappedStraddlingFails(p);
    } else {
      x := if p.bits == 0 then ZERO[0 := 32] else if p.bits == 6 then ZERO[0 := 254] else ZERO[15 := 2];
      WideBlock(p, x);
      assert x[10] != 255;
    }
  }

  /** Prefixes with both ends in special blocks and public addresses between them. */
  predicate Straddles(p: Prefix)
    requires Valid(p)
  {
    if |p.addr| == 4 then Straddles4(p) else Straddles6(p)
  }

  /** A prefix of mapped addresses: `Check` unmaps its destination first, and meets none of them. */
  predicate InMapped(p: Prefix) {
    |p.addr| == 16 && IsMapped(p.addr)
  }

  lemma EndsDecide(p: Prefix, x: Ip)
    requires Valid(p) && IsMasked(p) && Contains(p, x) && EndsPrivate(p) && !Straddles(p)
    ensures !IsPublic(x)
  {
    if |p.addr| == 4 { EndsDecide4(p, x); } else { EndsDecide6(p, x); }
  }

  lemma StraddlingFails(p: Prefix) returns (x: Ip)
    requires Valid(p) && IsMasked(p) && Straddles(p)
    ensures EndsPrivate(p) && Contains(p, x) && IsPublic(x)
    ensures !InMapped(p) ==> Unmap(x) == x
  {
    if |p.addr| == 4 { x := StraddlingFails4(p); } else { x := StraddlingFails6(p); }
  }

  /** Exactly when the two-endpoint test decides for the whole prefix, IPv4 or IPv6. */
  lemma EndpointTestExact(p: Prefix)
    requires Valid(p) && IsMasked(p)
    ensures (EndsPrivate(p) ==> forall x: Ip | Contains(p, x) :: !IsPublic(x)) <==> !Straddles(p)
  {
    if Straddles(p) {
      var x := StraddlingFails(p);
    } else if EndsPrivate(p) {
      forall x: Ip | Contains(p, x) ensures !IsPublic(x) {
        EndsDecide(p, x);
      }
    }
  }

  // ---- The allowlist ----

  type Port = p: int | 0 <= p < 0x1_0000

  datatype PortRange = PortRange(lo: Port, hi: Port)

  /** No ports means every port. */
  datatype Rule = Rule(prefix: Prefix, ports: seq<PortRange>)

  /** Allow leaves only rules whose prefix is masked. */
  predicate WellFormed(r: Rule) {
    Valid(r.prefix) && IsMasked(r.prefix)
  }

  predicate AllWellFormed(rules: seq<Rule>) {
    forall i | 0 <= i < |rules| :: WellFormed(rules[i])
  }

  lemma AddRule(rules: seq<Rule>, r: Rule)
    requires AllWellFormed(rules) && WellFormed(r)
    ensures AllWellFormed(rules + [r])
  {
  }

  lemma BaseIsMasked(p: Prefix)
    requires Valid(p)
    ensures Valid(Prefix(Base(p), p.bits)) && IsMasked(Prefix(Base(p), p.bits))
  {
    MaskedTwice(p.addr, Host(p));
  }

  lemma AddrIsMasked(a: Ip)
    ensures Valid(Prefix(a, 8 * |a|)) && IsMasked(Prefix(a, 8 * |a|))
  {
    NoHost(a);
  }

  predicate PortAllowed(ports: seq<PortRange>, port: Port) {
    ports == [] || exists r | r in ports :: r.lo <= port <= r.hi
  }

  predicate RuleAllows(r: Rule, ip: Ip, port: Port)
    requires Valid(r.prefix)
  {
    Contains(r.prefix, ip) && PortAllowed(r.ports, port)
  }

  /** What a scope permits, after unmapping the destination. */
  predicate Permitted(rules: seq<Rule>, loopback: bool, ip: Ip, port: Port)
    requires AllWellFormed(rules)
  {
    || (loopback && IsLoopback(Unmap(ip)))
    || exists i | 0 <= i < |rules| :: RuleAllows(rules[i], Unmap(ip), port)
  }

  predicate RulesPrivate(rules: seq<Rule>)
    requires AllWellFormed(rules)
  {
    forall i | 0 <= i < |rules| :: EndsPrivate(rules[i].prefix)
  }

  predicate SomePort(ports: seq<PortRange>) {
    ports == [] || exists r | r in ports :: r.lo <= r.hi
  }

  /** A rule that gets past validation and reaches the public address space all the same. */
  predicate Leaks(r: Rule)
    requires Valid(r.prefix)
  {
    Straddles(r.prefix) && !InMapped(r.prefix) && SomePort(r.ports)
  }

  predicate NoneLeaks(rules: seq<Rule>)
    requires AllWellFormed(rules)
  {
    forall i | 0 <= i < |rules| :: !Leaks(rules[i])
  }

  lemma UnmapTwice(ip: Ip)
    ensures var u := Unmap(ip); Unmap(u) == u && (|u| == 16 ==> !IsMapped(u))
  {
  }

  /** A scope that passed validation without the public acknowledgement, and has no leaking rule,
      permits no public destination on any port. */
  lemma ValidatedScopeStaysPrivate(rules: seq<Rule>, loopback: bool, ip: Ip, port: Port)
    requires AllWellFormed(rules) && RulesPrivate(rules) && NoneLeaks(rules)
    requires Permitted(rules, loopback, ip, port)
    ensures !IsPublic(ip)
  {
    var u := Unmap(ip);
    UnmapTwice(ip);
    if !(loopback && IsLoopback(u)) {
      var i :| 0 <= i < |rules| && RuleAllows(rules[i], u, port);
      assert WellFormed(rules[i]);
      assert SomePort(rules[i].ports);
      if InMapped(rules[i].prefix) {
        MappedBlock(rules[i].prefix, u);
      } else {
        EndsDecide(rules[i].prefix, u);
      }
    }
  }

  /** A leaking rule permits some public destination. */
  lemma LeakingRuleLeaks(rules: seq<Rule>, loopback: bool, i: nat) returns (ip: Ip, port: Port)
    requires AllWellFormed(rules) && i < |rules| && WellFormed(rules[i]) && Leaks(rules[i])
    ensures IsPublic(ip) && Permitted(rules, loopback, ip, port)
  {
    ip := StraddlingFails(rules[i].prefix);
    port := 0;
    if rules[i].ports != [] {
      var r :| r in rules[i].ports && r.lo <= r.hi;
      port := r.lo;
    }
    assert RuleAllows(rules[i], Unmap(ip), port);
  }

  /** So a validated scope permits some public destination exactly when it has a leaking rule. */
  lemma PublicPermittedExactly(rules: seq<Rule>, loopback: bool)
    requires AllWellFormed(rules) && RulesPrivate(rules)
    ensures (exists ip: Ip, port: Port :: IsPublic(ip) && Permitted(rules, loopback, ip, port)) <==> !NoneLeaks(rules)
  {
    if NoneLeaks(rules) {
      forall ip: Ip, port: Port | Permitted(rules, loopback, ip, port)
        ensures !IsPublic(ip)
      {
        ValidatedScopeStaysPrivate(rules, loopback, ip, port);
      }
    } else {
      var i :| 0 <= i < |rules| && Leaks(rules[i]);
      assert WellFormed(rules[i]);
      var ip, port := LeakingRuleLeaks(rules, loopback, i);
    }
  }

  /** The two-endpoint test: the base may be private in a prefix wide enough to leave its block. */
  method EndsArePrivate(p: Prefix) returns (r: bool)
    requires Valid(p)
    ensures r == EndsPrivate(p)
  {
    if IsPublic(p.addr) { return false; }
    var last := LastAddr(p);
    return !IsPublic(last);
  }

  datatype Refusal = NoScope | PublicScope(rule: nat)

  class Guard {
    var rules: seq<Rule>
    var allowLoopback: bool
    var acknowledgePublic: bool
    var allows: nat
    var denies: nat

    constructor ()
      ensures rules == [] && allowLoopback && !acknowledgePublic && allows == denies == 0
    {
      rules, allowLoopback, acknowledgePublic, allows, denies := [], true, false, 0, 0;
    }

    /** A CIDR rule is masked as it is added. */
    method AllowPrefix(p: Prefix, ports: seq<PortRange>)
      requires Valid(p)
      modifies this`rules
      ensures rules == old(rules) + [Rule(Prefix(Base(p), p.bits), ports)]
      ensures AllWellFormed(old(rules)) ==> AllWellFormed(rules)
    {
      var r := Rule(Prefix(Base(p), p.bits), ports);
      BaseIsMasked(p);
      if AllWellFormed(rules) { AddRule(rules, r); }
      rules := rules + [r];
    }

    method AllowAddr(a: Ip, ports: seq<PortRange>)
      modifies this`rules
      ensures rules == old(rules) + [Rule(Prefix(a, 8 * |a|), ports)]
      ensures AllWellFormed(old(rules)) ==> AllWellFormed(rules)
    {
      var r := Rule(Prefix(a, 8 * |a|), ports);
      AddrIsMasked(a);
      if AllWellFormed(rules) { AddRule(rules, r); }
      rules := rules + [r];
    }

    /** A name pins every address it resolved to, unmapped. It fails only while the scope stays empty. */
    method AllowResolved(addrs: seq<Ip>, ports: seq<PortRange>) returns (ok: bool)
      modifies this`rules
      ensures rules == old(rules) + seq(|addrs|, i requires 0 <= i < |addrs| => Rule(Prefix(Unmap(addrs[i]), 8 * |Unmap(addrs[i])|), ports))
      ensures AllWellFormed(old(rules)) ==> AllWellFormed(rules)
      ensures ok <==> rules != []
    {
      for i := 0 to |addrs|
        invariant |rules| == |old(rules)| + i && rules[..|old(rules)|] == old(rules)
        invariant forall j | 0 <= j < i :: rules[|old(rules)| + j] == Rule(Prefix(Unmap(addrs[j]), 8 * |Unmap(addrs[j])|), ports)
        invariant AllWellFormed(old(rules)) ==> AllWellFormed(rules)
      {
        AllowAddr(Unmap(addrs[i]), ports);
      }
      ok := rules != [];
    }

    method Validate(remote: bool) returns (r: Option<Refusal>)
      requires AllWellFormed(rules)
      ensures r == Some(NoScope) <==> remote && rules == []
      ensures r.None? <==> !(remote && rules == []) && (acknowledgePublic || RulesPrivate(rules))
      ensures r.Some? && r.value.PublicScope? ==>
        && r.value.rule < |rules| && !EndsPrivate(rules[r.value.rule].prefix)
        && forall j | 0 <= j < r.value.rule :: EndsPrivate(rules[j].prefix)
    {
      if remote && rules == [] { return Some(NoScope); }
      if acknowledgePublic { return None; }
      for i := 0 to |rules|
        invariant forall j | 0 <= j < i :: EndsPrivate(rules[j].prefix)
      {
        assert WellFormed(rules[i]);
        var private_ := EndsArePrivate(rules[i].prefix);
        if !private_ {
          return Some(PublicScope(i));
        }
      }
      return None;
    }

    /** Whether a destination is in scope; every decision is counted once. */
    method Check(ip: Ip, port: Port) returns (ok: bool)
      requires AllWellFormed(rules)
      modifies this`allows, this`denies
      ensures ok == Permitted(rules, allowLoopback, ip, port)
      ensures allows == old(allows) + (if ok then 1 else 0) && denies == old(denies) + (if ok then 0 else 1)
    {
      var u := Unmap(ip);
      if allowLoopback && IsLoopback(u) {
        allows := allows + 1;
        return true;
      }
      for i := 0 to |rules|
        invariant forall j | 0 <= j < i :: !RuleAllows(rules[j], u, port)
        invariant allows == old(allows) && denies == old(denies)
      {
        assert WellFormed(rules[i]);
        if RuleAllows(rules[i], u, port) {
          allows := allows + 1;
          return true;
        }
      }
      denies := denies + 1;
      return false;
    }

    /** A name is in scope when it resolves to something and every address it resolves to is; checking
        stops at the first that is not. */
    method CheckAll(resolved: seq<Ip>, port: Port) returns (ok: bool)
      requires AllWellFormed(rules)
      modifies this`allows, this`denies
      ensures ok <==> resolved != [] && forall i | 0 <= i < |resolved| :: Permitted(rules, allowLoopback, resolved[i], port)
      ensures ok ==> allows == old(allows) + |resolved| && denies == old(denies)
      ensures !ok && resolved != [] ==>
        var n := allows - old(allows);
        && denies == old(denies) + 1
        && 0 <= n < |resolved| && !Permitted(rules, allowLoopback, resolved[n], port)
        && forall i | 0 <= i < n :: Permitted(rules, allowLoopback, resolved[i], port)
    {
      if resolved == [] { return false; }
      for i := 0 to |resolved|
        invariant forall j | 0 <= j < i :: Permitted(rules, allowLoopback, resolved[j], port)
        invariant allows == old(allows) + i && denies == old(denies)
      {
        var one := Check(resolved[i], port);
        if !one { return false; }
      }
      return true;
    }
  }
}
