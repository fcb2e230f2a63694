/**
 What a frame is, byte by byte and bit by bit (RFC 6455, sections 5.2 and 5.3).
 */
module WireFormat {
  import opened WebSocket
  import opened Words

  // ---- Bits ----

  lemma {:induction false} XorBitsBit(a: nat, b: nat, n: nat, i: nat)
    requires i < n
    ensures Bit(XorBits(a, b, n), i) <==> Bit(a, i) != Bit(b, i)
    decreases i
  {
    var r := XorBits(a, b, n);
    assert r / 2 == XorBits(a / 2, b / 2, n - 1) && (r % 2 == 1 <==> a % 2 != b % 2);
    if i > 0 { XorBitsBit(a / 2, b / 2, n - 1, i - 1); }
  }

  /** Bytes with the same eight bits are the same. */
  lemma {:induction false} SameBits(a: nat, b: nat, n: nat)
    requires a < Pow2(n) && b < Pow2(n) && forall i: nat | i < n :: Bit(a, i) == Bit(b, i)
    ensures a == b
    decreases n
  {
    if n > 0 {
      assert Bit(a, 0) == Bit(b, 0);
      forall i: nat | i < n - 1
        ensures Bit(a / 2, i) == Bit(b / 2, i)
      {
        assert Bit(a, i + 1) == Bit(b, i + 1);
      }
      SameBits(a / 2, b / 2, n - 1);
    }
  }

  /** Exclusive or: a bit is set exactly where one operand has it and the other does not. */
  predicate IsXor(r: nat, a: nat, b: nat) {
    forall i: nat | i < 8 :: Bit(r, i) == (Bit(a, i) != Bit(b, i))
  }

  lemma XorIs(a: byte, b: byte, r: byte)
    ensures r == Xor(a, b) <==> IsXor(r, a, b)
  {
    var x := Xor(a, b);
    forall i: nat | i < 8
      ensures Bit(x, i) == (Bit(a, i) != Bit(b, i))
    {
      XorBitsBit(a, b, 8, i);
    }
    assert Pow2(8) == 256;
    if IsXor(r, a, b) {
      forall i: nat | i < 8
        ensures Bit(r, i) == Bit(x, i)
      {
      }
      SameBits(r, x, 8);
    }
  }

  /** One payload byte under the mask byte that goes with its place. */
  predicate MaskedByte(sent: byte, plain: byte, m: Mask, i: nat) {
    IsXor(sent, plain, if i % 4 == 0 then m[0] else if i % 4 == 1 then m[1] else if i % 4 == 2 then m[2] else m[3])
  }

  /** A payload at the end of some bytes, each byte under its mask byte. */
  predicate UnderMask(s: Bytes, at: nat, p: Bytes, m: Mask) {
    |s| == at + |p| && forall i | 0 <= i < |p| :: MaskedByte(s[at + i], p[i], m, i)
  }

  lemma MaskedBytes(p: Bytes, m: Mask, r: Bytes)
    ensures r == Masked(p, m) <==> |r| == |p| && forall i | 0 <= i < |p| :: MaskedByte(r[i], p[i], m, i)
  {
    if |r| == |p| {
      forall i | 0 <= i < |p|
        ensures r[i] == Masked(p, m)[i] <==> MaskedByte(r[i], p[i], m, i)
      {
        XorIs(p[i], m[i % 4], r[i]);
      }
      if forall i | 0 <= i < |p| :: MaskedByte(r[i], p[i], m, i) {
        assert forall i | 0 <= i < |p| :: r[i] == Masked(p, m)[i];
      }
    }
  }

  /** The top bit set and the others kept. */
  lemma HighIs(b: byte)
    ensures Bit(High(b), 7) && forall i: nat | i < 7 :: Bit(High(b), i) == Bit(b, i)
  {
    assert Pow2(7) == 128;
    HighBits(b, 7);
  }

  lemma {:induction false} HighBits(b: nat, n: nat)
    requires b < 2 * Pow2(n)
    ensures var h := if b < Pow2(n) then b + Pow2(n) else b;
      Bit(h, n) && forall i: nat | i < n :: Bit(h, i) == Bit(b, i)
    decreases n
  {
    if n > 0 {
      HighBits(b / 2, n - 1);
      var h := if b < Pow2(n) then b + Pow2(n) else b;
      assert h / 2 == if b / 2 < Pow2(n - 1) then b / 2 + Pow2(n - 1) else b / 2;
      forall i: nat | i < n
        ensures Bit(h, i) == Bit(b, i)
      {
        if i > 0 { assert Bit(h / 2, i - 1) == Bit(b / 2, i - 1); }
      }
    }
  }

  // ---- The length ----

  /** Bytes as a number, the most significant first: each worth its value times 256 to the bytes behind it. */
  function Worth(s: Bytes): nat {
    if s == [] then 0 else Pow256(|s| - 1) * s[0] + Worth(s[1..])
  }

  lemma {:induction false} WorthOfLast(s: Bytes)
    requires s != []
    ensures Worth(s) == 256 * Worth(s[..|s| - 1]) + s[|s| - 1]
    decreases |s|
  {
    var front := s[..|s| - 1];
    if |s| == 1 {
      assert Worth(s[1..]) == 0;
    } else {
      WorthOfLast(s[1..]);
      assert s[1..][..|s| - 2] == front[1..];
      Shifted(Pow256(|s| - 2), s[0]);
    }
  }

  lemma Shifted(p: nat, d: nat)
    ensures 256 * p * d == 256 * (p * d)
  {
  }

  lemma {:induction false} BeValueIsWorth(s: Bytes)
    ensures BeValue(s) == Worth(s)
    decreases |s|
  {
    if s != [] {
      BeValueIsWorth(s[..|s| - 1]);
      WorthOfLast(s);
    }
  }

  /** Where a header ends that announces a mask or none and n bytes of payload. */
  predicate Announces(s: Bytes, masked: bool, form: Form, n: nat, at: nat) {
    && 2 <= at <= |s|
    && var code: int := (s[1] as int) - (if masked then 128 else 0);
       match form
       case Short => at == 2 && code == n < 126
       case Two => at == 4 && code == 126 && n == Worth(s[2..4])
       case Eight => at == 10 && code == 127 && n == Worth(s[2..10])
  }

  lemma HeaderAnnounces(b0: byte, masked: bool, form: Form, n: nat, tail: Bytes)
    requires n < WORD && (form == Short ==> n < 126) && (form == Two ==> n < 0x1_0000)
    ensures var head := Header(b0, masked, form, n);
      head[0] == b0 && Announces(head + tail, masked, form, n, |head|)
  {
    var head := Header(b0, masked, form, n);
    if form != Short {
      LengthValue(form, n);
      BeValueIsWorth(LengthBytes(form, n));
      assert (head + tail)[2..|head|] == LengthBytes(form, n);
    }
  }

  // ---- The frame ----

  /** A frame on the wire: flags and opcode, length, mask, payload under the mask, and nothing more. */
  predicate Carries(s: Bytes, fin: bool, op: byte, form: Form, mask: Option<Mask>, payload: Bytes) {
    && |s| >= 2 && Bit(s[0], 7) == fin && (forall i: nat | i < 7 :: Bit(s[0], i) == Bit(op, i))
    && var at := match form case Short => 2 case Two => 4 case Eight => 10;
       && Announces(s, mask.Some?, form, |payload|, at)
       && match mask
          case None => s[at..] == payload
          case Some(m) =>
            |s| == at + 4 + |payload| && s[at..at + 4] == m && UnderMask(s, at + 4, payload, m)
  }

  lemma MaskedAt(p: Bytes, m: Mask, i: nat)
    requires i < |p|
    ensures MaskedByte(Masked(p, m)[i], p[i], m, i)
  {
    XorIs(p[i], m[i % 4], Xor(p[i], m[i % 4]));
  }

  lemma AllMasked(s: Bytes, at: nat, p: Bytes, m: Mask)
    requires |s| == at + |p| && forall i | 0 <= i < |p| :: s[at + i] == Masked(p, m)[i]
    ensures UnderMask(s, at, p, m)
  {
    forall i | 0 <= i < |p|
      ensures MaskedByte(s[at + i], p[i], m, i)
    {
      MaskedAt(p, m, i);
    }
  }

  lemma Behind(head: Bytes, m: Mask, body: Bytes)
    ensures var s, at := head + (m + body), |head|;
      |s| == at + 4 + |body| && s[at..at + 4] == m && forall i | 0 <= i < |body| :: s[at + 4 + i] == body[i]
  {
  }

  lemma MaskedBehind(head: Bytes, m: Mask, payload: Bytes, body: Bytes)
    requires body == Masked(payload, m)
    ensures var s, at := head + (m + body), |head|;
      |s| == at + 4 + |payload| && s[at..at + 4] == m && UnderMask(s, at + 4, payload, m)
  {
    var s := head + (m + body);
    Behind(head, m, body);
    AllMasked(s, |head| + 4, payload, m);
  }

  lemma BodyIs(head: Bytes, mask: Option<Mask>, payload: Bytes)
    ensures var s, at := head + Body(mask, payload), |head|;
      match mask
      case None => s[at..] == payload
      case Some(m) => |s| == at + 4 + |payload| && s[at..at + 4] == m && UnderMask(s, at + 4, payload, m)
  {
    match mask
    case None =>
    case Some(m) => MaskedBehind(head, m, payload, Masked(payload, m));
  }

  lemma FirstByteIs(fin: bool, op: byte)
    requires op < 16
    ensures Bit(FirstByte(fin, op), 7) == fin && forall i: nat | i < 7 :: Bit(FirstByte(fin, op), i) == Bit(op, i)
  {
    assert Pow2(7) == 128;
    HighBits(op, 7);
    if !fin { Low(op, 7); }
  }

  lemma {:induction false} Low(v: nat, n: nat)
    requires v < Pow2(n)
    ensures !Bit(v, n)
  {
    if n > 0 { Low(v / 2, n - 1); }
  }

  /** What any sender writes, and what is read back. */
  lemma WireIs(f: Frame)
    requires Sendable(f)
    ensures Carries(Wire(f), f.fin, f.op, f.form, f.mask, f.payload)
  {
    var head := Header(FirstByte(f.fin, f.op), f.mask.Some?, f.form, |f.payload|);
    HeaderAnnounces(FirstByte(f.fin, f.op), f.mask.Some?, f.form, |f.payload|, Body(f.mask, f.payload));
    FirstByteIs(f.fin, f.op);
    BodyIs(head, f.mask, f.payload);
  }

  /** What the client writes: final, masked, and with the shortest length that fits. */
  lemma WrittenIs(op: byte, m: Mask, payload: Bytes)
    requires |payload| < WORD
    ensures Carries(Written(op, m, payload), true, op,
                    if |payload| < 126 then Short else if |payload| < 0x1_0000 then Two else Eight, Some(m), payload)
  {
    var form := FormFor(|payload|);
    var head := Header(High(op), true, form, |payload|);
    HeaderAnnounces(High(op), true, form, |payload|, Body(Some(m), payload));
    assert Pow2(7) == 128;
    HighIs(op);
    BodyIs(head, Some(m), payload);
  }

  /** The n-th frame written, when it answers a ping: opcode 10, under the n-th mask, with what the ping carried. */
  lemma AnswerIs(masks: nat -> Mask, n: nat, ping: Bytes)
    requires |ping| < WORD
    ensures Carries(FrameOf(masks, PONG)(n, ping), true, 10,
                    if |ping| < 126 then Short else if |ping| < 0x1_0000 then Two else Eight, Some(masks(n)), ping)
  {
    WrittenIs(10, masks(n), ping);
  }
}
