/**
 WebSocket framing (RFC 6455, sections 5.2 to 5.5) as a client speaks it: one masked frame per
 message written, fragmented messages with control frames among them read.

 Bytes are integers below 256. The masks of the source's bit operations are all of the form
 2^k or 2^k - 1, so a test is a comparison and a field a remainder; exclusive or is spelled out.
 */
module WebSocket {
  import opened Words

  type Bytes = seq<byte>
  type Mask = m: seq<byte> | |m| == 4 witness [0, 0, 0, 0]

  const MAX_FRAME := 0x200_0000

  const CONTINUATION: byte := 0x0
  const TEXT: byte := 0x1
  const BINARY: byte := 0x2
  const CLOSE: byte := 0x8
  const PING: byte := 0x9
  const PONG: byte := 0xA

  // ---- Numbers ----

  /** Exclusive or of the low n bits. */
  function XorBits(a: nat, b: nat, n: nat): (r: nat)
    ensures r < Pow2(n)
  {
    if n == 0 then 0 else (if a % 2 == b % 2 then 0 else 1) + 2 * XorBits(a / 2, b / 2, n - 1)
  }

  function Xor(a: byte, b: byte): byte {
    assert Pow2(8) == 256;
    XorBits(a, b, 8)
  }

  lemma {:induction false} XorBitsTwice(a: nat, b: nat, n: nat)
    requires a < Pow2(n)
    ensures XorBits(XorBits(a, b, n), b, n) == a
  {
    if n != 0 {
      XorBitsTwice(a / 2, b / 2, n - 1);
      var r := XorBits(a, b, n);
      assert r / 2 == XorBits(a / 2, b / 2, n - 1);
    }
  }

  function Masked(p: Bytes, m: Mask): (r: Bytes)
    ensures |r| == |p|
  {
    seq(|p|, i requires 0 <= i < |p| => Xor(p[i], m[i % 4]))
  }

  /** Masking undoes itself. */
  lemma MaskedTwice(p: Bytes, m: Mask)
    ensures Masked(Masked(p, m), m) == p
  {
    forall i | 0 <= i < |p| ensures Masked(Masked(p, m), m)[i] == p[i] {
      assert Pow2(8) == 256;
      XorBitsTwice(p[i], m[i % 4], 8);
    }
  }

  // ---- The wire ----

  /** The three ways to write a payload's length. */
  datatype Form = Short | Two | Eight

  datatype Frame = Frame(fin: bool, op: byte, form: Form, mask: Option<Mask>, payload: Bytes)

  /** A frame a sender may send and this reader accepts. */
  predicate Sendable(f: Frame) {
    && f.op < 16 && |f.payload| <= MAX_FRAME
    && match f.form
       case Short => |f.payload| < 126
       case Two => |f.payload| < 0x1_0000
       case Eight => true
  }

  function LengthCode(form: Form, n: nat): byte
    requires form == Short ==> n < 126
  {
    match form case Short => n case Two => 126 case Eight => 127
  }

  function LengthBytes(form: Form, n: nat): Bytes {
    match form case Short => [] case Two => Be(n, 2) case Eight => Be(n, 8)
  }

  function Header(b0: byte, masked: bool, form: Form, n: nat): Bytes
    requires form == Short ==> n < 126
  {
    [b0, (if masked then 128 else 0) + LengthCode(form, n)] + LengthBytes(form, n)
  }

  function Body(mask: Option<Mask>, payload: Bytes): Bytes {
    match mask case None => payload case Some(m) => m + Masked(payload, m)
  }

  function FirstByte(fin: bool, op: byte): byte
    requires op < 16
  {
    if fin then 128 + op else op
  }

  lemma FirstByteFields(fin: bool, op: byte)
    requires op < 16
    ensures var b := FirstByte(fin, op); b % 128 < 16 && b % 16 == op && (b >= 128 <==> fin)
  {
  }

  function Wire(f: Frame): Bytes
    requires Sendable(f)
  {
    Header(FirstByte(f.fin, f.op), f.mask.Some?, f.form, |f.payload|) + Body(f.mask, f.payload)
  }

  function FormFor(n: nat): Form {
    if n < 126 then Short else if n <= 0xFFFF then Two else Eight
  }

  /** 0x80 | b */
  function High(b: byte): byte {
    if b < 128 then b + 128 else b
  }

  /** What writeFrame puts on the wire, for any opcode byte and any length below 2^64. */
  function Written(op: byte, m: Mask, payload: Bytes): Bytes {
    Header(High(op), true, FormFor(|payload|), |payload|) + Body(Some(m), payload)
  }

  datatype Fault = ShortRead | Extension | TooLong | UnknownOpcode | Closed | Unwritten

  /** readFrame's result on a stream, with what is left of the stream. */
  datatype Parsed = Parsed(fin: bool, op: byte, payload: Bytes, rest: Bytes) | Refused(fault: Fault)

  /** The announced size and where it ends. */
  function Size(s: Bytes): Option<(nat, nat)>
    requires |s| >= 2
  {
    var code := s[1] % 128;
    if code == 126 then if |s| < 4 then None else Some((BeValue(s[2..4]), 4))
    else if code == 127 then if |s| < 10 then None else Some((BeValue(s[2..10]), 10))
    else Some((code, 2))
  }

  /** The rest of a frame, from the byte after its length. */
  function ParseBody(s: Bytes, at: nat, size: nat): (r: Parsed)
    requires 2 <= at <= |s| && size <= MAX_FRAME
    ensures r.Parsed? ==> |r.rest| + at <= |s| && |r.payload| <= MAX_FRAME && r.op < 16
  {
    if s[1] >= 128 then
      if |s| < at + 4 + size then Refused(ShortRead)
      else Parsed(s[0] >= 128, s[0] % 16, Masked(s[at + 4..at + 4 + size], s[at..at + 4]), s[at + 4 + size..])
    else if |s| < at + size then Refused(ShortRead)
    else Parsed(s[0] >= 128, s[0] % 16, s[at..at + size], s[at + size..])
  }

  function Parse(s: Bytes): (r: Parsed)
    ensures r.Parsed? ==> |r.rest| + 2 <= |s| && |r.payload| <= MAX_FRAME && r.op < 16
  {
    if |s| < 2 then Refused(ShortRead)
    else if s[0] % 128 >= 16 then Refused(Extension)
    else match Size(s)
      case None => Refused(ShortRead)
      case Some((size, at)) => if size > MAX_FRAME then Refused(TooLong) else ParseBody(s, at, size)
  }

  lemma LengthValue(form: Form, n: nat)
    requires n < WORD && form != Short && (form == Two ==> n < 0x1_0000)
    ensures BeValue(LengthBytes(form, n)) == n
  {
    Bytes248();
    BeRoundTrip(n, if form == Two then 2 else 8);
  }

  lemma LengthSlice(b0: byte, b1: byte, length: Bytes, tail: Bytes)
    ensures var s := ([b0, b1] + length) + tail;
      s[1] == b1 && s[2..2 + |length|] == length
  {
  }

  /** Where the length bytes of a frame are found again. */
  lemma SizeOfHeader(b0: byte, masked: bool, form: Form, n: nat, tail: Bytes)
    requires n < WORD && (form == Short ==> n < 126) && (form == Two ==> n < 0x1_0000)
    ensures var head := Header(b0, masked, form, n);
      Size(head + tail) == Some((n, |head|))
  {
    var b1: byte, length := (if masked then 128 else 0) + LengthCode(form, n), LengthBytes(form, n);
    if form != Short {
      LengthValue(form, n);
    }
    LengthSlice(b0, b1, length, tail);
    assert Header(b0, masked, form, n) == [b0, b1] + length;
  }

  lemma ParsePlainBody(head: Bytes, payload: Bytes, rest: Bytes)
    requires 2 <= |head| && head[1] < 128 && |payload| <= MAX_FRAME
    ensures ParseBody(head + (payload + rest), |head|, |payload|) == Parsed(head[0] >= 128, head[0] % 16, payload, rest)
  {
    var s, at := head + (payload + rest), |head|;
    assert s[at..at + |payload|] == payload;
    assert s[at + |payload|..] == rest;
  }

  lemma ParseMaskedBody(head: Bytes, m: Mask, payload: Bytes, rest: Bytes)
    requires 2 <= |head| && head[1] >= 128 && |payload| <= MAX_FRAME
    ensures ParseBody(head + ((m + Masked(payload, m)) + rest), |head|, |payload|)
         == Parsed(head[0] >= 128, head[0] % 16, payload, rest)
  {
    var body, at := Masked(payload, m), |head| + 4;
    var s := head + ((m + body) + rest);
    assert s[at - 4..at] == m;
    assert s[at..at + |body|] == body;
    assert s[at + |body|..] == rest;
    MaskedTwice(payload, m);
  }

  /** A body is read back from behind any header that says how it was written. */
  lemma ParseBodyOf(head: Bytes, mask: Option<Mask>, payload: Bytes, rest: Bytes)
    requires 2 <= |head| && (head[1] >= 128 <==> mask.Some?) && |payload| <= MAX_FRAME
    ensures ParseBody(head + (Body(mask, payload) + rest), |head|, |payload|)
         == Parsed(head[0] >= 128, head[0] % 16, payload, rest)
  {
    match mask
    case None => ParsePlainBody(head, payload, rest);
    case Some(m) => ParseMaskedBody(head, m, payload, rest);
  }

  /** A frame is its header's two fields and its body. */
  lemma ParseHeaded(b0: byte, mask: Option<Mask>, form: Form, payload: Bytes, rest: Bytes)
    requires |payload| < WORD && (form == Short ==> |payload| < 126) && (form == Two ==> |payload| < 0x1_0000)
    ensures Parse((Header(b0, mask.Some?, form, |payload|) + Body(mask, payload)) + rest)
         == if b0 % 128 >= 16 then Refused(Extension)
            else if |payload| > MAX_FRAME then Refused(TooLong)
            else Parsed(b0 >= 128, b0 % 16, payload, rest)
  {
    var head, tail := Header(b0, mask.Some?, form, |payload|), Body(mask, payload) + rest;
    assert (head + Body(mask, payload)) + rest == head + tail;
    SizeOfHeader(b0, mask.Some?, form, |payload|, tail);
    if |payload| <= MAX_FRAME {
      ParseBodyOf(head, mask, payload, rest);
    }
  }

  /** Reading what any sender wrote gives the frame back and stops where it ends. */
  lemma ParseWire(f: Frame, rest: Bytes)
    requires Sendable(f)
    ensures Parse(Wire(f) + rest) == Parsed(f.fin, f.op, f.payload, rest)
  {
    var b0: byte := FirstByte(f.fin, f.op);
    FirstByteFields(f.fin, f.op);
    ParseHeaded(b0, f.mask, f.form, f.payload, rest);
  }

  /** Frame round trip: exactly the 4-bit opcodes and the payloads within the cap survive, and then the
      bytes consumed are exactly the bytes written. */
  lemma WriteRead(op: byte, m: Mask, payload: Bytes, rest: Bytes)
    requires |payload| < WORD
    ensures Parse(Written(op, m, payload) + rest) == Parsed(true, op, payload, rest)
       <==> op < 16 && |payload| <= MAX_FRAME
  {
    ParseHeaded(High(op), Some(m), FormFor(|payload|), payload, rest);
  }

  // ---- Messages ----

  datatype Reply = Message(msg: Bytes, rest: Bytes) | Failed(fault: Fault)

  /** What readers of messages see, and the ping payloads answered on the way, in order. */
  datatype Received = Received(reply: Reply, pongs: seq<Bytes>)

  function Answer(ping: Bytes, r: Received): Received {
    r.(pongs := [ping] + r.pongs)
  }

  /** ReadMessage, with `msg` gathered so far. */
  function Receive(s: Bytes, msg: Bytes): Received
    decreases |s|
  {
    match Parse(s)
    case Refused(fault) => Received(Failed(fault), [])
    case Parsed(fin, op, payload, rest) =>
      if op == PING then Answer(payload, Receive(rest, msg))
      else if op == PONG then Receive(rest, msg)
      else if op == CLOSE then Received(Failed(Closed), [])
      else if op == TEXT || op == BINARY || op == CONTINUATION then
        var m := if op == CONTINUATION then msg + payload else payload;
        if fin then Received(Message(m, rest), [])
        else if |m| > MAX_FRAME then Received(Failed(TooLong), [])
        else Receive(rest, m)
      else Received(Failed(UnknownOpcode), [])
  }

  predicate IsControl(f: Frame) {
    f.op == PING || f.op == PONG
  }

  /** One message: data frames of which only the first is text or binary and only the last is final,
      with pings and pongs anywhere before the last. */
  predicate OneMessage(frames: seq<Frame>, started: bool) {
    frames != [] &&
    if IsControl(frames[0]) then OneMessage(frames[1..], started)
    else
      && (if started then frames[0].op == CONTINUATION else frames[0].op == TEXT || frames[0].op == BINARY)
      && (if frames[0].fin then |frames| == 1 else OneMessage(frames[1..], true))
  }

  predicate AllSendable(frames: seq<Frame>) {
    frames == [] || (Sendable(frames[0]) && AllSendable(frames[1..]))
  }

  function Stream(frames: seq<Frame>): Bytes
    requires AllSendable(frames)
  {
    if frames == [] then [] else Wire(frames[0]) + Stream(frames[1..])
  }

  function Contents(frames: seq<Frame>): Bytes {
    if frames == [] then []
    else (if IsControl(frames[0]) then [] else frames[0].payload) + Contents(frames[1..])
  }

  function Pings(frames: seq<Frame>): seq<Bytes> {
    if frames == [] then []
    else (if frames[0].op == PING then [frames[0].payload] else []) + Pings(frames[1..])
  }

  lemma Assoc(a: Bytes, b: Bytes, c: Bytes)
    ensures (a + b) + c == a + (b + c)
  {
  }

  lemma ParseFirst(frames: seq<Frame>, s: Bytes, rest: Bytes, after: Bytes)
    requires AllSendable(frames) && frames != [] && s == Stream(frames) + rest && after == Stream(frames[1..]) + rest
    ensures Parse(s) == Parsed(frames[0].fin, frames[0].op, frames[0].payload, after)
  {
    Assoc(Wire(frames[0]), Stream(frames[1..]), rest);
    ParseWire(frames[0], after);
  }

  /** What one frame adds to a message. */
  lemma ReceiveData(s: Bytes, msg: Bytes, started: bool, fin: bool, op: byte, payload: Bytes, after: Bytes)
    requires Parse(s) == Parsed(fin, op, payload, after)
    requires (if started then op == CONTINUATION else op == TEXT || op == BINARY) && (!started ==> msg == [])
    requires |msg| + |payload| <= MAX_FRAME
    ensures Receive(s, msg) == if fin then Received(Message(msg + payload, after), []) else Receive(after, msg + payload)
  {
    assert !started ==> msg + payload == payload;
  }

  lemma {:induction false} ReassembleFrom(frames: seq<Frame>, started: bool, s: Bytes, msg: Bytes, rest: Bytes)
    requires OneMessage(frames, started) && (!started ==> msg == [])
    requires AllSendable(frames) && s == Stream(frames) + rest
    requires |msg| + |Contents(frames)| <= MAX_FRAME
    ensures Receive(s, msg) == Received(Message(msg + Contents(frames), rest), Pings(frames))
    decreases |frames|
  {
    var f, after := frames[0], Stream(frames[1..]) + rest;
    ParseFirst(frames, s, rest, after);
    if IsControl(f) {
      ReassembleFrom(frames[1..], started, after, msg, rest);
      assert Contents(frames) == Contents(frames[1..]);
      assert f.op != PING ==> Pings(frames) == Pings(frames[1..]);
    } else {
      ReceiveData(s, msg, started, f.fin, f.op, f.payload, after);
      if f.fin {
        LastFrame(frames, rest);
      } else {
        ReassembleFrom(frames[1..], true, after, msg + f.payload, rest);
        Assoc(msg, f.payload, Contents(frames[1..]));
        assert Pings(frames) == Pings(frames[1..]);
      }
    }
  }

  lemma LastFrame(frames: seq<Frame>, rest: Bytes)
    requires |frames| == 1 && AllSendable(frames) && !IsControl(frames[0])
    ensures Stream(frames[1..]) + rest == rest && Contents(frames) == frames[0].payload && Pings(frames) == []
  {
    assert frames[1..] == [];
    assert [] + rest == rest;
    assert frames[0].payload + [] == frames[0].payload;
  }

  /** Reassembly: a message within the cap, however it was cut and whatever pings and pongs came
      between, is returned whole, each ping is answered once and in order, and reading stops exactly
      at the end of the message. */
  lemma Reassembly(frames: seq<Frame>, rest: Bytes)
    requires OneMessage(frames, false) && AllSendable(frames) && |Contents(frames)| <= MAX_FRAME
    ensures Receive(Stream(frames) + rest, []) == Received(Message(Contents(frames), rest), Pings(frames))
  {
    ReassembleFrom(frames, false, Stream(frames) + rest, [], rest);
    assert [] + Contents(frames) == Contents(frames);
  }

  // ---- What is returned when a peer does not keep to one start per message ----

  predicate IsStart(f: Frame) {
    f.op == TEXT || f.op == BINARY
  }

  predicate IsData(f: Frame) {
    IsStart(f) || f.op == CONTINUATION
  }

  /** Any data frames of which the last and no other is final, with pings and pongs before it. */
  predicate UpToFinal(frames: seq<Frame>) {
    frames != [] &&
    if IsControl(frames[0]) then UpToFinal(frames[1..])
    else IsData(frames[0]) && if frames[0].fin then |frames| == 1 else UpToFinal(frames[1..])
  }

  /** What has been gathered once a frame has been read. */
  function Next(f: Frame, msg: Bytes): Bytes {
    if IsControl(f) then msg else if IsStart(f) then f.payload else msg + f.payload
  }

  function Gathered(frames: seq<Frame>, msg: Bytes): Bytes {
    if frames == [] then msg else Gathered(frames[1..], Next(frames[0], msg))
  }

  /** Nothing gathered before the final frame exceeds the cap. */
  predicate Fits(frames: seq<Frame>, msg: Bytes) {
    frames == [] ||
    ((IsControl(frames[0]) || frames[0].fin || |Next(frames[0], msg)| <= MAX_FRAME) && Fits(frames[1..], Next(frames[0], msg)))
  }

  predicate HasStart(frames: seq<Frame>) {
    frames != [] && (IsStart(frames[0]) || HasStart(frames[1..]))
  }

  /** The last text or binary frame, or the first frame of all if there is none. */
  function LastStart(frames: seq<Frame>): (i: nat)
    ensures i <= |frames|
  {
    if frames != [] && HasStart(frames[1..]) then 1 + LastStart(frames[1..]) else 0
  }

  lemma {:induction false} NoStarts(frames: seq<Frame>)
    ensures HasStart(frames) <==> exists j | 0 <= j < |frames| :: IsStart(frames[j])
    decreases |frames|
  {
    if frames != [] {
      var tail := frames[1..];
      NoStarts(tail);
      assert forall j | 0 <= j < |tail| :: tail[j] == frames[j + 1];
      assert forall j | 1 <= j < |frames| :: frames[j] == tail[j - 1];
    }
  }

  lemma {:induction false} LastStartIs(frames: seq<Frame>)
    ensures var i := LastStart(frames);
      && (forall j | i < j < |frames| :: !IsStart(frames[j]))
      && (i > 0 ==> i < |frames| && IsStart(frames[i]))
    decreases |frames|
  {
    if frames != [] {
      var tail := frames[1..];
      LastStartIs(tail);
      NoStarts(tail);
      assert forall j | 1 <= j < |frames| :: frames[j] == tail[j - 1];
    }
  }

  lemma ReceiveNext(s: Bytes, msg: Bytes, f: Frame, after: Bytes)
    requires Parse(s) == Parsed(f.fin, f.op, f.payload, after) && (IsControl(f) || IsData(f))
    requires !IsControl(f) && !f.fin ==> |Next(f, msg)| <= MAX_FRAME
    ensures Receive(s, msg) ==
      if f.op == PING then Answer(f.payload, Receive(after, msg))
      else if IsControl(f) then Receive(after, msg)
      else if f.fin then Received(Message(Next(f, msg), after), [])
      else Receive(after, Next(f, msg))
  {
  }

  lemma {:induction false} ReceiveGathered(frames: seq<Frame>, s: Bytes, msg: Bytes, rest: Bytes)
    requires UpToFinal(frames) && AllSendable(frames) && Fits(frames, msg) && s == Stream(frames) + rest
    ensures Receive(s, msg) == Received(Message(Gathered(frames, msg), rest), Pings(frames))
    decreases |frames|
  {
    var f, after := frames[0], Stream(frames[1..]) + rest;
    ParseFirst(frames, s, rest, after);
    ReceiveNext(s, msg, f, after);
    if !IsControl(f) && f.fin {
      LastFrame(frames, rest);
    } else {
      ReceiveGathered(frames[1..], after, Next(f, msg), rest);
      assert f.op != PING ==> Pings(frames) == Pings(frames[1..]);
    }
  }

  lemma {:induction false} GatheredSince(frames: seq<Frame>, msg: Bytes)
    requires forall f | f in frames :: IsControl(f) || IsData(f)
    ensures Gathered(frames, msg)
         == if HasStart(frames) then Contents(frames[LastStart(frames)..]) else msg + Contents(frames)
    decreases |frames|
  {
    if frames != [] {
      var f, tail := frames[0], frames[1..];
      GatheredSince(tail, Next(f, msg));
      if HasStart(tail) {
        assert frames[LastStart(frames)..] == tail[LastStart(tail)..];
      } else if IsStart(f) {
        assert frames[0..] == frames;
      } else if !IsControl(f) {
        Assoc(msg, f.payload, Contents(tail));
      } else {
        assert Contents(frames) == Contents(tail);
      }
    }
  }

  lemma {:induction false} OnlyKnown(frames: seq<Frame>)
    requires UpToFinal(frames)
    ensures forall f | f in frames :: IsControl(f) || IsData(f)
    decreases |frames|
  {
    if IsControl(frames[0]) || !frames[0].fin {
      OnlyKnown(frames[1..]);
    }
  }

  /** Whatever data frames come, up to the first final one, the message returned is what was carried
      from the last text or binary frame on, or all of it when there is none. */
  lemma AnyDataFrames(frames: seq<Frame>, rest: Bytes)
    requires UpToFinal(frames) && AllSendable(frames) && Fits(frames, [])
    ensures Receive(Stream(frames) + rest, [])
         == Received(Message(Contents(frames[LastStart(frames)..]), rest), Pings(frames))
  {
    ReceiveGathered(frames, Stream(frames) + rest, [], rest);
    OnlyKnown(frames);
    GatheredSince(frames, []);
    assert frames[0..] == frames && [] + Contents(frames) == Contents(frames);
  }

  /** A text or binary frame comes after data that was not empty. */
  predicate RestartsAfterData(frames: seq<Frame>) {
    exists i, j | 0 <= i < j < |frames| :: !IsControl(frames[i]) && frames[i].payload != [] && IsStart(frames[j])
  }

  lemma {:induction false} ContentsSplit(frames: seq<Frame>, n: nat)
    requires n <= |frames|
    ensures Contents(frames) == Contents(frames[..n]) + Contents(frames[n..])
    decreases n
  {
    if n == 0 {
      assert frames[0..] == frames && [] + Contents(frames) == Contents(frames);
    } else {
      var tail := frames[1..];
      ContentsSplit(tail, n - 1);
      assert frames[..n][1..] == tail[..n - 1] && frames[n..] == tail[n - 1..];
      Assoc(if IsControl(frames[0]) then [] else frames[0].payload, Contents(tail[..n - 1]), Contents(tail[n - 1..]));
    }
  }

  lemma {:induction false} NoContents(frames: seq<Frame>)
    ensures Contents(frames) == [] <==> forall i | 0 <= i < |frames| :: IsControl(frames[i]) || frames[i].payload == []
    decreases |frames|
  {
    if frames != [] {
      NoContents(frames[1..]);
      assert forall i | 1 <= i < |frames| :: frames[i] == frames[1..][i - 1];
    }
  }

  /** So the whole of what was carried is returned exactly when no text or binary frame follows data. */
  lemma WholeExactly(frames: seq<Frame>, rest: Bytes)
    requires UpToFinal(frames) && AllSendable(frames) && Fits(frames, [])
    ensures Receive(Stream(frames) + rest, []).reply == Message(Contents(frames), rest) <==> !RestartsAfterData(frames)
  {
    var n := LastStart(frames);
    AnyDataFrames(frames, rest);
    ContentsSplit(frames, n);
    NoContents(frames[..n]);
    LastStartIs(frames);
    if Contents(frames[..n]) == [] {
      assert [] + Contents(frames[n..]) == Contents(frames[n..]);
      forall i | 0 <= i < n
        ensures IsControl(frames[i]) || frames[i].payload == []
      {
        assert frames[..n][i] == frames[i];
      }
    } else {
      var i :| 0 <= i < n && !IsControl(frames[..n][i]) && frames[..n][i].payload != [];
      assert frames[..n][i] == frames[i] && IsStart(frames[n]);
    }
  }

  /** The smallest case: after data, a final text or binary frame is the whole message. */
  lemma RestartDiscards(f: Frame, rest: Bytes, msg: Bytes)
    requires Sendable(f) && f.fin && IsStart(f)
    ensures Receive(Wire(f) + rest, msg) == Received(Message(f.payload, rest), [])
  {
    ParseWire(f, rest);
  }

  /** On any stream at all, a message returned is at most twice the frame cap. */
  lemma {:induction false} Bounded(s: Bytes, msg: Bytes)
    requires |msg| <= MAX_FRAME
    ensures Receive(s, msg).reply.Message? ==> |Receive(s, msg).reply.msg| <= 2 * MAX_FRAME
    decreases |s|
  {
    match Parse(s)
    case Refused(_) =>
    case Parsed(fin, op, payload, rest) =>
      Bounded(rest, msg);
      var m := if op == CONTINUATION then msg + payload else payload;
      if |m| <= MAX_FRAME {
        Bounded(rest, m);
      }
  }

  // ---- The connection ----

  /** The frames answering `pings`, numbered from `from` on. */
  function Frames(frame: (nat, Bytes) -> Bytes, from: nat, pings: seq<Bytes>): Bytes {
    if pings == [] then []
    else
      var n := |pings| - 1;
      Frames(frame, from, pings[..n]) + frame(from + n, pings[n])
  }

  lemma OneMoreFrame(start: Bytes, frame: (nat, Bytes) -> Bytes, from: nat, pings: seq<Bytes>, p: Bytes,
                     before: Bytes, n: nat, after: Bytes)
    requires before == start + Frames(frame, from, pings) && n == from + |pings| && after == before + frame(n, p)
    ensures after == start + Frames(frame, from, pings + [p])
  {
    assert (pings + [p])[..|pings|] == pings;
    Assoc(start, Frames(frame, from, pings), frame(n, p));
  }

  /** The frame with a given opcode, under the n-th mask drawn. */
  function FrameOf(masks: nat -> Mask, op: byte): (nat, Bytes) -> Bytes {
    (n: nat, p: Bytes) => Written(op, masks(n), p)
  }

  /** Whether the connection takes the frame answering a ping, of which it takes `room` bytes at most. */
  predicate Taken(frame: (nat, Bytes) -> Bytes, room: nat -> nat, n: nat, p: Bytes) {
    |frame(n, p)| <= room(n)
  }

  predicate AllTaken(frame: (nat, Bytes) -> Bytes, room: nat -> nat, from: nat, pings: seq<Bytes>) {
    forall i | 0 <= i < |pings| :: Taken(frame, room, from + i, pings[i])
  }

  lemma TakenMore(frame: (nat, Bytes) -> Bytes, room: nat -> nat, from: nat, pings: seq<Bytes>, p: Bytes)
    requires AllTaken(frame, room, from, pings) && Taken(frame, room, from + |pings|, p)
    ensures AllTaken(frame, room, from, pings + [p])
  {
  }

  /** What of the frame answering a ping reaches the connection. */
  function Reaching(frame: (nat, Bytes) -> Bytes, room: nat -> nat, n: nat, p: Bytes): Bytes {
    if Taken(frame, room, n, p) then frame(n, p) else frame(n, p)[..room(n)]
  }

  /** How many of the pings were answered: those before the first whose answer could not be written. */
  predicate AnsweredUntil(frame: (nat, Bytes) -> Bytes, room: nat -> nat, from: nat, pings: seq<Bytes>, n: nat) {
    && n <= |pings| && AllTaken(frame, room, from, pings[..n])
    && (n < |pings| ==> !Taken(frame, room, from + n, pings[n]))
  }

  /** What was written when `n` pings had been answered and the next, if any, in part. */
  function Output(frame: (nat, Bytes) -> Bytes, room: nat -> nat, from: nat, pings: seq<Bytes>, n: nat): Bytes
    requires n <= |pings|
  {
    Frames(frame, from, pings[..n]) + if n < |pings| then Reaching(frame, room, from + n, pings[n]) else []
  }

  /** How reading a message ends when it should return `r`: so if every ping could be answered, and
      otherwise with a failure once the answers before have been written. */
  predicate Ends(frame: (nat, Bytes) -> Bytes, room: nat -> nat, from: nat, r: Received, n: nat,
                 reply: Reply, before: Bytes, after: Bytes)
  {
    && AnsweredUntil(frame, room, from, r.pongs, n)
    && reply == (if n == |r.pongs| then r.reply else Failed(Unwritten))
    && after == before + Output(frame, room, from, r.pongs, n)
  }

  /** A ping that could not be answered ends the reading, whatever would have come after it. */
  lemma EndsUnanswered(frame: (nat, Bytes) -> Bytes, room: nat -> nat, from: nat, r: Received, pings: seq<Bytes>, p: Bytes,
                       later: Received, before: Bytes, after: Bytes)
    requires AllTaken(frame, room, from, pings) && !Taken(frame, room, from + |pings|, p)
    requires r == Answered(pings, Answer(p, later))
    requires after == before + (Frames(frame, from, pings) + Reaching(frame, room, from + |pings|, p))
    ensures Ends(frame, room, from, r, |pings|, Failed(Unwritten), before, after)
  {
    assert r.pongs[..|pings|] == pings && r.pongs[|pings|] == p;
  }

  lemma EndsAnswered(frame: (nat, Bytes) -> Bytes, room: nat -> nat, from: nat, r: Received, pings: seq<Bytes>,
                     before: Bytes, after: Bytes)
    requires AllTaken(frame, room, from, pings) && r.pongs == pings && after == before + Frames(frame, from, pings)
    ensures Ends(frame, room, from, r, |pings|, r.reply, before, after)
  {
    assert pings[..|pings|] == pings;
    assert Output(frame, room, from, pings, |pings|) == Frames(frame, from, pings);
  }

  function Answered(pings: seq<Bytes>, r: Received): Received {
    r.(pongs := pings + r.pongs)
  }

  lemma AnsweredMore(pings: seq<Bytes>, p: Bytes, r: Received)
    ensures Answered(pings, Answer(p, r)) == Answered(pings + [p], r)
  {
    assert pings + ([p] + r.pongs) == (pings + [p]) + r.pongs;
  }

  lemma AnsweredNoMore(pings: seq<Bytes>, reply: Reply)
    ensures Answered(pings, Received(reply, [])) == Received(reply, pings)
  {
    assert pings + [] == pings;
  }

  /** What a control frame does to a message being read. */
  lemma ReceiveControl(s: Bytes, msg: Bytes, fin: bool, op: byte, payload: Bytes, after: Bytes)
    requires Parse(s) == Parsed(fin, op, payload, after)
    ensures op == PING ==> Receive(s, msg) == Answer(payload, Receive(after, msg))
    ensures op == PONG ==> Receive(s, msg) == Receive(after, msg)
  {
  }

  class Conn {
    var input: Bytes         // what is still to be read
    var output: Bytes        // what has been written
    const masks: nat -> Mask // the random masks, in the order they are drawn
    const room: nat -> nat   // how much of each frame written the connection takes before it fails
    var drawn: nat

    constructor (input: Bytes, masks: nat -> Mask, room: nat -> nat)
      ensures this.input == input && output == [] && this.masks == masks && this.room == room && drawn == 0
    {
      this.input, output, this.masks, this.room, drawn := input, [], masks, room, 0;
    }

    /** Masks into a copy, so the caller's payload is untouched. */
    method ApplyMask(p: Bytes, m: Mask) returns (r: Bytes)
      ensures r == Masked(p, m)
    {
      var buf := new byte[|p|](i => 0);
      for i := 0 to |p|
        invariant forall j | 0 <= j < i :: buf[j] == Xor(p[j], m[j % 4])
      {
        buf[i] := Xor(p[i], m[i % 4]);
      }
      return buf[..];
    }

    /** Writes one frame, or as much of it as the connection takes. */
    method WriteFrame(op: byte, payload: Bytes) returns (ok: bool)
      requires |payload| < WORD
      modifies this`output, this`drawn
      ensures ok <==> Taken(FrameOf(masks, op), room, old(drawn), payload)
      ensures output == old(output) + Reaching(FrameOf(masks, op), room, old(drawn), payload)
      ensures drawn == old(drawn) + 1
    {
      var hdr := [High(op)];
      if |payload| < 126 {
        hdr := hdr + [128 + |payload|];
      } else if |payload| <= 0xFFFF {
        hdr := hdr + [128 + 126] + Be(|payload|, 2);
      } else {
        hdr := hdr + [128 + 127] + Be(|payload|, 8);
      }
      assert hdr == Header(High(op), true, FormFor(|payload|), |payload|);
      var mask, takes := masks(drawn), room(drawn);
      drawn := drawn + 1;
      var body := ApplyMask(payload, mask);
      var head := hdr + mask;
      assert Written(op, mask, payload) == head + body;
      ok := Send(head, body, takes);
    }

    /** Two writes to a connection that takes so many bytes and then fails. */
    method Send(head: Bytes, body: Bytes, takes: nat) returns (ok: bool)
      modifies this`output
      ensures ok <==> |head + body| <= takes
      ensures output == old(output) + if ok then head + body else (head + body)[..takes]
    {
      if takes < |head| {
        output := output + head[..takes];
        assert head[..takes] == (head + body)[..takes];
        return false;
      }
      output := output + head;
      if |body| > 0 {
        var rest := takes - |head|;
        if rest < |body| {
          output := output + body[..rest];
          assert (head + body)[..takes] == head + body[..rest];
          return false;
        }
        output := output + body;
      }
      return true;
    }

    /** io.ReadFull: all n bytes, or none and the stream is spent. */
    method ReadFull(n: nat) returns (b: Option<Bytes>)
      modifies this`input
      ensures |old(input)| < n ==> b.None?
      ensures |old(input)| >= n ==> b == Some(old(input)[..n]) && input == old(input)[n..]
    {
      if |input| < n {
        input := [];
        return None;
      }
      b := Some(input[..n]);
      input := input[n..];
    }

    method ReadSize(b1: byte, ghost s: Bytes) returns (r: Option<nat>, ghost at: nat)
      requires |s| >= 2 && s[1] == b1 && input == s[2..]
      modifies this`input
      ensures r.None? <==> Size(s).None?
      ensures r.Some? ==> Size(s) == Some((r.value, at)) && 2 <= at <= |s| && input == s[at..]
    {
      var size := b1 % 128;
      if size == 126 {
        var b := ReadFull(2);
        if b.None? { return None, 0; }
        assert b.value == s[2..4] && input == s[4..];
        return Some(BeValue(b.value)), 4;
      }
      if size == 127 {
        var b := ReadFull(8);
        if b.None? { return None, 0; }
        assert b.value == s[2..10] && input == s[10..];
        return Some(BeValue(b.value)), 10;
      }
      return Some(size), 2;
    }

    method ReadBody(b0: byte, b1: byte, size: nat, ghost s: Bytes, ghost at: nat) returns (r: Parsed)
      requires 2 <= at <= |s| && s[0] == b0 && s[1] == b1 && input == s[at..] && size <= MAX_FRAME
      modifies this`input
      ensures r == ParseBody(s, at, size)
      ensures r.Parsed? ==> input == r.rest
    {
      if b1 >= 128 {
        var m := ReadFull(4);
        if m.None? { return Refused(ShortRead); }
        assert m.value == s[at..at + 4] && input == s[at + 4..];
        var p := ReadFull(size);
        if p.None? { return Refused(ShortRead); }
        assert p.value == s[at + 4..at + 4 + size];
        assert input == s[at + 4 + size..];
        var payload := ApplyMask(p.value, m.value);
        return Parsed(b0 >= 128, b0 % 16, payload, input);
      }
      var p := ReadFull(size);
      if p.None? { return Refused(ShortRead); }
      assert p.value == s[at..at + size];
      assert input == s[at + size..];
      return Parsed(b0 >= 128, b0 % 16, p.value, input);
    }

    method ReadFrame() returns (r: Parsed)
      modifies this`input
      ensures r == Parse(old(input))
      ensures r.Parsed? ==> input == r.rest
    {
      ghost var s := input;
      var h := ReadFull(2);
      if h.None? { return Refused(ShortRead); }
      var b0, b1 := h.value[0], h.value[1];
      if b0 % 128 >= 16 { return Refused(Extension); }
      var size, at := ReadSize(b1, s);
      if size.None? { return Refused(ShortRead); }
      if size.value > MAX_FRAME { return Refused(TooLong); }
      r := ReadBody(b0, b1, size.value, s, at);
    }

    /** Answers one more ping of those seen since the output was `start`. */
    method Pong(p: Bytes, ghost frame: (nat, Bytes) -> Bytes, ghost start: Bytes, ghost from: nat, ghost pings: seq<Bytes>)
      returns (ok: bool)
      requires |p| < WORD && output == start + Frames(frame, from, pings) && drawn == from + |pings|
      requires frame == FrameOf(masks, PONG)
      modifies this`output, this`drawn
      ensures ok <==> Taken(frame, room, from + |pings|, p)
      ensures ok ==> output == start + Frames(frame, from, pings + [p])
      ensures !ok ==> output == start + (Frames(frame, from, pings) + Reaching(frame, room, from + |pings|, p))
      ensures drawn == from + |pings| + 1
    {
      ghost var before, n := output, drawn;
      ok := WriteFrame(PONG, p);
      if ok {
        OneMoreFrame(start, frame, from, pings, p, before, n, output);
      } else {
        Assoc(start, Frames(frame, from, pings), Reaching(frame, room, n, p));
      }
    }

    /** What reading has come to after some frames: pings answered, and what there is still to receive. */
    ghost predicate Reading(start: Bytes, from: nat, pings: seq<Bytes>)
      reads this
    {
      && AllTaken(FrameOf(masks, PONG), room, from, pings)
      && output == start + Frames(FrameOf(masks, PONG), from, pings) && drawn == from + |pings|
    }

    ghost predicate Ended(start: Bytes, from: nat, r: Received, n: nat, reply: Reply)
      reads this
    {
      Ends(FrameOf(masks, PONG), room, from, r, n, reply, start, output)
    }

    /** A ping is answered, a pong ignored. */
    method Control(op: byte, payload: Bytes, ghost start: Bytes, ghost from: nat, ghost pings: seq<Bytes>, ghost later: Received)
      returns (ok: bool, ghost pings': seq<Bytes>)
      requires op == PING || op == PONG
      requires |payload| < WORD && Reading(start, from, pings)
      modifies this`output, this`drawn
      ensures ok ==> Reading(start, from, pings')
      ensures ok ==> pings' == if op == PING then pings + [payload] else pings
      ensures !ok ==> op == PING && Ended(start, from, Answered(pings, Answer(payload, later)), |pings|, Failed(Unwritten))
    {
      ok, pings' := true, pings;
      if op == PING {
        ghost var frame := FrameOf(masks, PONG);
        ok := Pong(payload, frame, start, from, pings);
        if ok {
          TakenMore(frame, room, from, pings, payload);
          pings' := pings + [payload];
        } else {
          EndsUnanswered(frame, room, from, Answered(pings, Answer(payload, later)), pings, payload, later, start, output);
        }
      }
    }

    /** The ghost result is how many pings were answered; an answer that cannot be written is the end. */
    method ReadMessage() returns (reply: Reply, ghost answered: nat)
      modifies this
      ensures Ended(old(output), old(drawn), Receive(old(input), []), answered, reply)
      ensures reply.Message? ==> input == reply.rest
    {
      var msg: Bytes := [];
      ghost var all, pings: seq<Bytes> := Receive(input, []), [];
      while true
        invariant all == Answered(pings, Receive(input, msg))
        invariant Reading(old(output), old(drawn), pings)
        decreases |input|
      {
        ghost var s := input;
        var f := ReadFrame();
        if f.Parsed? && (f.op == PING || f.op == PONG) {
          ReceiveControl(s, msg, f.fin, f.op, f.payload, input);
          AnsweredMore(pings, f.payload, Receive(input, msg));
          var ok;
          answered := |pings|;
          ok, pings := Control(f.op, f.payload, old(output), old(drawn), pings, Receive(input, msg));
          if !ok { return Failed(Unwritten), answered; }
          continue;
        }
        answered := |pings|;
        if Receive(s, msg).pongs == [] {
          AnsweredNoMore(pings, Receive(s, msg).reply);
          EndsAnswered(FrameOf(masks, PONG), room, old(drawn), all, pings, old(output), output);
          assert Ended(old(output), old(drawn), all, answered, Receive(s, msg).reply);
        }
        if f.Refused? { return Failed(f.fault), answered; }
        if f.op == CLOSE { return Failed(Closed), answered; }
        if f.op == TEXT || f.op == BINARY {
          msg := f.payload;
        } else if f.op == CONTINUATION {
          msg := msg + f.payload;
        } else {
          return Failed(UnknownOpcode), answered;
        }
        if f.fin { return Message(msg, input), answered; }
        if |msg| > MAX_FRAME { return Failed(TooLong), answered; }
      }
    }
  }
}
