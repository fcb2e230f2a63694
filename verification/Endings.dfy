/**
 Every other way in which reading a message ends: a close, an opcode of no known meaning, a message
 or a frame beyond the cap, a reserved bit, a stream that stops. Opcodes are the numbers of RFC 6455,
 section 5.2.
 */
module Endings {
  import opened WebSocket
  import opened Words

  /** Frames that leave a message unfinished: pings and pongs, and data frames that are not final. */
  predicate Unfinished(frames: seq<Frame>) {
    forall i | 0 <= i < |frames| :: frames[i].op == 9 || frames[i].op == 10 || (frames[i].op <= 2 && !frames[i].fin)
  }

  /** Reading goes on through them, answering the pings, with what they gathered. */
  lemma {:induction false} ReceiveThrough(frames: seq<Frame>, msg: Bytes, s: Bytes)
    requires Unfinished(frames) && AllSendable(frames) && Fits(frames, msg)
    ensures Receive(Stream(frames) + s, msg) == Answered(Pings(frames), Receive(s, Gathered(frames, msg)))
    decreases |frames|
  {
    if frames == [] {
      assert Stream(frames) + s == s;
      assert [] + Receive(s, msg).pongs == Receive(s, msg).pongs;
    } else {
      var f, after := frames[0], Stream(frames[1..]) + s;
      ParseFirst(frames, Stream(frames) + s, s, after);
      ReceiveNext(Stream(frames) + s, msg, f, after);
      ReceiveThrough(frames[1..], Next(f, msg), s);
      AnswerThrough(f, frames, Receive(s, Gathered(frames, msg)));
    }
  }

  lemma AnswerThrough(f: Frame, frames: seq<Frame>, r: Received)
    requires frames != [] && f == frames[0]
    ensures Answered(Pings(frames), r) ==
      if f.op == 9 then Answer(f.payload, Answered(Pings(frames[1..]), r)) else Answered(Pings(frames[1..]), r)
  {
    if f.op == 9 {
      assert ([f.payload] + Pings(frames[1..])) + r.pongs == [f.payload] + (Pings(frames[1..]) + r.pongs);
    } else {
      assert Pings(frames) == Pings(frames[1..]);
    }
  }

  /** How a frame that ends the reading ends it, after `msg` was gathered. */
  function EndsAt(f: Frame, msg: Bytes, rest: Bytes): Option<Reply> {
    if f.op == 8 then Some(Failed(Closed))
    else if f.op == 9 || f.op == 10 then None
    else if f.op > 2 then Some(Failed(UnknownOpcode))
    else
      var m := if f.op == 0 then msg + f.payload else f.payload;
      if f.fin then Some(Message(m, rest))
      else if |m| > 0x200_0000 then Some(Failed(TooLong))
      else None
  }

  /** Any sequence of frames, up to the first that ends it: a close is an end of the stream, an unknown
      opcode a failure, and so is a message that is too long before it is final; the pings before are answered. */
  lemma EndsExactly(frames: seq<Frame>, f: Frame, rest: Bytes)
    requires Unfinished(frames) && AllSendable(frames) && Fits(frames, []) && Sendable(f)
    requires EndsAt(f, Gathered(frames, []), rest).Some?
    ensures Receive(Stream(frames) + (Wire(f) + rest), [])
         == Received(EndsAt(f, Gathered(frames, []), rest).value, Pings(frames))
  {
    ReceiveThrough(frames, [], Wire(f) + rest);
    ParseWire(f, rest);
    AnsweredNoMore(Pings(frames), EndsAt(f, Gathered(frames, []), rest).value);
  }

  // ---- Streams that cannot be read on ----

  /** What follows the frames read so far and is no frame that this reader accepts. */
  lemma EndsUnreadable(frames: seq<Frame>, s: Bytes, fault: Fault)
    requires Unfinished(frames) && AllSendable(frames) && Fits(frames, []) && Parse(s) == Refused(fault)
    ensures Receive(Stream(frames) + s, []) == Received(Failed(fault), Pings(frames))
  {
    ReceiveThrough(frames, [], s);
    AnsweredNoMore(Pings(frames), Failed(fault));
  }

  lemma CutHeader(b0: byte, masked: bool, form: Form, n: nat, tail: Bytes, k: nat)
    requires b0 % 128 < 16 && n < WORD && (form == Short ==> n < 126) && (form == Two ==> n < 0x1_0000)
    requires k < |Header(b0, masked, form, n)|
    ensures Parse((Header(b0, masked, form, n) + tail)[..k]) == Refused(ShortRead)
  {
    var head := Header(b0, masked, form, n);
    if k >= 2 {
      var s := (head + tail)[..k];
      assert s[0] == b0 && s[1] == head[1] && s[1] % 128 == LengthCode(form, n);
    }
  }

  lemma CutBody(head: Bytes, mask: Option<Mask>, payload: Bytes, k: nat)
    requires 2 <= |head| <= k < |head| + |Body(mask, payload)| && (head[1] >= 128 <==> mask.Some?)
    requires |payload| <= MAX_FRAME
    ensures ParseBody((head + Body(mask, payload))[..k], |head|, |payload|) == Refused(ShortRead)
  {
    assert (head + Body(mask, payload))[..k][1] == head[1];
  }

  /** A stream that stops inside a frame. */
  lemma CutFrame(f: Frame, k: nat)
    requires Sendable(f) && k < |Wire(f)|
    ensures Parse(Wire(f)[..k]) == Refused(ShortRead)
  {
    var b0: byte := FirstByte(f.fin, f.op);
    var head, body := Header(b0, f.mask.Some?, f.form, |f.payload|), Body(f.mask, f.payload);
    FirstByteFields(f.fin, f.op);
    if k < |head| {
      CutHeader(b0, f.mask.Some?, f.form, |f.payload|, body, k);
    } else {
      var s := (head + body)[..k];
      assert s == head + body[..k - |head|] && s[0] == b0;
      SizeOfHeader(b0, f.mask.Some?, f.form, |f.payload|, body[..k - |head|]);
      CutBody(head, f.mask, f.payload, k);
    }
  }

  /** A frame with a reserved bit set, or announcing more than the cap, whatever follows. */
  lemma RefusedFrame(b0: byte, masked: bool, form: Form, n: nat, tail: Bytes)
    requires n < WORD && (form == Short ==> n < 126) && (form == Two ==> n < 0x1_0000)
    requires b0 % 128 >= 16 || n > 0x200_0000
    ensures Parse(Header(b0, masked, form, n) + tail) == Refused(if b0 % 128 >= 16 then Extension else TooLong)
  {
    SizeOfHeader(b0, masked, form, n, tail);
  }
}
