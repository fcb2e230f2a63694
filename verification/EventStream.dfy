/**
 The live event stream: what the server writes as server-sent events and what the client reads back.

 Text is a sequence of characters. The server's loop is driven by the list of things that woke it,
 and the client's callback is a predicate of every call it has had so far.
 */
module EventStream {
  import opened Words

  datatype Frame = Frame(kind: string, data: string)

  /** One thing the server writes: an event frame, or the comment that keeps an idle stream open. */
  datatype Piece = Sent(frame: Frame) | Idle

  function Wire(f: Frame): string {
    "event: " + f.kind + "\n" + ("data: " + f.data) + "\n\n"
  }

  function Text(p: Piece): string {
    match p
    case Sent(f) => Wire(f)
    case Idle => ": keep-alive" + "\n\n"
  }

  function Stream(ps: seq<Piece>): string {
    if ps == [] then "" else Text(ps[0]) + Stream(ps[1..])
  }

  function FramesOf(ps: seq<Piece>): seq<Frame> {
    if ps == [] then []
    else (if ps[0].Sent? then [ps[0].frame] else []) + FramesOf(ps[1..])
  }

  // ----- White space -----

  predicate IsSpace(c: char) {
    || '\t' <= c <= '\r'
    || c == ' ' || c == '\U{0085}' || c == '\U{00A0}' || c == '\U{1680}'
    || '\U{2000}' <= c <= '\U{200A}'
    || c == '\U{2028}' || c == '\U{2029}' || c == '\U{202F}' || c == '\U{205F}' || c == '\U{3000}'
  }

  function TrimLeft(s: string): (t: string)
    ensures |t| <= |s|
  {
    if s != "" && IsSpace(s[0]) then TrimLeft(s[1..]) else s
  }

  function TrimRight(s: string): (t: string)
    ensures |t| <= |s|
  {
    if s != "" && IsSpace(s[|s| - 1]) then TrimRight(s[..|s| - 1]) else s
  }

  function Trim(s: string): string {
    TrimRight(TrimLeft(s))
  }

  predicate Trimmed(s: string) {
    s == "" || (!IsSpace(s[0]) && !IsSpace(s[|s| - 1]))
  }

  lemma {:induction false} TrimLeftKeeps(s: string)
    ensures var t := TrimLeft(s); t == s[|s| - |t|..] && (t != "" ==> !IsSpace(t[0]))
  {
    if s != "" && IsSpace(s[0]) {
      TrimLeftKeeps(s[1..]);
    }
  }

  lemma {:induction false} TrimRightKeeps(s: string)
    ensures var t := TrimRight(s); t == s[..|t|] && (t != "" ==> !IsSpace(t[|t| - 1]))
    decreases |s|
  {
    if s != "" && IsSpace(s[|s| - 1]) {
      TrimRightKeeps(s[..|s| - 1]);
    }
  }

  lemma TrimKeeps(s: string)
    ensures Trim(s) == s <==> Trimmed(s)
  {
    TrimLeftKeeps(s);
    TrimRightKeeps(TrimLeft(s));
  }

  lemma TrimInside(s: string)
    ensures forall c | c in Trim(s) :: c in s
  {
    TrimLeftKeeps(s);
    TrimRightKeeps(TrimLeft(s));
  }

  lemma TrimSkips(s: string)
    ensures Trim(" " + s) == Trim(s)
  {
    assert (" " + s)[1..] == s;
  }

  lemma {:induction false} TrimDropsReturn(s: string)
    ensures Trim(s + "\r") == Trim(s)
    decreases |s|
  {
    var p := s + "\r";
    if s == "" {
      assert p[1..] == "";
    } else if IsSpace(s[0]) {
      assert p[1..] == s[1..] + "\r";
      TrimDropsReturn(s[1..]);
    } else {
      assert p[..|p| - 1] == s;
    }
  }

  /** The scanner removes one carriage return before the newline. */
  function DropReturn(line: string): string {
    if line != "" && line[|line| - 1] == '\r' then line[..|line| - 1] else line
  }

  lemma TrimDropped(s: string)
    ensures Trim(DropReturn(s)) == Trim(s)
  {
    if s != "" && s[|s| - 1] == '\r' {
      assert s == s[..|s| - 1] + "\r";
      TrimDropsReturn(s[..|s| - 1]);
    }
  }

  // ----- Lines -----

  function LineEnd(s: string): (n: nat)
    ensures n <= |s|
  {
    if s == "" || s[0] == '\n' then 0 else 1 + LineEnd(s[1..])
  }

  function After(s: string): string {
    if LineEnd(s) < |s| then s[LineEnd(s) + 1..] else ""
  }

  function Lines(s: string): seq<string>
    decreases |s|
  {
    if s == "" then [] else [DropReturn(s[..LineEnd(s)])] + Lines(After(s))
  }

  lemma {:induction false} LineEndIs(s: string)
    ensures var n := LineEnd(s); '\n' !in s[..n] && (n < |s| ==> s[n] == '\n')
    ensures '\n' in s ==> LineEnd(s) < |s|
  {
    if s != "" && s[0] != '\n' {
      LineEndIs(s[1..]);
      assert s[..LineEnd(s)] == [s[0]] + s[1..][..LineEnd(s[1..])];
    }
  }

  lemma {:induction false} LineEndOf(l: string, t: string)
    requires '\n' !in l
    ensures LineEnd(l + "\n" + t) == |l| && LineEnd(l) == |l|
    decreases |l|
  {
    if l != "" {
      assert (l + "\n" + t)[1..] == l[1..] + "\n" + t;
      LineEndOf(l[1..], t);
    }
  }

  lemma NextLine(l: string, t: string)
    requires '\n' !in l
    ensures Lines(l + "\n" + t) == [DropReturn(l)] + Lines(t)
  {
    LineEndOf(l, t);
    var s := l + "\n" + t;
    assert s[..|l|] == l && s[|l| + 1..] == t;
  }

  lemma LastLine(l: string)
    requires '\n' !in l
    ensures Lines(l) == if l == "" then [] else [DropReturn(l)]
  {
    LineEndOf(l, "");
    assert l[..|l|] == l;
    assert [DropReturn(l)] + [] == [DropReturn(l)];
  }

  // ----- Reading -----

  /** What the reader holds between two lines. */
  datatype Reader = Reader(kind: string, data: string)

  const FRESH := Reader("", "")

  predicate StartsWith(line: string, p: string) {
    |p| <= |line| && line[..|p|] == p
  }

  /** A line that is not blank. */
  function Absorb(r: Reader, line: string): Reader {
    if StartsWith(line, ":") then r
    else if StartsWith(line, "event:") then r.(kind := Trim(line[6..]))
    else if StartsWith(line, "data:") then
      r.(data := if r.data != "" then r.data + "\n" + Trim(line[5..]) else Trim(line[5..]))
    else r
  }

  /** The frames some lines hold, for a callback that never says stop. */
  function Parse(ls: seq<string>, r: Reader): seq<Frame> {
    if ls == [] then []
    else if ls[0] == "" then Ended(r) + Parse(ls[1..], FRESH)
    else Parse(ls[1..], Absorb(r, ls[0]))
  }

  /** What a blank line delivers. */
  function Ended(r: Reader): seq<Frame> {
    if r.data != "" then [Frame(r.kind, r.data)] else []
  }

  function Read(s: string): seq<Frame> {
    Parse(Lines(s), FRESH)
  }

  /** The calls made: frames in order from the n-th on, until one is refused. */
  function UpTo(fs: seq<Frame>, n: nat, keep: seq<Frame> -> bool): (calls: seq<Frame>)
    requires n <= |fs|
    ensures n <= |calls| <= |fs| && calls == fs[..|calls|]
    ensures forall i | n < i < |calls| :: keep(fs[..i])
    ensures |calls| < |fs| ==> n < |calls| && !keep(calls)
    decreases |fs| - n
  {
    if n == |fs| then fs
    else if !keep(fs[..n + 1]) then fs[..n + 1] else UpTo(fs, n + 1, keep)
  }

  lemma OneMore(calls: seq<Frame>, f: Frame, rest: seq<Frame>, keep: seq<Frame> -> bool)
    ensures UpTo(calls + ([f] + rest), |calls|, keep)
         == if keep(calls + [f]) then UpTo(calls + [f] + rest, |calls| + 1, keep) else calls + [f]
  {
    var all := calls + ([f] + rest);
    assert all == calls + [f] + rest;
    assert all[..|calls| + 1] == calls + [f];
  }

  /** The two field cases of the scan loop. */
  method Field(line: string, kind: string, data: string) returns (kind': string, data': string)
    ensures Reader(kind', data') == Absorb(Reader(kind, data), line)
  {
    kind', data' := kind, data;
    if StartsWith(line, ":") {
    } else if StartsWith(line, "event:") {
      kind' := Trim(line[6..]);
    } else if StartsWith(line, "data:") {
      if data != "" {
        data' := data + "\n";
      }
      data' := data' + Trim(line[5..]);
      assert "" + Trim(line[5..]) == Trim(line[5..]);
    }
  }

  // ----- Lines that are too long -----

  /** The scanner gives up on a line that does not fit its buffer. */
  const MAX_LINE: nat := 0x400_0000

  /** What is scanned of a stream: all before the first line that is too long. */
  function Scanned(s: string): (r: string)
    ensures |r| <= |s|
    decreases |s|
  {
    if s == "" || LineEnd(s) >= MAX_LINE then ""
    else if LineEnd(s) == |s| then s
    else s[..LineEnd(s)] + "\n" + Scanned(After(s))
  }

  lemma {:induction false} ScannedIsFront(s: string)
    ensures Scanned(s) <= s
    decreases |s|
  {
    if s != "" && LineEnd(s) < MAX_LINE && LineEnd(s) < |s| {
      LineEndIs(s);
      ScannedIsFront(After(s));
      FrontOf(s, s[..LineEnd(s)], After(s), Scanned(After(s)));
    }
  }

  lemma FrontOf(s: string, l: string, t: string, r: string)
    requires |l| < |s| && l == s[..|l|] && s[|l|] == '\n' && t == s[|l| + 1..] && r <= t
    ensures l + "\n" + r <= s
  {
    TakeThrough(s, l, t, |r|);
  }

  lemma TakeThrough(s: string, l: string, t: string, k: nat)
    requires |l| < |s| && l == s[..|l|] && s[|l|] == '\n' && t == s[|l| + 1..] && k <= |t|
    ensures s[..|l| + 1 + k] == l + "\n" + t[..k]
  {
  }

  /** The lines scanned. */
  function ScannedLines(s: string): seq<string>
    decreases |s|
  {
    if s == "" || LineEnd(s) >= MAX_LINE then [] else [DropReturn(s[..LineEnd(s)])] + ScannedLines(After(s))
  }

  lemma {:induction false} ScannedLinesAre(s: string)
    ensures ScannedLines(s) == Lines(Scanned(s))
    decreases |s|
  {
    if s != "" && LineEnd(s) < MAX_LINE {
      LineEndIs(s);
      if LineEnd(s) == |s| {
        assert s[..LineEnd(s)] == s;
        LastLine(s);
      } else {
        ScannedLinesAre(After(s));
        NextLine(s[..LineEnd(s)], Scanned(After(s)));
      }
    }
  }

  predicate LongLineAt(s: string, k: nat) {
    && (k == 0 || (k <= |s| && s[k - 1] == '\n'))
    && k + MAX_LINE <= |s| && forall i | k <= i < k + MAX_LINE :: s[i] != '\n'
  }

  /** Scanning stops at the first line that is too long, and only there. */
  lemma ScannedIs(s: string)
    ensures |Scanned(s)| < |s| ==> LongLineAt(s, |Scanned(s)|)
    ensures forall k | 0 <= k < |Scanned(s)| :: !LongLineAt(s, k)
  {
    if |Scanned(s)| < |s| {
      StopsAtLong(s);
    }
    forall k: nat | LongLineAt(s, k)
      ensures |Scanned(s)| <= k
    {
      LongStops(s, k);
    }
  }

  lemma {:induction false} StopsAtLong(s: string)
    requires |Scanned(s)| < |s|
    ensures LongLineAt(s, |Scanned(s)|)
    decreases |s|
  {
    if LineEnd(s) >= MAX_LINE {
      LongHere(s);
    } else {
      ScannedLength(s);
      StopsAtLong(After(s));
      EndsLine(s);
      LongBehind(s, LineEnd(s), After(s), |Scanned(After(s))|);
    }
  }

  lemma {:induction false} LongStops(s: string, k: nat)
    requires LongLineAt(s, k)
    ensures |Scanned(s)| <= k
    decreases |s|
  {
    if LineEnd(s) < MAX_LINE {
      NotInFirstLine(s, k);
      EndsLine(s);
      LongInRest(s, LineEnd(s), After(s), k);
      LongStops(After(s), k - LineEnd(s) - 1);
      ScannedLength(s);
    }
  }

  lemma ScannedLength(s: string)
    requires s != "" && LineEnd(s) < MAX_LINE
    ensures |Scanned(s)| == if LineEnd(s) == |s| then |s| else LineEnd(s) + 1 + |Scanned(After(s))|
  {
  }

  lemma EndsLine(s: string)
    ensures LineEnd(s) < |s| ==> s[LineEnd(s)] == '\n' && After(s) == s[LineEnd(s) + 1..]
  {
    LineEndIs(s);
  }

  lemma LongHere(s: string)
    requires LineEnd(s) >= MAX_LINE
    ensures LongLineAt(s, 0)
  {
    LineEndIs(s);
    assert forall i | 0 <= i < LineEnd(s) :: s[..LineEnd(s)][i] == s[i];
  }

  lemma NotInFirstLine(s: string, k: nat)
    requires LongLineAt(s, k) && LineEnd(s) < MAX_LINE
    ensures LineEnd(s) < k
  {
    LineEndIs(s);
    var n := LineEnd(s);
    assert forall i | 0 <= i < n :: s[..n][i] == s[i];
  }

  lemma LongBehind(s: string, n: nat, t: string, k: nat)
    requires n < |s| && s[n] == '\n' && t == s[n + 1..] && LongLineAt(t, k)
    ensures LongLineAt(s, n + 1 + k)
  {
    assert forall i | n < i < |s| :: s[i] == t[i - n - 1];
  }

  lemma LongInRest(s: string, n: nat, t: string, k: nat)
    requires n < k && n < |s| && s[n] == '\n' && t == s[n + 1..] && LongLineAt(s, k)
    ensures LongLineAt(t, k - n - 1)
  {
    assert forall i | 0 <= i < |t| :: t[i] == s[i + n + 1];
  }

  /** The calls made are those for the frames before any line that is too long, and the scanner's error
      is reported unless the callback has stopped the reading before. */
  method ReadSSE(s: string, keep: seq<Frame> -> bool) returns (calls: seq<Frame>, failed: bool)
    ensures calls == UpTo(Read(Scanned(s)), 0, keep)
    ensures failed <==> |Scanned(s)| < |s| && (calls == [] || keep(calls))
  {
    calls := [];
    var kind, data := "", "";
    var rest := s;
    ghost var all := Read(Scanned(s));
    ScannedLinesAre(s);
    assert [] + all == all;
    while rest != ""
      invariant UpTo(calls + Parse(ScannedLines(rest), Reader(kind, data)), |calls|, keep) == UpTo(all, 0, keep)
      invariant calls == [] || keep(calls)
      invariant |s| - |Scanned(s)| == |rest| - |Scanned(rest)|
      decreases |rest|
    {
      if LineEnd(rest) >= MAX_LINE {
        assert calls + [] == calls;
        return calls, true;
      }
      var line := DropReturn(rest[..LineEnd(rest)]);
      ghost var tail := ScannedLines(After(rest));
      assert ScannedLines(rest) == [line] + tail;
      ParseLine(line, tail, Reader(kind, data));
      rest := After(rest);
      if line == "" {
        if data != "" {
          OneMore(calls, Frame(kind, data), Parse(tail, FRESH), keep);
          calls := calls + [Frame(kind, data)];
          if !keep(calls) {
            return calls, false;
          }
        }
        kind, data := "", "";
      } else {
        kind, data := Field(line, kind, data);
      }
    }
    assert calls + [] == calls;
    failed := false;
  }

  lemma ParseLine(line: string, tail: seq<string>, r: Reader)
    ensures Parse([line] + tail, r) ==
      if line != "" then Parse(tail, Absorb(r, line))
      else if r.data != "" then [Frame(r.kind, r.data)] + Parse(tail, FRESH)
      else Parse(tail, FRESH)
  {
    assert ([line] + tail)[1..] == tail;
    assert [] + Parse(tail, FRESH) == Parse(tail, FRESH);
  }

  // ----- Round trip -----

  /** Text that survives: it fits on one line and has no outer white space. */
  predicate Clean(s: string) {
    '\n' !in s && Trimmed(s)
  }

  predicate Faithful(f: Frame) {
    Clean(f.kind) && Clean(f.data) && f.data != ""
  }

  /** A line that is not blank and takes the reader from one state to another. */
  predicate Reads(l: string, r: Reader, r2: Reader) {
    '\n' !in l && DropReturn(l) != "" && Absorb(r, DropReturn(l)) == r2
  }

  /** A field's value behind its name and one space. */
  lemma FieldValue(name: string, v: string)
    requires name != "" && '\n' !in name && '\n' !in v
    ensures var l := DropReturn(name + (" " + v)); StartsWith(l, name) && Trim(l[|name|..]) == Trim(v)
    ensures '\n' !in name + (" " + v)
  {
    var l := name + (" " + v);
    assert l[|l| - 1] == (" " + v)[|v|];
    assert DropReturn(l)[|name|..] == DropReturn(" " + v);
    TrimDropped(" " + v);
    TrimSkips(v);
  }

  lemma AbsorbKind(line: string, r: Reader)
    requires StartsWith(line, "event:")
    ensures line != "" && Absorb(r, line) == r.(kind := Trim(line[6..]))
  {
    assert line[0] == line[..6][0] == 'e';
    assert line[..1][0] == 'e';
  }

  lemma AbsorbData(line: string, r: Reader)
    requires StartsWith(line, "data:") && r.data == ""
    ensures line != "" && Absorb(r, line) == r.(data := Trim(line[5..]))
  {
    assert line[0] == line[..5][0] == 'd';
    assert line[..1][0] == 'd';
    if |line| >= 6 {
      assert line[..6][0] == 'd';
    }
  }

  lemma KindField(k: string, r: Reader)
    requires '\n' !in k
    ensures Reads("event: " + k, r, r.(kind := Trim(k)))
  {
    FieldValue("event:", k);
    assert "event: " + k == "event:" + (" " + k);
    AbsorbKind(DropReturn("event:" + (" " + k)), r);
  }

  lemma DataField(d: string, r: Reader)
    requires '\n' !in d && r.data == ""
    ensures Reads("data: " + d, r, r.(data := Trim(d)))
  {
    FieldValue("data:", d);
    assert "data: " + d == "data:" + (" " + d);
    AbsorbData(DropReturn("data:" + (" " + d)), r);
  }

  /** Two field lines and the blank line that ends the frame. */
  lemma FrameLines(l1: string, l2: string, t: string, r1: Reader, r2: Reader)
    requires Reads(l1, FRESH, r1) && Reads(l2, r1, r2)
    ensures Read((l1 + "\n" + l2 + "\n\n") + t) == Ended(r2) + Read(t)
  {
    var rest := "" + "\n" + t;
    assert (l1 + "\n" + l2 + "\n\n") + t == l1 + "\n" + (l2 + "\n" + rest);
    NextLine(l1, l2 + "\n" + rest);
    NextLine(l2, rest);
    NextLine("", t);
    ParseLine(DropReturn(l1), Lines(l2 + "\n" + rest), FRESH);
    ParseLine(DropReturn(l2), Lines(rest), r1);
    ParseLine("", Lines(t), r2);
  }

  lemma CommentLine(l: string, t: string)
    requires Reads(l, FRESH, FRESH)
    ensures Read((l + "\n\n") + t) == Read(t)
  {
    var rest := "" + "\n" + t;
    assert (l + "\n\n") + t == l + "\n" + rest;
    NextLine(l, rest);
    NextLine("", t);
    ParseLine(DropReturn(l), Lines(rest), FRESH);
    ParseLine("", Lines(t), FRESH);
  }

  /** Without newlines inside, a frame is read as its trimmed fields, unless no data is left. */
  lemma OneFrame(f: Frame, t: string)
    requires '\n' !in f.kind && '\n' !in f.data
    ensures Read(Wire(f) + t) == Ended(Reader(Trim(f.kind), Trim(f.data))) + Read(t)
  {
    var r := Reader(Trim(f.kind), "");
    KindField(f.kind, FRESH);
    DataField(f.data, r);
    FrameLines("event: " + f.kind, "data: " + f.data, t, r, r.(data := Trim(f.data)));
  }

  lemma OnePiece(p: Piece, t: string)
    requires p.Sent? ==> Faithful(p.frame)
    ensures Read(Text(p) + t) == FramesOf([p]) + Read(t)
  {
    match p
    case Sent(f) =>
      TrimKeeps(f.kind);
      TrimKeeps(f.data);
      OneFrame(f, t);
    case Idle =>
      CommentLine(": keep-alive", t);
  }

  /** Frames interleaved with keep-alive comments come back as exactly those frames, in order. */
  lemma {:induction false} ReadStream(ps: seq<Piece>)
    requires forall p | p in ps && p.Sent? :: Faithful(p.frame)
    ensures Read(Stream(ps)) == FramesOf(ps)
  {
    if ps != [] {
      ReadStream(ps[1..]);
      OnePiece(ps[0], Stream(ps[1..]));
    }
  }

  // ----- A connection cut short -----

  /** How many pieces fit whole in the first n characters. */
  function Whole(ps: seq<Piece>, n: nat): (k: nat)
    ensures k <= |ps|
  {
    if ps == [] || n < |Text(ps[0])| then 0 else 1 + Whole(ps[1..], n - |Text(ps[0])|)
  }

  lemma NoFrameInOneLine(l: string, r: Reader)
    requires '\n' !in l && r.data == ""
    ensures Parse(Lines(l), r) == []
  {
    LastLine(l);
    assert [DropReturn(l)] + [] == [DropReturn(l)];
    ParseLine(DropReturn(l), [], r);
  }

  lemma PartOfComment(l: string, n: nat)
    requires Reads(l, FRESH, FRESH)
    requires n < |l| + 2
    ensures Read((l + "\n\n")[..n]) == []
  {
    var s := (l + "\n\n")[..n];
    if n <= |l| {
      assert s == l[..n];
      NoFrameInOneLine(s, FRESH);
    } else {
      assert s == l + "\n" + "";
      NextLine(l, "");
      ParseLine(DropReturn(l), [], FRESH);
    }
  }

  lemma PartOfFields(l1: string, l2: string, n: nat, r: Reader, r2: Reader)
    requires Reads(l1, FRESH, r) && Reads(l2, r, r2) && r.data == ""
    requires n < |l1| + |l2| + 3
    ensures Read((l1 + "\n" + l2 + "\n\n")[..n]) == []
  {
    var s := (l1 + "\n" + l2 + "\n\n")[..n];
    if n <= |l1| {
      assert s == l1[..n];
      NoFrameInOneLine(s, FRESH);
    } else {
      var m := n - |l1| - 1;
      var rest := if m <= |l2| then l2[..m] else l2 + "\n" + "";
      assert s == l1 + "\n" + rest;
      NextLine(l1, rest);
      ParseLine(DropReturn(l1), Lines(rest), FRESH);
      if m <= |l2| {
        NoFrameInOneLine(rest, r);
      } else {
        NextLine(l2, "");
        ParseLine(DropReturn(l2), [], r);
      }
    }
  }

  /** Part of one piece, cut before its end, holds no frame. */
  lemma PartOfOne(p: Piece, n: nat)
    requires p.Sent? ==> Faithful(p.frame)
    requires n < |Text(p)|
    ensures Read(Text(p)[..n]) == []
  {
    match p
    case Idle =>
      PartOfComment(": keep-alive", n);
    case Sent(f) =>
      var r := Reader(Trim(f.kind), "");
      KindField(f.kind, FRESH);
      DataField(f.data, r);
      PartOfFields("event: " + f.kind, "data: " + f.data, n, r, r.(data := Trim(f.data)));
  }

  /** A cut falls behind some whole pieces and inside the next. */
  lemma {:induction false} CutSplits(ps: seq<Piece>, n: nat) returns (rest: string)
    requires n <= |Stream(ps)|
    ensures var k := Whole(ps, n);
      && Stream(ps)[..n] == Stream(ps[..k]) + rest
      && if k == |ps| then rest == "" else |rest| < |Text(ps[k])| && rest == Text(ps[k])[..|rest|]
    decreases |ps|
  {
    rest := "";
    if ps != [] {
      CutAt(Text(ps[0]), Stream(ps[1..]), n);
      if n < |Text(ps[0])| {
        rest := Text(ps[0])[..n];
        assert Stream(ps[..0]) + rest == rest;
      } else {
        var m := n - |Text(ps[0])|;
        rest := CutSplits(ps[1..], m);
        var k := Whole(ps[1..], m);
        assert ps[..k + 1][1..] == ps[1..][..k];
        Regroup(Text(ps[0]), Stream(ps[1..][..k]), rest);
      }
    }
  }

  lemma {:induction false} ReadThen(ps: seq<Piece>, t: string)
    requires forall p | p in ps && p.Sent? :: Faithful(p.frame)
    ensures Read(Stream(ps) + t) == FramesOf(ps) + Read(t)
    decreases |ps|
  {
    if ps == [] {
      assert Stream(ps) + t == t;
    } else {
      ReadThen(ps[1..], t);
      OnePieceMore(ps[0], Stream(ps[1..]), t, FramesOf(ps[1..]));
      FramesOfFirst(ps);
    }
  }

  lemma OnePieceMore(p: Piece, s: string, t: string, fs: seq<Frame>)
    requires (p.Sent? ==> Faithful(p.frame)) && Read(s + t) == fs + Read(t)
    ensures Read(Text(p) + s + t) == FramesOf([p]) + fs + Read(t)
  {
    OnePiece(p, s + t);
    Regroup(Text(p), s, t);
    Regroup(FramesOf([p]), fs, Read(t));
  }

  lemma FramesOfFirst(ps: seq<Piece>)
    requires ps != []
    ensures FramesOf(ps) == FramesOf([ps[0]]) + FramesOf(ps[1..])
  {
  }

  lemma CutReads(ps: seq<Piece>, n: nat, part: string)
    requires forall p | p in ps && p.Sent? :: Faithful(p.frame)
    requires n <= |Stream(ps)| && part == Stream(ps)[..n]
    ensures Read(part) == FramesOf(ps[..Whole(ps, n)])
  {
    var rest := CutSplits(ps, n);
    var k := Whole(ps, n);
    ReadThen(ps[..k], rest);
    if k < |ps| {
      PartOfOne(ps[k], |rest|);
    }
  }

  /** A connection cut at any character loses only the frame it was in the middle of. */
  lemma CutStream(ps: seq<Piece>, n: nat)
    requires forall p | p in ps && p.Sent? :: Faithful(p.frame)
    requires n <= |Stream(ps)|
    ensures Read(Stream(ps)[..n]) == FramesOf(ps[..Whole(ps, n)])
  {
    CutReads(ps, n, Stream(ps)[..n]);
  }

  /** A line that is too long costs the frames from there on, and no other. */
  lemma LongLineCuts(ps: seq<Piece>)
    requires forall p | p in ps && p.Sent? :: Faithful(p.frame)
    ensures var part := Scanned(Stream(ps));
      |part| <= |Stream(ps)| && Read(part) == FramesOf(ps[..Whole(ps, |part|)])
  {
    ScannedIsFront(Stream(ps));
    CutReads(ps, |Scanned(Stream(ps))|, Scanned(Stream(ps)));
  }

  lemma CutAt(a: string, b: string, n: nat)
    requires n <= |a| + |b|
    ensures (a + b)[..n] == if n < |a| then a[..n] else a + b[..n - |a|]
  {
  }

  // ----- Exactly which frames survive -----

  lemma {:induction false} KindsHaveNoNewline(ls: seq<string>, r: Reader)
    requires '\n' !in r.kind && forall l | l in ls :: '\n' !in l
    ensures forall f | f in Parse(ls, r) :: '\n' !in f.kind
    decreases |ls|
  {
    if ls != [] {
      if ls[0] == "" {
        KindsHaveNoNewline(ls[1..], FRESH);
      } else {
        if StartsWith(ls[0], "event:") {
          TrimInside(ls[0][6..]);
          assert forall c | c in ls[0][6..] :: c in ls[0];
        }
        KindsHaveNoNewline(ls[1..], Absorb(r, ls[0]));
      }
    }
  }

  lemma {:induction false} LinesHaveNoNewline(s: string)
    ensures forall l | l in Lines(s) :: '\n' !in l
    decreases |s|
  {
    if s != "" {
      LineEndIs(s);
      LinesHaveNoNewline(After(s));
    }
  }

  /** The characters of some lines, each with its newline. */
  function Size(ls: seq<string>): nat {
    if ls == [] then 0 else |ls[0]| + 1 + Size(ls[1..])
  }

  lemma {:induction false} SizeOfLines(s: string)
    ensures Size(Lines(s)) <= |s| + 1
    ensures s != "" && s[|s| - 1] == '\n' ==> Size(Lines(s)) <= |s|
    decreases |s|
  {
    if s != "" {
      LineEndIs(s);
      SizeOfLines(After(s));
    }
  }

  /** Each field line costs more characters than it adds to the data. */
  lemma {:induction false} DataIsShorter(ls: seq<string>, r: Reader)
    ensures var fs := Parse(ls, r); fs != [] ==> |fs[0].data| <= |r.data| + (if Size(ls) > 2 then Size(ls) - 2 else 0)
    decreases |ls|
  {
    if ls != [] {
      if ls[0] == "" {
        DataIsShorter(ls[1..], FRESH);
      } else {
        DataIsShorter(ls[1..], Absorb(r, ls[0]));
      }
    }
  }

  lemma FirstFrameIsShort(l: string, name: string, d0: string, d1: string, d: string, r: Reader, r2: Reader)
    requires Reads(l, FRESH, r) && Reads(name + d0, r, r2) && |r2.data| <= |d0| && d == d0 + "\n" + d1
    ensures var fs := Read(l + "\n" + (name + d) + "\n\n"); fs != [] ==> |fs[0].data| < |d|
  {
    var t := d1 + "\n\n";
    assert l + "\n" + (name + d) + "\n\n" == l + "\n" + ((name + d0) + "\n" + t);
    NextLine(l, (name + d0) + "\n" + t);
    NextLine(name + d0, t);
    ParseLine(DropReturn(l), Lines((name + d0) + "\n" + t), FRESH);
    ParseLine(DropReturn(name + d0), Lines(t), r);
    DataIsShorter(Lines(t), r2);
    SizeOfLines(t);
  }

  lemma ManyLinesDoNotSurvive(f: Frame)
    requires '\n' !in f.kind && '\n' in f.data
    ensures Read(Wire(f)) != [f]
  {
    var n := LineEnd(f.data);
    LineEndIs(f.data);
    var d0, d1 := f.data[..n], f.data[n + 1..];
    var r := Reader(Trim(f.kind), "");
    KindField(f.kind, FRESH);
    DataField(d0, r);
    FirstFrameIsShort("event: " + f.kind, "data: ", d0, d1, f.data, r, r.(data := Trim(d0)));
  }

  /** One frame comes back alone and unchanged exactly when it is faithful. */
  lemma SurvivesExactly(f: Frame)
    ensures Read(Wire(f)) == [f] <==> Faithful(f)
  {
    if '\n' in f.kind {
      LinesHaveNoNewline(Wire(f));
      KindsHaveNoNewline(Lines(Wire(f)), FRESH);
      assert f in [f];
    } else if '\n' in f.data {
      ManyLinesDoNotSurvive(f);
    } else {
      TrimKeeps(f.kind);
      TrimKeeps(f.data);
      OneFrame(f, "");
      assert Wire(f) + "" == Wire(f) && Read("") == [];
      var r := Reader(Trim(f.kind), Trim(f.data));
      assert Ended(r) + [] == Ended(r);
      assert r.data != "" ==> Ended(r)[0] == Frame(r.kind, r.data);
    }
  }

  // ----- The server's loop -----

  /** An event has no body when it cannot be marshalled. */
  datatype Event = Event(kind: string, campaign: string, body: Option<string>)

  /** What wakes the loop: an event, with the subscription's drop count as it stands, or the ticker. */
  datatype Wake = Arrived(e: Event, dropped: nat) | Tick

  predicate Wanted(e: Event, filter: string) {
    filter == "" || e.campaign == filter
  }

  /** What one wake makes the server write. */
  function Told(w: Wake, filter: string, notice: nat -> string, last: nat): seq<Piece> {
    match w
    case Tick => [Idle]
    case Arrived(e, dropped) =>
      if !Wanted(e, filter) then []
      else if dropped != last then [Sent(Frame("dropped", notice(dropped)))] + EventPiece(e)
      else EventPiece(e)
  }

  function EventPiece(e: Event): seq<Piece> {
    if e.body.Some? then [Sent(Frame(e.kind, e.body.value))] else []
  }

  function Reported(w: Wake, filter: string, last: nat): nat {
    if w.Arrived? && Wanted(w.e, filter) then w.dropped else last
  }

  function AllTold(ws: seq<Wake>, filter: string, notice: nat -> string, last: nat): seq<Piece> {
    if ws == [] then []
    else Told(ws[0], filter, notice, last) + AllTold(ws[1..], filter, notice, Reported(ws[0], filter, last))
  }

  /** What a client should be told of: each wanted event that has a body, and before one that is wanted
      the drop count if that moved. */
  function Due(ws: seq<Wake>, filter: string, notice: nat -> string, last: nat): seq<Frame> {
    if ws == [] then []
    else match ws[0]
      case Tick => Due(ws[1..], filter, notice, last)
      case Arrived(e, dropped) =>
        var later := Due(ws[1..], filter, notice, if Wanted(e, filter) then dropped else last);
        if !Wanted(e, filter) then later
        else
          var told := if e.body.Some? then [Frame(e.kind, e.body.value)] + later else later;
          if dropped == last then told else [Frame("dropped", notice(dropped))] + told
  }

  /** What of a text gets through a connection that takes n characters. */
  function Front(s: string, n: nat): (r: string)
    ensures |r| <= n && r <= s
  {
    if |s| <= n then s else s[..n]
  }

  lemma FrontMore(a: string, b: string, n: nat)
    ensures Front(Front(a, n) + b, n) == Front(a + b, n)
    ensures |Front(a, n)| == n ==> Front(a, n) == Front(a + b, n)
  {
  }

  class Response {
    var text: string // what has reached the connection
    const room: nat  // how much the connection takes before it fails

    ghost predicate Valid()
      reads this
    {
      |text| <= room
    }

    constructor (room: nat)
      ensures Valid() && text == "" && this.room == room
    {
      text, this.room := "", room;
    }

    /** One write: all of it, or what the connection still takes and an error. */
    method Write(s: string) returns (ok: bool)
      requires Valid()
      modifies this`text
      ensures Valid() && text == Front(old(text) + s, room)
      ensures if ok then |old(text)| + |s| <= room else |text| == room
    {
      if |text| + |s| <= room {
        text := text + s;
        return true;
      }
      text := (text + s)[..room];
      return false;
    }

    /** An event that cannot be marshalled is skipped, and that is no failure. */
    method WriteSSE(kind: string, body: Option<string>) returns (ok: bool)
      requires Valid()
      modifies this`text
      ensures Valid() && text == Front(old(text) + Stream(EventPiece(Event(kind, "", body))), room)
      ensures !ok ==> |text| == room
    {
      if body.None? {
        assert text + "" == text;
        return true;
      }
      StreamOne(Sent(Frame(kind, body.value)));
      ok := Write("event: " + kind + "\n" + ("data: " + body.value) + "\n\n");
    }

    method KeepAlive() returns (ok: bool)
      requires Valid()
      modifies this`text
      ensures Valid() && text == Front(old(text) + Stream([Idle]), room)
      ensures !ok ==> |text| == room
    {
      StreamOne(Idle);
      ok := Write(": keep-alive" + "\n\n");
    }

    /** One turn of the loop, which goes on while the writes succeed; only the notice may fail unseen. */
    method OnWake(w: Wake, filter: string, notice: nat -> string, lastReported: nat) returns (reported: nat, ok: bool)
      requires Valid()
      modifies this`text
      ensures Valid() && text == Front(old(text) + Stream(Told(w, filter, notice, lastReported)), room)
      ensures reported == Reported(w, filter, lastReported)
      ensures !ok ==> |text| == room
    {
      reported, ok := lastReported, true;
      match w
      case Tick =>
        ok := KeepAlive();
      case Arrived(e, dropped) =>
        if filter != "" && e.campaign != filter {
          assert text + "" == text;
          return;
        }
        if dropped != lastReported {
          ghost var before, note := text, EventPiece(Event("dropped", "", Some(notice(dropped))));
          var _ := WriteSSE("dropped", Some(notice(dropped)));
          reported := dropped;
          FrontTwice(before, note, EventPiece(e), room);
        }
        ok := WriteSSE(e.kind, e.body);
    }

    method EventStream(wakes: seq<Wake>, filter: string, notice: nat -> string)
      requires Valid()
      modifies this`text
      ensures Valid() && text == Front(old(text) + Stream(AllTold(wakes, filter, notice, 0)), room)
    {
      var lastReported := 0;
      ghost var start, all, done := text, AllTold(wakes, filter, notice, 0), [];
      assert wakes[0..] == wakes && [] + all == all;
      assert text == start + Stream(done);
      for i := 0 to |wakes|
        invariant Valid() && text == Front(start + Stream(done), room)
        invariant done + AllTold(wakes[i..], filter, notice, lastReported) == all
      {
        ghost var told := Told(wakes[i], filter, notice, lastReported);
        FrontTwice(start, done, told, room);
        AllToldNext(wakes, i, filter, notice, lastReported, done);
        ghost var later := AllTold(wakes[i + 1..], filter, notice, Reported(wakes[i], filter, lastReported));
        var ok;
        lastReported, ok := OnWake(wakes[i], filter, notice, lastReported);
        done := done + told;
        if !ok {
          FrontTwice(start, done, later, room);
          return;
        }
      }
      assert done + [] == done;
    }
  }

  /** What was written first and what is written next, through the same connection; once it is full,
      nothing more gets through. */
  lemma FrontTwice(start: string, ps: seq<Piece>, qs: seq<Piece>, n: nat)
    ensures Front(Front(start + Stream(ps), n) + Stream(qs), n) == Front(start + Stream(ps + qs), n)
    ensures |Front(start + Stream(ps), n)| == n ==> Front(start + Stream(ps), n) == Front(start + Stream(ps + qs), n)
  {
    StreamAppend(ps, qs);
    Regroup(start, Stream(ps), Stream(qs));
    FrontMore(start + Stream(ps), Stream(qs), n);
  }

  lemma StreamOne(p: Piece)
    ensures Stream([p]) == Text(p)
  {
    assert Stream([p]) == Text(p) + Stream([]);
  }

  lemma {:induction false} StreamAppend(ps: seq<Piece>, qs: seq<Piece>)
    ensures Stream(ps + qs) == Stream(ps) + Stream(qs)
    decreases |ps|
  {
    if ps == [] {
      assert ps + qs == qs;
    } else {
      assert (ps + qs)[1..] == ps[1..] + qs;
      StreamAppend(ps[1..], qs);
      Regroup(Text(ps[0]), Stream(ps[1..]), Stream(qs));
    }
  }

  lemma Regroup<T>(a: seq<T>, b: seq<T>, c: seq<T>)
    ensures a + (b + c) == a + b + c
  {
  }

  lemma AllToldNext(ws: seq<Wake>, i: nat, filter: string, notice: nat -> string, last: nat, done: seq<Piece>)
    requires i < |ws|
    ensures done + AllTold(ws[i..], filter, notice, last)
         == (done + Told(ws[i], filter, notice, last)) + AllTold(ws[i + 1..], filter, notice, Reported(ws[i], filter, last))
  {
    assert ws[i..][1..] == ws[i + 1..];
  }

  lemma {:induction false} FramesAppend(ps: seq<Piece>, qs: seq<Piece>)
    ensures FramesOf(ps + qs) == FramesOf(ps) + FramesOf(qs)
    decreases |ps|
  {
    if ps == [] {
      assert ps + qs == qs;
    } else {
      assert (ps + qs)[1..] == ps[1..] + qs;
      FramesAppend(ps[1..], qs);
      Regroup(if ps[0].Sent? then [ps[0].frame] else [], FramesOf(ps[1..]), FramesOf(qs));
    }
  }

  lemma {:induction false} ToldIsDue(ws: seq<Wake>, filter: string, notice: nat -> string, last: nat)
    ensures FramesOf(AllTold(ws, filter, notice, last)) == Due(ws, filter, notice, last)
    decreases |ws|
  {
    if ws != [] {
      var now, next := Told(ws[0], filter, notice, last), Reported(ws[0], filter, last);
      ToldIsDue(ws[1..], filter, notice, next);
      FramesAppend(now, AllTold(ws[1..], filter, notice, next));
      if |now| == 2 {
        assert now[1..] == [now[1]];
        assert FramesOf(now) == [now[0].frame] + [now[1].frame];
      }
    }
  }

  /** Every event is written so that it survives the trip. */
  ghost predicate Sendable(ws: seq<Wake>, notice: nat -> string) {
    && (forall w | w in ws && w.Arrived? && w.e.body.Some? :: Faithful(Frame(w.e.kind, w.e.body.value)))
    && (forall n :: Clean(notice(n)) && notice(n) != "")
  }

  lemma {:induction false} ToldIsFaithful(ws: seq<Wake>, filter: string, notice: nat -> string, last: nat)
    requires Sendable(ws, notice)
    ensures forall p | p in AllTold(ws, filter, notice, last) && p.Sent? :: Faithful(p.frame)
    decreases |ws|
  {
    if ws != [] {
      ToldIsFaithful(ws[1..], filter, notice, Reported(ws[0], filter, last));
    }
  }

  lemma FramesOfFront(ps: seq<Piece>, k: nat)
    requires k <= |ps|
    ensures FramesOf(ps[..k]) <= FramesOf(ps)
  {
    assert ps == ps[..k] + ps[k..];
    FramesAppend(ps[..k], ps[k..]);
  }

  /** Server to client: over any run of the loop and however much of it gets through, the client reads the
      first of the frames that are due, and all of them if everything gets through and no line is too long. */
  lemma ClientHearsWhatIsDue(ws: seq<Wake>, filter: string, notice: nat -> string, room: nat)
    requires Sendable(ws, notice)
    ensures var sent := Stream(AllTold(ws, filter, notice, 0)); var got := Scanned(Front(sent, room));
      && Read(got) <= Due(ws, filter, notice, 0)
      && (|got| == |sent| ==> Read(got) == Due(ws, filter, notice, 0))
  {
    var ps := AllTold(ws, filter, notice, 0);
    ToldIsFaithful(ws, filter, notice, 0);
    ToldIsDue(ws, filter, notice, 0);
    var front := Front(Stream(ps), room);
    ScannedIsFront(front);
    Arriving(ps, Scanned(front));
    if |Scanned(front)| == |Stream(ps)| {
      SameFront(Scanned(front), front, Stream(ps));
      ReadStream(ps);
    }
  }

  lemma SameFront(a: string, b: string, c: string)
    requires a <= b <= c && |a| == |c|
    ensures a == c
  {
    assert a == c[..|a|];
  }

  lemma Arriving(ps: seq<Piece>, got: string)
    requires (forall p | p in ps && p.Sent? :: Faithful(p.frame)) && got <= Stream(ps)
    ensures Read(got) <= FramesOf(ps)
  {
    FrontIs(got, Stream(ps));
    CutReads(ps, |got|, got);
    FramesOfFront(ps, Whole(ps, |got|));
  }

  lemma FrontIs(a: string, b: string)
    requires a <= b
    ensures a == b[..|a|]
  {
  }
}
