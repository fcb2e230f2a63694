/**
 What the reader of the event stream makes of each line, and how lines end.
 */
module StreamLines {
  import opened EventStream
  import opened Words

  /** White space: the characters with the Unicode property White_Space. */
  lemma SpacesAre(c: char)
    ensures var n := c as int;
      IsSpace(c) <==>
        || 9 <= n <= 13 || n == 32 || n == 0x85 || n == 0xA0 || n == 0x1680 || 0x2000 <= n <= 0x200A
        || n == 0x2028 || n == 0x2029 || n == 0x202F || n == 0x205F || n == 0x3000
  {
  }

  /** A trimmed text is what is left between white space and white space. */
  lemma TrimIs(s: string, t: string)
    ensures t == Trim(s) <==>
      exists i, j | 0 <= i <= j <= |s| && t == s[i..j] ::
        && (forall k | 0 <= k < i || j <= k < |s| :: IsSpace(s[k]))
        && (i < j ==> !IsSpace(s[i]) && !IsSpace(s[j - 1]))
  {
    var u := Trim(s);
    var i, j := TrimCuts(s);
    if t == u {
      assert t == s[i..j];
    }
    if m, n :| 0 <= m <= n <= |s| && t == s[m..n] && (forall k | 0 <= k < m || n <= k < |s| :: IsSpace(s[k]))
               && (m < n ==> !IsSpace(s[m]) && !IsSpace(s[n - 1])) {
      if i < j && m < n {
        assert m == i && n == j;
      }
    }
  }

  lemma TrimCuts(s: string) returns (i: nat, j: nat)
    ensures i <= j <= |s| && Trim(s) == s[i..j]
    ensures forall k | 0 <= k < i || j <= k < |s| :: IsSpace(s[k])
    ensures i < j ==> !IsSpace(s[i]) && !IsSpace(s[j - 1])
  {
    i := LeftCut(s);
    var t := TrimLeft(s);
    j := RightCut(t);
    assert forall k | j <= k < |t| :: IsSpace(t[k]) && t[k] == s[i + k];
    assert forall k | i + j <= k < |s| :: s[k] == t[k - i];
    j := i + j;
  }

  lemma {:induction false} LeftCut(s: string) returns (i: nat)
    ensures i <= |s| && TrimLeft(s) == s[i..]
    ensures (forall k | 0 <= k < i :: IsSpace(s[k])) && (i < |s| ==> !IsSpace(s[i]))
  {
    if s != "" && IsSpace(s[0]) {
      i := LeftCut(s[1..]);
      i := i + 1;
      assert forall k | 1 <= k < i :: s[k] == s[1..][k - 1];
    } else {
      i := 0;
    }
  }

  lemma {:induction false} RightCut(s: string) returns (j: nat)
    ensures j <= |s| && TrimRight(s) == s[..j]
    ensures (forall k | j <= k < |s| :: IsSpace(s[k])) && (j > 0 ==> !IsSpace(s[j - 1]))
    decreases |s|
  {
    if s != "" && IsSpace(s[|s| - 1]) {
      j := RightCut(s[..|s| - 1]);
    } else {
      j := |s|;
    }
  }

  /** The field lines: a comment is ignored, the last event line names the kind, data lines add up. */
  lemma FieldLines(r: Reader, t: string)
    ensures Absorb(r, ":" + t) == r
    ensures Absorb(r, "event:" + t) == Reader(Trim(t), r.data)
    ensures Absorb(r, "data:" + t) == Reader(r.kind, if r.data == "" then Trim(t) else r.data + "\n" + Trim(t))
  {
    Starts(":", t);
    Starts("event:", t);
    Starts("data:", t);
  }

  lemma Starts(p: string, t: string)
    requires p != ""
    ensures var line := p + t; line[..|p|] == p && line[|p|..] == t
    ensures forall q: string | q != "" && q[0] != p[0] :: !StartsWith(p + t, q)
  {
    forall q: string | q != "" && StartsWith(p + t, q)
      ensures q[0] == p[0]
    {
      assert q[0] == (p + t)[..|q|][0];
    }
  }

  /** Any other line changes nothing. */
  lemma OtherLines(r: Reader, line: string)
    requires !(":" <= line || "event:" <= line || "data:" <= line)
    ensures Absorb(r, line) == r
  {
  }

  /** A blank line ends a frame, if there is data, and starts the next with nothing held over. */
  lemma BlankLine(r: Reader, rest: seq<string>)
    ensures Parse([""] + rest, r) == (if r.data == "" then [] else [Frame(r.kind, r.data)]) + Parse(rest, Reader("", ""))
  {
    assert ([""] + rest)[1..] == rest;
  }

  /** Lines, each with this ending. */
  function Ended(ls: seq<string>, ending: string): string {
    if ls == [] then "" else ls[0] + ending + Ended(ls[1..], ending)
  }

  predicate Plain(l: string) {
    '\n' !in l && (l == "" || l[|l| - 1] != '\r')
  }

  /** Lines that end in a carriage return and a newline are read as if they ended in the newline alone. */
  lemma {:induction false} EitherEnding(ls: seq<string>, ending: string)
    requires (forall i | 0 <= i < |ls| :: Plain(ls[i])) && (ending == "\n" || ending == "\r\n")
    ensures Lines(Ended(ls, ending)) == ls
    decreases |ls|
  {
    if ls != [] {
      EitherEnding(ls[1..], ending);
      EndedLine(ls[0], ending, Ended(ls[1..], ending));
    }
  }

  lemma EndedLine(l: string, ending: string, rest: string)
    requires Plain(l) && (ending == "\n" || ending == "\r\n")
    ensures Lines(l + ending + rest) == [l] + Lines(rest)
  {
    NextLine(l, rest);
    NextLine(l + "\r", rest);
    Regroup(l, "\r", "\n", rest);
    assert "\r" + "\n" == "\r\n" && (l + "\r")[..|l|] == l;
  }

  lemma Regroup(l: string, r: string, n: string, rest: string)
    ensures l + r + n + rest == l + (r + n) + rest
  {
  }

  /** A line of 64 MiB or more, counted from the start of the line, stops the scan. */
  lemma LongLinesAre(s: string, k: nat)
    ensures LongLineAt(s, k) <==>
      && k + 67_108_864 <= |s| && (k == 0 || s[k - 1] == '\n')
      && forall i | k <= i < k + 67_108_864 :: s[i] != '\n'
  {
  }

  // ----- What a client is told -----

  /** The ticker keeps an idle stream open, whatever is filtered. */
  lemma TickKeepsAlive(filter: string, notice: nat -> string, last: nat)
    ensures Told(Tick, filter, notice, last) == [Idle] && Text(Idle) == ": keep-alive\n\n"
    ensures Reported(Tick, filter, last) == last
  {
  }

  /** The events of one campaign, or of all, that have a body. */
  function Published(ws: seq<Wake>, filter: string): seq<Frame> {
    if ws == [] then []
    else
      (if ws[0].Arrived? && ws[0].e.body.Some? && (filter == "" || ws[0].e.campaign == filter)
       then [Frame(ws[0].e.kind, ws[0].e.body.value)] else [])
      + Published(ws[1..], filter)
  }

  function NotNotices(fs: seq<Frame>): seq<Frame> {
    if fs == [] then [] else (if fs[0].kind == "dropped" then [] else [fs[0]]) + NotNotices(fs[1..])
  }

  /** Drop notices apart, what is due is each event of the campaign that has a body, in order. */
  lemma {:induction false} EventsInOrder(ws: seq<Wake>, filter: string, notice: nat -> string, last: nat)
    requires forall i | 0 <= i < |ws| && ws[i].Arrived? :: ws[i].e.kind != "dropped"
    ensures NotNotices(Due(ws, filter, notice, last)) == Published(ws, filter)
    decreases |ws|
  {
    if ws != [] {
      match ws[0]
      case Tick => EventsInOrder(ws[1..], filter, notice, last);
      case Arrived(e, dropped) =>
        var next := if filter == "" || e.campaign == filter then dropped else last;
        var later := Due(ws[1..], filter, notice, next);
        EventsInOrder(ws[1..], filter, notice, next);
        if e.body.Some? { NotNoticesCons(Frame(e.kind, e.body.value), later); }
        var told := if e.body.Some? then [Frame(e.kind, e.body.value)] + later else later;
        NotNoticesCons(Frame("dropped", notice(dropped)), told);
    }
  }

  lemma NotNoticesCons(f: Frame, fs: seq<Frame>)
    ensures NotNotices([f] + fs) == (if f.kind == "dropped" then [] else [f]) + NotNotices(fs)
  {
    assert ([f] + fs)[1..] == fs;
  }

  /** The drop count as the last event of the campaign found it. */
  function CountAt(ws: seq<Wake>, filter: string, last: nat): nat {
    if ws == [] then last
    else
      CountAt(ws[1..], filter, if ws[0].Arrived? && (filter == "" || ws[0].e.campaign == filter) then ws[0].dropped else last)
  }

  /** What the last drop notice says, if there is one. */
  function LastNotice(fs: seq<Frame>, before: string): string {
    if fs == [] then before else LastNotice(fs[1..], if fs[0].kind == "dropped" then fs[0].data else before)
  }

  /** So a client that remembers the last notice knows the count as the last event of the campaign found it. */
  lemma {:induction false} CountIsKnown(ws: seq<Wake>, filter: string, notice: nat -> string, last: nat)
    requires forall i | 0 <= i < |ws| && ws[i].Arrived? :: ws[i].e.kind != "dropped"
    ensures LastNotice(Due(ws, filter, notice, last), notice(last)) == notice(CountAt(ws, filter, last))
    decreases |ws|
  {
    if ws != [] {
      match ws[0]
      case Tick => CountIsKnown(ws[1..], filter, notice, last);
      case Arrived(e, dropped) =>
        var next := if filter == "" || e.campaign == filter then dropped else last;
        var later := Due(ws[1..], filter, notice, next);
        CountIsKnown(ws[1..], filter, notice, next);
        if e.body.Some? { LastNoticeCons(Frame(e.kind, e.body.value), later, notice(next)); }
        var told := if e.body.Some? then [Frame(e.kind, e.body.value)] + later else later;
        LastNoticeCons(Frame("dropped", notice(dropped)), told, notice(last));
    }
  }

  lemma LastNoticeCons(f: Frame, fs: seq<Frame>, before: string)
    ensures LastNotice([f] + fs, before) == LastNotice(fs, if f.kind == "dropped" then f.data else before)
  {
    assert ([f] + fs)[1..] == fs;
  }
}
