/**
 Two buffers that keep the last n bytes written: the browser's ring and the peer's shifting buffer.
 Both are measured against the same specification.
 */
module Tails {
  import opened Words

  function Concat(ws: seq<seq<byte>>): seq<byte> {
    if ws == [] then [] else Concat(ws[..|ws| - 1]) + ws[|ws| - 1]
  }

  /** The last n bytes of everything written. */
  function LastOf(n: nat, w: seq<byte>): seq<byte> {
    if |w| <= n then w else w[|w| - n..]
  }

  lemma ConcatNext(ws: seq<seq<byte>>, p: seq<byte>)
    ensures Concat(ws + [p]) == Concat(ws) + p
  {
    assert (ws + [p])[..|ws|] == ws;
  }

  lemma LastOfTail(n: nat, a: seq<byte>, s: seq<byte>)
    requires |s| >= n
    ensures LastOf(n, a + s) == LastOf(n, s)
  {
    assert (a + s)[|a + s| - n..] == s[|s| - n..];
  }

  /** Only what was kept matters for what will be kept. */
  lemma LastOfLast(n: nat, w: seq<byte>, p: seq<byte>)
    ensures LastOf(n, LastOf(n, w) + p) == LastOf(n, w + p)
  {
    if |w| > n {
      var a, b := w[..|w| - n], w[|w| - n..];
      assert w + p == a + (b + p);
      LastOfTail(n, a, b + p);
    }
  }

  lemma TakeNext(w: seq<byte>, p: seq<byte>, i: nat)
    requires i < |p|
    ensures w + p[..i + 1] == w + p[..i] + [p[i]]
  {
  }

  lemma LastOfSplit(n: nat, kept: seq<byte>, p: seq<byte>)
    requires |kept| <= n
    ensures |p| >= n ==> LastOf(n, kept + p) == p[|p| - n..]
    ensures |p| < n < |kept| + |p| ==> LastOf(n, kept + p) == kept[|kept| + |p| - n..] + p
  {
  }

  // ----- The ring -----

  /** A full ring read from its oldest byte. */
  function Turned(s: seq<byte>, pos: nat): seq<byte>
    requires pos <= |s|
  {
    s[pos..] + s[..pos]
  }

  lemma TurnOne(s: seq<byte>, pos: nat, b: byte)
    requires pos < |s|
    ensures Turned(s[pos := b], if pos + 1 == |s| then 0 else pos + 1) == LastOf(|s|, Turned(s, pos) + [b])
  {
    var t, kept := s[pos := b], s[pos + 1..] + (s[..pos] + [b]);
    assert t[..pos + 1] == s[..pos] + [b];
    assert Turned(s, pos) + [b] == [s[pos]] + kept;
    LastOfTail(|s|, [s[pos]], kept);
    if pos + 1 == |s| {
      assert t == t[..pos + 1] == kept;
      assert Turned(t, 0) == t;
    } else {
      assert t[pos + 1..] == s[pos + 1..];
    }
  }

  class Ring {
    const buf: array<byte>
    var len: nat
    var wrap: bool
    var pos: nat
    ghost var writes: seq<seq<byte>>

    ghost predicate Shaped()
      reads this, buf
    {
      && len <= buf.Length && pos < buf.Length
      && (len < buf.Length ==> !wrap)
      && (!wrap ==> pos == 0)
    }

    ghost function Contents(): seq<byte>
      requires Shaped()
      reads this, buf
    {
      if wrap then Turned(buf[..], pos) else buf[..len]
    }

    /** The ring after the bytes `w`. */
    ghost predicate Holds(w: seq<byte>)
      reads this, buf
    {
      && Shaped()
      && Contents() == LastOf(buf.Length, w)
      && (wrap <==> |w| > buf.Length)
      && len == if |w| < buf.Length then |w| else buf.Length
    }

    ghost predicate Valid()
      reads this, buf
    {
      Holds(Concat(writes))
    }

    constructor (n: nat)
      requires n > 0
      ensures Valid() && fresh(buf) && buf.Length == n && writes == []
    {
      buf := new byte[n];
      len, wrap, pos, writes := 0, false, 0, [];
    }

    method Put(b: byte, ghost w: seq<byte>)
      requires Holds(w)
      modifies buf, this`len, this`pos, this`wrap
      ensures Holds(w + [b])
    {
      LastOfLast(buf.Length, w, [b]);
      if len < buf.Length {
        buf[len] := b;
        len := len + 1;
      } else {
        TurnOne(buf[..], pos, b);
        assert Turned(buf[..], 0) == buf[..];
        buf[pos] := b;
        pos := if pos + 1 == buf.Length then 0 else pos + 1;
        wrap := true;
      }
    }

    method Write(p: seq<byte>)
      requires Valid()
      modifies buf, this
      ensures Valid() && writes == old(writes) + [p]
    {
      ghost var w := Concat(writes);
      assert w + p[..0] == w;
      for i := 0 to |p|
        invariant writes == old(writes) && Holds(w + p[..i])
      {
        TakeNext(w, p, i);
        Put(p[i], w + p[..i]);
      }
      assert p[..|p|] == p;
      ConcatNext(writes, p);
      writes := writes + [p];
    }

    /** What is kept, oldest first, before the white space around it is trimmed. */
    method Raw() returns (s: seq<byte>)
      requires Valid()
      ensures s == LastOf(buf.Length, Concat(writes))
    {
      if !wrap {
        s := buf[..len];
      } else {
        s := buf[pos..] + buf[..pos];
      }
    }
  }

  // ----- The shifting buffer -----

  predicate Lost(ws: seq<seq<byte>>, limit: nat) {
    |Concat(ws)| > limit
  }

  predicate Filled(ws: seq<seq<byte>>, limit: nat) {
    exists i | 0 <= i < |ws| :: |ws[i]| >= limit
  }

  lemma FilledNext(ws: seq<seq<byte>>, p: seq<byte>, limit: nat)
    ensures Filled(ws + [p], limit) <==> Filled(ws, limit) || |p| >= limit
  {
    assert (ws + [p])[|ws|] == p;
    if Filled(ws, limit) {
      var i :| 0 <= i < |ws| && |ws[i]| >= limit;
      assert |(ws + [p])[i]| >= limit;
    }
  }

  class Shifting {
    var buf: seq<byte>
    const limit: nat
    var over: bool
    ghost var writes: seq<seq<byte>>

    ghost predicate Valid()
      reads this
    {
      && buf == LastOf(limit, Concat(writes))
      && (over <==> Lost(writes, limit) || Filled(writes, limit))
    }

    constructor (limit: nat)
      ensures Valid() && this.limit == limit && writes == []
    {
      this.limit := limit;
      buf, over, writes := [], false, [];
    }

    method Write(p: seq<byte>)
      requires Valid()
      modifies this
      ensures Valid() && writes == old(writes) + [p]
    {
      ghost var w := Concat(writes);
      ConcatNext(writes, p);
      FilledNext(writes, p, limit);
      LastOfLast(limit, w, p);
      LastOfSplit(limit, buf, p);
      writes := writes + [p];
      if |p| >= limit {
        buf := p[|p| - limit..];
        over := true;
        return;
      }
      if |buf| + |p| > limit {
        buf := buf[|buf| + |p| - limit..];
        over := true;
      }
      buf := buf + p;
    }

    /** The kept bytes, and whether the marker goes in front of them. */
    method Text() returns (marked: bool, s: seq<byte>)
      requires Valid()
      ensures s == LastOf(limit, Concat(writes))
      ensures marked <==> Lost(writes, limit) || Filled(writes, limit)
    {
      marked, s := over, buf;
    }
  }

  // ----- When the marker tells the truth -----

  lemma {:induction false} PartOfConcat(ws: seq<seq<byte>>, i: nat)
    requires i < |ws|
    ensures |ws[i]| <= |Concat(ws)|
    decreases |ws|
  {
    if i < |ws| - 1 {
      PartOfConcat(ws[..|ws| - 1], i);
    }
  }

  /** The marker is wrong exactly when one write filled the buffer to the byte and nothing else was written. */
  lemma MarkerWrongExactly(ws: seq<seq<byte>>, limit: nat)
    ensures (Lost(ws, limit) || Filled(ws, limit)) != Lost(ws, limit)
       <==> |Concat(ws)| == limit && exists i | 0 <= i < |ws| :: |ws[i]| == limit
  {
    forall i | 0 <= i < |ws|
      ensures |ws[i]| <= |Concat(ws)|
    {
      PartOfConcat(ws, i);
    }
  }

  lemma OneWrite(p: seq<byte>)
    ensures Concat([p]) == p
  {
    var ws := [p];
    assert ws[..0] == [];
    assert Concat(ws[..0]) == [];
    assert Concat(ws) == [] + p;
  }

  lemma TwoWrites(p: seq<byte>, q: seq<byte>)
    ensures Concat([p, q]) == p + q
  {
    OneWrite(p);
    ConcatNext([p], q);
    assert [p] + [q] == [p, q];
  }

  /** The same bytes, as many as the buffer holds, in one write or in two: marked or not, though
      nothing is lost either way. */
  lemma MarkerDependsOnTheCut(data: seq<byte>, k: nat, limit: nat)
    requires 0 < k < |data| == limit
    ensures Concat([data]) == Concat([data[..k], data[k..]]) == data
    ensures Filled([data], limit) && !Filled([data[..k], data[k..]], limit) && !Lost([data], limit)
  {
    OneWrite(data);
    TwoWrites(data[..k], data[k..]);
    assert |[data][0]| >= limit;
  }
}
