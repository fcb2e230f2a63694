/**
 What a verified log is, entry by entry, and what is hashed of an entry, byte by byte.
 */
module Ledger {
  import opened AuditLog
  import opened Words

  /** The log verifies exactly when its entries are numbered from one, each records the digest of the
      one before it and of its own contents, and the head is the digest of the last. */
  lemma VerifiesExactly(h: Hash, log: seq<Entry>, head: Bytes)
    ensures Verifies(h, log, head) <==>
      && (forall i: nat | i < |log| ::
            && log[i].id == i + 1
            && (log[i].prevHash == if i == 0 then [] else log[i - 1].hash)
            && log[i].hash == h(Encoding(log[i])))
      && head == if log == [] then [] else log[|log| - 1].hash
  {
    forall i: nat | i < |log|
      ensures Sound(h, log, i) <==>
        && log[i].id == i + 1
        && (log[i].prevHash == if i == 0 then [] else log[i - 1].hash)
        && log[i].hash == h(Encoding(log[i]))
    {
      SoundIs(h, log, i);
    }
    if Chain(h, log) {
      forall i: nat | i < |log|
        ensures log[i].id == i + 1 && (log[i].prevHash == if i == 0 then [] else log[i - 1].hash) && log[i].hash == h(Encoding(log[i]))
      {
        assert Sound(h, log, i);
      }
    }
  }

  lemma SoundIs(h: Hash, log: seq<Entry>, i: nat)
    requires i < |log|
    ensures Sound(h, log, i) <==>
      && log[i].id == i + 1
      && (log[i].prevHash == if i == 0 then [] else log[i - 1].hash)
      && log[i].hash == h(Encoding(log[i]))
  {
    if i > 0 {
      assert log[..i][i - 1] == log[i - 1];
    }
  }

  // ---- The bytes that are hashed ----

  /** Eight bytes as a number, the least significant first. */
  function Number(s: seq<nat>): nat
    requires |s| == 8
  {
    s[0] + 0x100 * s[1] + 0x1_0000 * s[2] + 0x100_0000 * s[3] + 0x1_0000_0000 * s[4]
    + 0x100_0000_0000 * s[5] + 0x1_0000_0000_0000 * s[6] + 0x100_0000_0000_0000 * s[7]
  }

  /** The lengths and bytes of these fields in turn, and nothing behind them. */
  predicate AreFields(s: seq<byte>, fs: seq<Bytes>)
    decreases |fs|
  {
    if fs == [] then s == []
    else
      && 8 + |fs[0]| <= |s| && Number(s[..8]) == |fs[0]| && s[8..8 + |fs[0]|] == fs[0]
      && AreFields(s[8 + |fs[0]|..], fs[1..])
  }

  lemma LeHead(v: nat, n: nat) returns (d: byte, rest: nat)
    requires n > 0
    ensures v == d + 256 * rest && Le(v, n) == [d] + Le(rest, n - 1)
  {
    d, rest := v % 256, v / 256;
  }

  lemma LeFour(v: nat, n: nat) returns (a: byte, b: byte, c: byte, d: byte, rest: nat)
    requires n >= 4
    ensures v == a + 0x100 * b + 0x1_0000 * c + 0x100_0000 * d + 0x1_0000_0000 * rest
    ensures Le(v, n) == [a, b, c, d] + Le(rest, n - 4)
  {
    var v1, v2, v3;
    a, v1 := LeHead(v, n);
    b, v2 := LeHead(v1, n - 1);
    c, v3 := LeHead(v2, n - 2);
    d, rest := LeHead(v3, n - 3);
    FourInFront(a, b, c, d, Le(rest, n - 4));
  }

  lemma FourInFront(a: byte, b: byte, c: byte, d: byte, s: seq<byte>)
    ensures [a] + ([b] + ([c] + ([d] + s))) == [a, b, c, d] + s
  {
  }

  lemma NumberOfLe(v: Addr)
    ensures Number(Le(v, 8)) == v
  {
    var a, b, c, d, high := LeFour(v, 8);
    var e, f, g, h, none := LeFour(high, 4);
    assert Le(none, 0) == [];
    assert Le(v, 8) == [a, b, c, d, e, f, g, h];
  }

  lemma Placed(l: seq<byte>, f: seq<byte>, rest: seq<byte>)
    ensures var s := l + f + rest; s[..|l|] == l && s[|l|..|l| + |f|] == f && s[|l| + |f|..] == rest
  {
  }

  lemma {:induction false} FieldsAre(fs: seq<Bytes>)
    ensures AreFields(Fields(fs), fs)
  {
    if fs != [] {
      NumberOfLe(|fs[0]|);
      Placed(Le(|fs[0]|, 8), fs[0], Fields(fs[1..]));
      FieldsAre(fs[1..]);
    }
  }

  /** An entry is hashed as its number and time, eight bytes each, then its actor, action, detail and
      the digest before it, each behind its length; the digest of the entry itself is not part of it. */
  lemma EncodingIs(e: Entry)
    ensures var s := Encoding(e);
      && |s| >= 16
      && Number(s[..8]) == (if e.id < 0 then e.id + 0x1_0000_0000_0000_0000 else e.id)
      && Number(s[8..16]) == (if e.at < 0 then e.at + 0x1_0000_0000_0000_0000 else e.at)
      && AreFields(s[16..], [e.actor, e.action, e.detail, e.prevHash])
  {
    var fs := [e.actor, e.action, e.detail, e.prevHash];
    var front := Le(Unsigned(e.id), 8) + Le(Unsigned(e.at), 8);
    assert Encoding(e) == front + Fields(fs);
    NumberOfLe(Unsigned(e.id));
    NumberOfLe(Unsigned(e.at));
    Placed(Le(Unsigned(e.id), 8), Le(Unsigned(e.at), 8), Fields(fs));
    FieldsAre(fs);
  }

  // ---- What appends record ----

  predicate Keeps(e: Entry, r: Record) {
    e.at == r.at && e.actor == r.actor && e.action == r.action && e.detail == r.detail
  }

  /** One entry more, the next in number, with what was to be recorded; the others as they were. */
  lemma AppendRecords(h: Hash, log: seq<Entry>, r: Record)
    requires log == [] || log[|log| - 1].id < MAX_ID
    ensures var after := Appended(h, log, r.at, r.actor, r.action, r.detail);
      && |after| == |log| + 1 && (forall i | 0 <= i < |log| :: after[i] == log[i]) && Keeps(after[|log|], r)
      && after[|log|].id == if log == [] then 1 else log[|log| - 1].id + 1
  {
  }

  /** Entry i of a log that was only appended to is what was recorded as the i-th. */
  lemma {:induction false} EveryRecordIsKept(h: Hash, records: seq<Record>, i: nat)
    requires |records| < MAX_ID && i < |records|
    ensures Keeps(AppendAll(h, records)[i], records[i])
    decreases |records|
  {
    var n := |records| - 1;
    AppendRecords(h, AppendAll(h, records[..n]), records[n]);
    if i < n {
      EveryRecordIsKept(h, records[..n], i);
    }
  }
}
