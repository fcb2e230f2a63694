/**
 The hash-chained audit log: appending, verifying, and what a verified log rules out.

 The hash is a parameter. Nothing is assumed of it but that its digest is never the empty string,
 which is what an empty log records; instead of assuming it injective, the tamper theorem hands
 back two different encodings with one digest.
 */
module AuditLog {
  import opened Words

  type Bytes = s: seq<byte> | |s| < 0x8000_0000_0000_0000

  type Int64 = i: int | -0x8000_0000_0000_0000 <= i < 0x8000_0000_0000_0000

  const MAX_ID: Int64 := 0x7FFF_FFFF_FFFF_FFFF

  datatype Entry = Entry(id: Int64, at: Int64, actor: Bytes, action: Bytes, detail: Bytes, prevHash: Bytes, hash: Bytes)

  type Hash = seq<byte> -> Bytes

  // ---- The encoding that is hashed ----

  /** The two's complement view of a signed 64-bit number. */
  function Unsigned(i: Int64): Addr {
    if i < 0 then i + WORD else i
  }

  function Field(f: Bytes): seq<byte> {
    Le(|f|, 8) + f
  }

  function Fields(fs: seq<Bytes>): seq<byte> {
    if fs == [] then [] else Field(fs[0]) + Fields(fs[1..])
  }

  function Encoding(e: Entry): seq<byte> {
    Le(Unsigned(e.id), 8) + (Le(Unsigned(e.at), 8) + Fields([e.actor, e.action, e.detail, e.prevHash]))
  }

  lemma SplitAt(a: seq<byte>, b: seq<byte>, x: seq<byte>, y: seq<byte>)
    requires |a| == |b| && a + x == b + y
    ensures a == b && x == y
  {
    assert a == (a + x)[..|a|] && b == (b + y)[..|a|];
    assert x == (a + x)[|a|..] && y == (b + y)[|a|..];
  }

  lemma HeadSplit(a: seq<byte>, b: seq<byte>, f: seq<byte>, g: seq<byte>, x: seq<byte>, y: seq<byte>)
    requires |a| == |b| && a + f + x == b + g + y
    ensures a == b && f + x == g + y
  {
    assert a + f + x == a + (f + x) && b + g + y == b + (g + y);
    SplitAt(a, b, f + x, g + y);
  }

  /** A length prefix keeps a field from running into what follows. */
  lemma FieldInjective(f: Bytes, g: Bytes, x: seq<byte>, y: seq<byte>)
    requires Field(f) + x == Field(g) + y
    ensures f == g && x == y
  {
    HeadSplit(Le(|f|, 8), Le(|g|, 8), f, g, x, y);
    Bytes248();
    LeInjective(|f|, |g|, 8);
    SplitAt(f, g, x, y);
  }

  lemma {:induction false} FieldsInjective(fs: seq<Bytes>, gs: seq<Bytes>)
    requires |fs| == |gs| && Fields(fs) == Fields(gs)
    ensures fs == gs
  {
    if fs != [] {
      FieldInjective(fs[0], gs[0], Fields(fs[1..]), Fields(gs[1..]));
      FieldsInjective(fs[1..], gs[1..]);
      assert fs == [fs[0]] + fs[1..] && gs == [gs[0]] + gs[1..];
    }
  }

  /** No two entries that differ in a hashed field have the same encoding. */
  lemma EncodingInjective(e: Entry, f: Entry)
    requires Encoding(e) == Encoding(f)
    ensures e == f.(hash := e.hash)
  {
    var es, gs := [e.actor, e.action, e.detail, e.prevHash], [f.actor, f.action, f.detail, f.prevHash];
    SplitAt(Le(Unsigned(e.id), 8), Le(Unsigned(f.id), 8), Le(Unsigned(e.at), 8) + Fields(es), Le(Unsigned(f.at), 8) + Fields(gs));
    SplitAt(Le(Unsigned(e.at), 8), Le(Unsigned(f.at), 8), Fields(es), Fields(gs));
    Bytes248();
    LeInjective(Unsigned(e.id), Unsigned(f.id), 8);
    LeInjective(Unsigned(e.at), Unsigned(f.at), 8);
    FieldsInjective(es, gs);
    assert es[0] == gs[0] && es[1] == gs[1] && es[2] == gs[2] && es[3] == gs[3];
  }

  // ---- The chain ----

  function LastHash(log: seq<Entry>): Bytes {
    if log == [] then [] else log[|log| - 1].hash
  }

  /** Entry i of the log is numbered, linked and hashed as an append would have left it. */
  predicate Sound(h: Hash, log: seq<Entry>, i: nat)
    requires i < |log|
  {
    && log[i].id == i + 1
    && log[i].prevHash == LastHash(log[..i])
    && log[i].hash == h(Encoding(log[i]))
  }

  predicate Chain(h: Hash, log: seq<Entry>) {
    forall i: nat | i < |log| :: Sound(h, log, i)
  }

  /** What VerifyAudit accepts. */
  predicate Verifies(h: Hash, log: seq<Entry>, head: Bytes) {
    Chain(h, log) && head == LastHash(log)
  }

  ghost predicate NeverEmpty(h: Hash) {
    forall s :: h(s) != []
  }

  /** Two entries of equal digest have equal contents, or their encodings collide. */
  ghost predicate Collision(h: Hash, x: seq<byte>, y: seq<byte>) {
    x != y && h(x) == h(y)
  }

  lemma ChainPrefix(h: Hash, log: seq<Entry>, n: nat)
    requires Chain(h, log) && n <= |log|
    ensures Chain(h, log[..n])
  {
    forall i: nat | i < n ensures Sound(h, log[..n], i) {
      assert Sound(h, log, i);
      assert log[..n][..i] == log[..i];
    }
  }

  /** A chain goes on exactly as far as each entry is sound. */
  lemma ChainStep(h: Hash, log: seq<Entry>, i: nat)
    requires i < |log| && Chain(h, log[..i])
    ensures var n := i + 1; Chain(h, log[..n]) <==> Sound(h, log, i)
    ensures !Sound(h, log, i) ==> forall k: nat | i < k <= |log| :: !Chain(h, log[..k])
    ensures var n := i + 1; LastHash(log[..n]) == log[i].hash
  {
    var n := i + 1;
    assert log[..n][..i] == log[..i] && log[..n][i] == log[i];
    assert Sound(h, log[..n], i) <==> Sound(h, log, i);
    forall j: nat | j < i ensures Sound(h, log[..n], j) {
      assert Sound(h, log[..i], j) && log[..i][..j] == log[..n][..j];
    }
    forall k: nat | i < k <= |log| && Chain(h, log[..k]) ensures Sound(h, log, i) {
      assert Sound(h, log[..k], i) && log[..k][..i] == log[..i];
    }
  }

  lemma EmptyHead(h: Hash, log: seq<Entry>)
    requires NeverEmpty(h) && Chain(h, log)
    ensures LastHash(log) == [] <==> log == []
  {
    if log != [] {
      assert Sound(h, log, |log| - 1);
    }
  }

  /** Tamper evidence: two logs that verify against one head are the same log, or a collision of the
      hash is at hand. Any edit, reorder, removal or truncation under an unchanged head is one. */
  lemma {:induction false} TamperEvident(h: Hash, log1: seq<Entry>, log2: seq<Entry>, head: Bytes)
    returns (x: seq<byte>, y: seq<byte>)
    requires NeverEmpty(h) && Verifies(h, log1, head) && Verifies(h, log2, head)
    ensures log1 == log2 || Collision(h, x, y)
    decreases |log1|
  {
    x, y := [], [];
    if log1 != [] && log2 != [] {
      var n1, n2 := |log1| - 1, |log2| - 1;
      assert Sound(h, log1, n1) && Sound(h, log2, n2);
      x, y := Encoding(log1[n1]), Encoding(log2[n2]);
      if x == y {
        EncodingInjective(log1[n1], log2[n2]);
        ChainPrefix(h, log1, n1);
        ChainPrefix(h, log2, n2);
        x, y := TamperEvident(h, log1[..n1], log2[..n2], log1[n1].prevHash);
        assert log1 == log1[..n1] + [log1[n1]] && log2 == log2[..n2] + [log2[n2]];
      }
    } else {
      EmptyHead(h, log1);
      EmptyHead(h, log2);
    }
  }

  // ---- Appending ----

  function Appended(h: Hash, log: seq<Entry>, at: Int64, actor: Bytes, action: Bytes, detail: Bytes): seq<Entry>
    requires log == [] || log[|log| - 1].id < MAX_ID
  {
    var id := if log == [] then 1 else log[|log| - 1].id + 1;
    var e := Entry(id, at, actor, action, detail, LastHash(log), []);
    log + [e.(hash := h(Encoding(e)))]
  }

  /** An append verifies exactly when the entries before it formed a chain, whatever head was recorded:
      a truncation is evident until the next append and not afterwards. */
  lemma AppendVerifies(h: Hash, log: seq<Entry>, at: Int64, actor: Bytes, action: Bytes, detail: Bytes)
    requires |log| < MAX_ID && (log == [] || log[|log| - 1].id < MAX_ID)
    ensures var after := Appended(h, log, at, actor, action, detail);
      Verifies(h, after, LastHash(after)) <==> Chain(h, log)
  {
    var after := Appended(h, log, at, actor, action, detail);
    assert after[..|log|] == log;
    if Chain(h, after) {
      ChainPrefix(h, after, |log|);
    }
    if Chain(h, log) {
      forall i: nat | i < |after| ensures Sound(h, after, i) {
        if i < |log| {
          assert Sound(h, log, i) && after[..i] == log[..i];
        } else {
          assert log == [] || Sound(h, log, |log| - 1);
          assert Encoding(after[i]) == Encoding(after[i].(hash := []));
        }
      }
    }
  }

  datatype Record = Record(at: Int64, actor: Bytes, action: Bytes, detail: Bytes)

  function AppendAll(h: Hash, records: seq<Record>): (log: seq<Entry>)
    requires |records| < MAX_ID
    ensures |log| == |records|
    ensures forall i | 0 <= i < |log| :: log[i].id == i + 1
  {
    if records == [] then []
    else
      var r := records[|records| - 1];
      Appended(h, AppendAll(h, records[..|records| - 1]), r.at, r.actor, r.action, r.detail)
  }

  /** Every log built by appends verifies. */
  lemma {:induction false} AppendsVerify(h: Hash, records: seq<Record>)
    requires |records| < MAX_ID
    ensures Verifies(h, AppendAll(h, records), LastHash(AppendAll(h, records)))
  {
    if records != [] {
      var front, r := records[..|records| - 1], records[|records| - 1];
      AppendsVerify(h, front);
      AppendVerifies(h, AppendAll(h, front), r.at, r.actor, r.action, r.detail);
    }
  }

  // ---- The store ----

  datatype Fault = Removed | Unlinked | Altered | Truncated

  class Store {
    const h: Hash
    var audit: seq<Entry>  // the table, in id order
    var head: Bytes        // the head mirrored outside the table; empty when there is no row

    constructor (h: Hash)
      ensures this.h == h && audit == [] && head == []
    {
      this.h := h;
      audit, head := [], [];
    }

    method Audit(at: Int64, actor: Bytes, action: Bytes, detail: Bytes) returns (e: Entry)
      requires audit == [] || audit[|audit| - 1].id < MAX_ID
      modifies this
      ensures audit == Appended(h, old(audit), at, actor, action, detail) == old(audit) + [e]
      ensures head == LastHash(audit)
    {
      var lastID, prev: Bytes := 0, [];
      if audit != [] {
        lastID, prev := audit[|audit| - 1].id, audit[|audit| - 1].hash;
      }
      e := Entry(lastID + 1, at, actor, action, detail, prev, []);
      e := e.(hash := h(Encoding(e)));
      audit := audit + [e];
      head := e.hash;
    }

    /** Recomputes the chain; n is the length of the longest sound prefix. */
    method VerifyAudit() returns (n: nat, fault: Option<Fault>)
      ensures n <= |audit| && Chain(h, audit[..n])
      ensures forall k: nat | n < k <= |audit| :: !Chain(h, audit[..k])
      ensures fault.None? <==> Verifies(h, audit, head)
      ensures fault.Some? ==> match fault.value
        case Removed => n < |audit| && audit[n].id != n + 1
        case Unlinked => n < |audit| && audit[n].prevHash != LastHash(audit[..n])
        case Altered => n < |audit| && audit[n].hash != h(Encoding(audit[n]))
        case Truncated => n == |audit| && head != LastHash(audit)
    {
      var prev: Bytes := [];
      for i := 0 to |audit|
        invariant Chain(h, audit[..i]) && prev == LastHash(audit[..i])
      {
        ChainStep(h, audit, i);
        var e := audit[i];
        if e.id != i + 1 {
          return i, Some(Removed);
        }
        if e.prevHash != prev {
          return i, Some(Unlinked);
        }
        if h(Encoding(e)) != e.hash {
          return i, Some(Altered);
        }
        prev := e.hash;
      }
      assert audit[..|audit|] == audit;
      return |audit|, if head != prev then Some(Truncated) else None;
    }
  }
}
