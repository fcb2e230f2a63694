/**
 Comparison operands turned into edits: the encodings a comparison suggests, and where an edit goes.
 */
module Substitution {
  import opened Words

  type Bytes = seq<byte>

  /** The observer keeps no record without a size, or with one beyond its operands. */
  const OPERAND_SIZE := 16

  type Operand = s: Bytes | |s| == OPERAND_SIZE witness [0, 0, 0, 0, 0, 0, 0, 0, 0, 0, 0, 0, 0, 0, 0, 0]
  type Size = n: nat | 1 <= n <= OPERAND_SIZE witness 1

  datatype Record = Record(memory: bool, size: Size, a: Operand, b: Operand)

  datatype Edit = Edit(needle: Bytes, want: Bytes)

  const MIN_WIDTH := 2

  function LeValue(s: Bytes): nat {
    if s == [] then 0 else s[0] + 256 * LeValue(s[1..])
  }

  lemma {:induction false} LeValueFits(s: Bytes)
    ensures LeValue(s) < Pow256(|s|)
  {
    if s != [] {
      LeValueFits(s[1..]);
    }
  }

  /** Bytes and number determine each other at a given width. */
  lemma {:induction false} LeOfValue(s: Bytes)
    ensures Le(LeValue(s), |s|) == s
  {
    if s != [] {
      LeOfValue(s[1..]);
      assert (s[0] + 256 * LeValue(s[1..])) / 256 == LeValue(s[1..]);
    }
  }

  lemma {:induction false} ValueOfLe(v: nat, n: nat)
    requires v < Pow256(n)
    ensures LeValue(Le(v, n)) == v
  {
    if n != 0 {
      ValueOfLe(v / 256, n - 1);
      assert Le(v, n)[1..] == Le(v / 256, n - 1);
    }
  }

  /** An operand as an unsigned number. */
  function AsNumber(s: Operand, n: Size): (v: Addr)
    requires n <= 8
  {
    Bytes248();
    LeValueFits(s[..n]);
    PowGrows(n, 8);
    LeValue(s[..n])
  }

  lemma {:induction false} PowGrows(m: nat, n: nat)
    requires m <= n
    ensures Pow256(m) <= Pow256(n)
    decreases n
  {
    if m < n {
      PowGrows(m, n - 1);
    }
  }

  function Reverse(s: Bytes): (r: Bytes)
    ensures |r| == |s|
  {
    if s == [] then [] else Reverse(s[1..]) + [s[0]]
  }

  lemma {:induction false} BeIsReversed(v: nat, n: nat)
    ensures Be(v, n) == Reverse(Le(v, n))
  {
    if n != 0 {
      BeIsReversed(v / 256, n - 1);
      assert Le(v, n)[1..] == Le(v / 256, n - 1);
    }
  }

  /** v >> 8w */
  function ShiftedDown(v: nat, w: nat): nat {
    if w == 0 then v else ShiftedDown(v / 256, w - 1)
  }

  predicate FitsIn(v: Addr, w: nat) {
    w >= 8 || ShiftedDown(v, w) == 0
  }

  lemma {:induction false} ShiftedToZero(v: nat, w: nat)
    ensures ShiftedDown(v, w) == 0 <==> v < Pow256(w)
    decreases w
  {
    if w > 0 {
      ShiftedToZero(v / 256, w - 1);
    }
  }

  lemma FitsExactly(v: Addr, w: nat)
    ensures FitsIn(v, w) <==> v < Pow256(w)
  {
    ShiftedToZero(v, w);
    if w >= 8 {
      Bytes248();
      PowGrows(8, w);
    }
  }

  function Zeros(k: nat): (s: Bytes)
    ensures |s| == k
  {
    if k == 0 then [] else Zeros(k - 1) + [0]
  }

  /** A number that fits in w bytes is those bytes and zeros at any greater width. */
  lemma {:induction false} PaddedWithZeros(v: nat, w: nat, k: nat)
    requires v < Pow256(w)
    ensures Le(v, w + k) == Le(v, w) + Zeros(k)
    decreases w + k
  {
    if w > 0 {
      PaddedWithZeros(v / 256, w - 1, k);
    } else if k > 0 {
      PaddedWithZeros(0, 0, k - 1);
      ZerosInFront(k);
    }
  }

  lemma {:induction false} ZerosInFront(k: nat)
    requires k > 0
    ensures Zeros(k) == [0] + Zeros(k - 1)
  {
    if k > 1 {
      ZerosInFront(k - 1);
    }
  }

  // ----- Numbers as text -----

  function Digit(d: nat): byte
    requires d < 16
  {
    if d < 10 then 48 + d else 87 + d
  }

  function DigitValue(c: byte): int {
    if c < 58 then c - 48 else c - 87
  }

  function Digits(v: nat, base: nat): (s: Bytes)
    requires base == 10 || base == 16
    ensures |s| >= 1
  {
    if v < base then [Digit(v)] else Digits(v / base, base) + [Digit(v % base)]
  }

  function Parsed(s: Bytes, base: nat): int {
    if s == [] then 0 else Parsed(s[..|s| - 1], base) * base + DigitValue(s[|s| - 1])
  }

  lemma {:induction false} ParsedDigits(v: nat, base: nat)
    requires base == 10 || base == 16
    ensures Parsed(Digits(v, base), base) == v
  {
    var s := Digits(v, base);
    if v < base {
      assert s[..0] == [];
      assert Parsed(s[..0], base) == 0;
    } else {
      ParsedDigits(v / base, base);
      assert s[..|s| - 1] == Digits(v / base, base);
    }
  }

  // ----- The edits -----

  datatype Form = LittleEndian(n: nat) | BigEndian(n: nat) | Decimal | Hexadecimal

  /** A number as the input may spell it. */
  function Spelled(v: Addr, f: Form): Bytes {
    match f
    case LittleEndian(n) => Le(v, n)
    case BigEndian(n) => Be(v, n)
    case Decimal => Digits(v, 10)
    case Hexadecimal => Digits(v, 16)
  }

  /** The number a spelling stands for. */
  function Read(s: Bytes, f: Form): int {
    match f
    case LittleEndian(n) => LeValue(s)
    case BigEndian(n) => BeValue(s)
    case Decimal => Parsed(s, 10)
    case Hexadecimal => Parsed(s, 16)
  }

  predicate Holds(f: Form, v: nat) {
    (f.LittleEndian? || f.BigEndian?) ==> v < Pow256(f.n)
  }

  /** A spelling wide enough for a number stands for that number. */
  lemma ReadSpelled(v: Addr, f: Form)
    requires Holds(f, v)
    ensures Read(Spelled(v, f), f) == v
  {
    match f
    case LittleEndian(n) => ValueOfLe(v, n);
    case BigEndian(n) => BeRoundTrip(v, n);
    case Decimal => ParsedDigits(v, 10);
    case Hexadecimal => ParsedDigits(v, 16);
  }

  /** Both directions of one spelling. */
  function Both(x: Bytes, y: Bytes): seq<Edit> {
    [Edit(x, y), Edit(y, x)]
  }

  /** The widths below the logged one that both operands fit in. */
  function Narrower(a: Addr, b: Addr, w: nat, n: nat): seq<Edit>
    requires w >= 1 && n <= 8
    decreases n - w
  {
    if w >= n then []
    else
      (if FitsIn(a, w) && FitsIn(b, w)
       then Both(Le(a, w), Le(b, w)) + Both(Be(a, w), Be(b, w))
       else []) + Narrower(a, b, 2 * w, n)
  }

  function Whole(a: Addr, b: Addr, n: nat): seq<Edit> {
    Both(Le(a, n), Le(b, n)) + Both(Be(a, n), Be(b, n))
    + Both(Digits(a, 10), Digits(b, 10)) + Both(Digits(a, 16), Digits(b, 16))
  }

  function Neighbours(a: Addr, b: Addr, n: nat): seq<Edit> {
    Both(Le(a, n), Le(Plus(b, 1), n)) + Both(Le(a, n), Le(Minus(b, 1), n))
  }

  function Substitutions(r: Record): seq<Edit> {
    if r.memory then Both(r.a[..r.size], r.b[..r.size])
    else if r.size < MIN_WIDTH || r.size > 8 then []
    else
      var a, b := AsNumber(r.a, r.size), AsNumber(r.b, r.size);
      Whole(a, b, r.size) + Narrower(a, b, MIN_WIDTH, r.size) + Neighbours(a, b, r.size)
  }

  method Enumerate(r: Record) returns (out: seq<Edit>)
    ensures out == Substitutions(r)
  {
    if r.memory {
      var x, y := r.a[..r.size], r.b[..r.size];
      return [Edit(x, y), Edit(y, x)];
    }
    if r.size < MIN_WIDTH || r.size > 8 {
      return [];
    }
    var a, b := AsNumber(r.a, r.size), AsNumber(r.b, r.size);
    out := Whole(a, b, r.size);
    ghost var whole := out;
    var w := MIN_WIDTH;
    while w < r.size
      invariant w >= 1
      invariant out + Narrower(a, b, w, r.size) == whole + Narrower(a, b, MIN_WIDTH, r.size)
      decreases r.size - w
    {
      ghost var rest := Narrower(a, b, 2 * w, r.size);
      if FitsIn(a, w) && FitsIn(b, w) {
        ghost var here := Both(Le(a, w), Le(b, w)) + Both(Be(a, w), Be(b, w));
        assert out + (here + rest) == out + here + rest;
        out := out + (Both(Le(a, w), Le(b, w)) + Both(Be(a, w), Be(b, w)));
      } else {
        assert [] + rest == rest;
      }
      w := 2 * w;
    }
    assert out + [] == out;
    out := out + Neighbours(a, b, r.size);
  }

  /** At most twenty edits, and none for an integer too narrow or too wide. */
  lemma AtMostTwenty(r: Record)
    ensures |Substitutions(r)| <= 20
    ensures r.memory ==> |Substitutions(r)| == 2
    ensures !r.memory && (r.size < MIN_WIDTH || r.size > 8) ==> Substitutions(r) == []
  {
    if !r.memory && MIN_WIDTH <= r.size <= 8 {
      var a, b := AsNumber(r.a, r.size), AsNumber(r.b, r.size);
      NarrowerCount(a, b, r.size);
    }
  }

  lemma NarrowerCount(a: Addr, b: Addr, n: nat)
    requires n <= 8
    ensures |Narrower(a, b, 2, n)| <= 8
  {
    assert Narrower(a, b, 8, n) == [];
    assert |Narrower(a, b, 4, n)| <= 4;
  }

  /** Every edit comes with its reverse: which operand came from the input is not known. */
  predicate BothWays(es: seq<Edit>) {
    forall e | e in es :: Edit(e.want, e.needle) in es
  }

  lemma BothWaysAppend(es: seq<Edit>, fs: seq<Edit>)
    requires BothWays(es) && BothWays(fs)
    ensures BothWays(es + fs)
  {
  }

  lemma BothBothWays(x: Bytes, y: Bytes)
    ensures BothWays(Both(x, y))
  {
    var es := Both(x, y);
    assert es[0] == Edit(x, y) && es[1] == Edit(y, x);
  }

  lemma {:induction false} NarrowerBothWays(a: Addr, b: Addr, w: nat, n: nat)
    requires w >= 1 && n <= 8
    ensures BothWays(Narrower(a, b, w, n))
    decreases n - w
  {
    if w < n {
      NarrowerBothWays(a, b, 2 * w, n);
      if FitsIn(a, w) && FitsIn(b, w) {
        var les, bes := Both(Le(a, w), Le(b, w)), Both(Be(a, w), Be(b, w));
        BothBothWays(Le(a, w), Le(b, w));
        BothBothWays(Be(a, w), Be(b, w));
        BothWaysAppend(les, bes);
        BothWaysAppend(les + bes, Narrower(a, b, 2 * w, n));
      }
    }
  }

  lemma FourBothWays(p: seq<Edit>, q: seq<Edit>, r: seq<Edit>, s: seq<Edit>)
    requires BothWays(p) && BothWays(q) && BothWays(r) && BothWays(s)
    ensures BothWays(p + q + r + s)
  {
    BothWaysAppend(p, q);
    BothWaysAppend(p + q, r);
    BothWaysAppend(p + q + r, s);
  }

  lemma SubstitutionsBothWays(r: Record)
    ensures BothWays(Substitutions(r))
  {
    if r.memory {
      BothBothWays(r.a[..r.size], r.b[..r.size]);
    } else if MIN_WIDTH <= r.size <= 8 {
      var a, b, n := AsNumber(r.a, r.size), AsNumber(r.b, r.size), r.size;
      BothBothWays(Le(a, n), Le(b, n));
      BothBothWays(Be(a, n), Be(b, n));
      BothBothWays(Digits(a, 10), Digits(b, 10));
      BothBothWays(Digits(a, 16), Digits(b, 16));
      FourBothWays(Both(Le(a, n), Le(b, n)), Both(Be(a, n), Be(b, n)),
                   Both(Digits(a, 10), Digits(b, 10)), Both(Digits(a, 16), Digits(b, 16)));
      NarrowerBothWays(a, b, MIN_WIDTH, n);
      BothBothWays(Le(a, n), Le(Plus(b, 1), n));
      BothBothWays(Le(a, n), Le(Minus(b, 1), n));
      BothWaysAppend(Both(Le(a, n), Le(Plus(b, 1), n)), Both(Le(a, n), Le(Minus(b, 1), n)));
      BothWaysAppend(Whole(a, b, n), Narrower(a, b, MIN_WIDTH, n));
      BothWaysAppend(Whole(a, b, n) + Narrower(a, b, MIN_WIDTH, n), Neighbours(a, b, n));
    }
  }

  /** The little-endian edit at the logged width is the operands' own bytes. */
  lemma NativeEditIsTheOperands(r: Record)
    requires !r.memory && MIN_WIDTH <= r.size <= 8
    ensures Substitutions(r)[..2] == Both(r.a[..r.size], r.b[..r.size])
  {
    LeOfValue(r.a[..r.size]);
    LeOfValue(r.b[..r.size]);
    var a, b := AsNumber(r.a, r.size), AsNumber(r.b, r.size);
    assert Whole(a, b, r.size)[..2] == Both(Le(a, r.size), Le(b, r.size));
  }

  /** The spellings tried: both byte orders at the logged width and at each narrower one that holds
      both operands, and the two kinds of text. */
  predicate Tried(f: Form, r: Record)
    requires r.size <= 8
  {
    var a, b := AsNumber(r.a, r.size), AsNumber(r.b, r.size);
    match f
    case Decimal => true
    case Hexadecimal => true
    case LittleEndian(n) => n == r.size || ((n == 2 || n == 4) && n < r.size && a < Pow256(n) && b < Pow256(n))
    case BigEndian(n) => n == r.size || ((n == 2 || n == 4) && n < r.size && a < Pow256(n) && b < Pow256(n))
  }

  /** However the input spells one operand, among these, there is an edit to the other, spelled alike. */
  lemma EverySpellingIsTried(r: Record, f: Form)
    requires !r.memory && MIN_WIDTH <= r.size <= 8 && Tried(f, r)
    ensures var a, b := AsNumber(r.a, r.size), AsNumber(r.b, r.size);
      && Edit(Spelled(a, f), Spelled(b, f)) in Substitutions(r)
      && Edit(Spelled(b, f), Spelled(a, f)) in Substitutions(r)
  {
    var a, b := AsNumber(r.a, r.size), AsNumber(r.b, r.size);
    var e := Edit(Spelled(a, f), Spelled(b, f));
    var all := Whole(a, b, r.size);
    if f.Decimal? {
      assert all[4] == e;
    } else if f.Hexadecimal? {
      assert all[6] == e;
    } else if f.n == r.size {
      assert all[if f.LittleEndian? then 0 else 2] == e;
    } else {
      FitsExactly(a, f.n);
      FitsExactly(b, f.n);
      NarrowerHas(a, b, r.size, f);
    }
    SubstitutionsBothWays(r);
  }

  lemma NarrowerHas(a: Addr, b: Addr, n: nat, f: Form)
    requires (f.LittleEndian? || f.BigEndian?) && (f.n == 2 || f.n == 4) && f.n < n <= 8
    requires FitsIn(a, f.n) && FitsIn(b, f.n)
    ensures Edit(Spelled(a, f), Spelled(b, f)) in Narrower(a, b, 2, n)
  {
    var here := Narrower(a, b, f.n, n);
    assert here[if f.LittleEndian? then 0 else 2] == Edit(Spelled(a, f), Spelled(b, f));
    if f.n == 4 {
      assert Narrower(a, b, 2, n)[|Narrower(a, b, 2, n)| - |here|..] == here;
    }
  }

  // ----- Where an edit goes -----

  predicate FoundAt(s: Bytes, needle: Bytes, i: nat) {
    i + |needle| <= |s| && s[i..i + |needle|] == needle
  }

  /** The first occurrence at or after `i`. */
  function Index(s: Bytes, needle: Bytes, i: nat): (r: Option<nat>)
    ensures r.Some? ==> i <= r.value && FoundAt(s, needle, r.value)
    ensures forall j | i <= j && (r.Some? ==> j < r.value) :: !FoundAt(s, needle, j)
    decreases if i <= |s| then |s| - i + 1 else 0
  {
    if i > |s| then None
    else if FoundAt(s, needle, i) then Some(i)
    else Index(s, needle, i + 1)
  }

  /** The parent with the needle's first occurrence replaced, spliced in at any width. */
  function Splice(s: Bytes, e: Edit): (r: Option<Bytes>)
    ensures r.Some? <==> exists j: nat :: FoundAt(s, e.needle, j)
    ensures r.Some? ==> exists j: nat :: FoundAt(r.value, e.want, j)
  {
    match Index(s, e.needle, 0)
    case None => None
    case Some(i) =>
      var r := s[..i] + e.want + s[i + |e.needle|..];
      assert FoundAt(r, e.want, i);
      Some(r)
  }

  /** Splicing back undoes an edit whose text does not occur earlier. */
  lemma SpliceBack(s: Bytes, e: Edit, i: nat)
    requires Index(s, e.needle, 0) == Some(i)
    requires Index(Splice(s, e).value, e.want, 0) == Some(i)
    ensures Splice(Splice(s, e).value, Edit(e.want, e.needle)) == Some(s)
  {
    var r := Splice(s, e).value;
    assert r[..i] == s[..i] && r[i + |e.want|..] == s[i + |e.needle|..];
    assert s == s[..i] + e.needle + s[i + |e.needle|..];
  }
}
