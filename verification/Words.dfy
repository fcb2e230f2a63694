/** Machine words and the small generic datatypes the other modules share. */
module Words {

  datatype Option<+T> = None | Some(value: T)

  type byte = b: int | 0 <= b < 256

  const WORD := 0x1_0000_0000_0000_0000

  /** An address or an unsigned 64-bit count. */
  type Addr = a: int | 0 <= a < WORD

  /** Unsigned 64-bit addition, which wraps. */
  function Plus(a: Addr, b: Addr): Addr {
    if a + b < WORD then a + b else a + b - WORD
  }

  /** Unsigned 64-bit subtraction, which wraps. */
  function Minus(a: Addr, b: Addr): Addr {
    if b <= a then a - b else a - b + WORD
  }

  function Pow2(n: nat): (r: nat)
    ensures r > 0
  {
    if n == 0 then 1 else 2 * Pow2(n - 1)
  }

  function Pow256(n: nat): nat {
    if n == 0 then 1 else 256 * Pow256(n - 1)
  }

  lemma Bytes248()
    ensures Pow256(2) == 0x1_0000 && Pow256(4) == 0x1_0000_0000 && Pow256(8) == WORD
  {
    assert Pow256(2) == 256 * 256;
    assert Pow256(4) == 256 * 256 * Pow256(2);
    assert Pow256(8) == 256 * 256 * 256 * 256 * Pow256(4);
  }

  // ---- Bits and bytes of numbers ----

  /** Whether bit i is set, bit 0 being the lowest. */
  predicate Bit(v: nat, i: nat)
    decreases i
  {
    if i == 0 then v % 2 == 1 else Bit(v / 2, i - 1)
  }

  function Le(v: nat, n: nat): (s: seq<byte>)
    ensures |s| == n
  {
    if n == 0 then [] else [v % 256] + Le(v / 256, n - 1)
  }

  /** n little-endian bytes determine a number below 256^n. */
  lemma {:induction false} LeInjective(v: nat, w: nat, n: nat)
    requires v < Pow256(n) && w < Pow256(n) && Le(v, n) == Le(w, n)
    ensures v == w
  {
    if n != 0 {
      assert Le(v, n)[0] == v % 256 && Le(w, n)[0] == w % 256;
      assert Le(v, n)[1..] == Le(v / 256, n - 1) && Le(w, n)[1..] == Le(w / 256, n - 1);
      LeInjective(v / 256, w / 256, n - 1);
    }
  }

  function Be(v: nat, n: nat): (s: seq<byte>)
    ensures |s| == n
  {
    if n == 0 then [] else Be(v / 256, n - 1) + [v % 256]
  }

  function BeValue(s: seq<byte>): nat {
    if s == [] then 0 else 256 * BeValue(s[..|s| - 1]) + s[|s| - 1]
  }

  lemma {:induction false} BeRoundTrip(v: nat, n: nat)
    requires v < Pow256(n)
    ensures BeValue(Be(v, n)) == v
  {
    if n != 0 {
      BeRoundTrip(v / 256, n - 1);
      assert Be(v, n)[..n - 1] == Be(v / 256, n - 1);
    }
  }
}
