/**
 The system-call filter compiler: a denylist becomes a flat jump program.

 The classic BPF machine is modelled with the instructions the compiler emits; a program that ran
 off its end would reach `Fault`.
 */
module Seccomp {
  import opened Words

  const OFF_NR := 0
  const OFF_ARCH := 4
  const RET_ERRNO := 0x0005_0000
  const RET_ALLOW := 0x7FFF_0000

  type Word32 = w: int | 0 <= w < 0x1_0000_0000
  type Errno = e: int | 0 <= e < 0x1_0000

  datatype Insn =
    | Load(offset: nat)
    | JumpEq(k: Word32, jt: byte, jf: byte)
    | Return(k: Word32)

  /** What the kernel shows the filter: the number and the architecture of a call. */
  datatype Call = Call(nr: Word32, arch: Word32)

  datatype Verdict = Returned(value: Word32) | Fault

  function LoadWord(c: Call, offset: nat): Option<Word32> {
    if offset == OFF_NR then Some(c.nr) else if offset == OFF_ARCH then Some(c.arch) else None
  }

  /** Runs a program. Every jump is relative to the next instruction and forward, so it ends. */
  function Interpret(prog: seq<Insn>, pc: nat, acc: Word32, c: Call): Verdict
    decreases |prog| - pc
  {
    if pc >= |prog| then Fault
    else match prog[pc]
      case Load(offset) =>
        (match LoadWord(c, offset)
         case None => Fault
         case Some(w) => Interpret(prog, pc + 1, w, c))
      case JumpEq(k, jt, jf) => Interpret(prog, pc + 1 + (if acc == k then jt else jf), acc, c)
      case Return(k) => Returned(k)
  }

  /** Every jump lands on an instruction, and the last instruction returns. */
  predicate InRange(prog: seq<Insn>) {
    && prog != [] && prog[|prog| - 1].Return?
    && forall i | 0 <= i < |prog| && prog[i].JumpEq? :: i + 1 + prog[i].jt < |prog| && i + 1 + prog[i].jf < |prog|
  }

  /** The conversion uint32(nr). */
  function Truncated(nr: int): Word32 {
    nr % 0x1_0000_0000
  }

  predicate Listed(deny: seq<int>, nr: Word32) {
    exists i | 0 <= i < |deny| :: Truncated(deny[i]) == nr
  }

  /** What the denylist means. */
  function Decision(deny: seq<int>, errno: Errno, arch: Word32, c: Call): Word32 {
    if c.arch != arch || Listed(deny, c.nr) then RET_ERRNO + errno else RET_ALLOW
  }

  /** From comparison i on, the filter refuses exactly the calls listed from i on. */
  lemma {:induction false} ComparisonsDecide(prog: seq<Insn>, deny: seq<int>, errno: Errno, i: nat, c: Call)
    requires i <= |deny| <= 255 && |prog| == |deny| + 6
    requires forall j | 0 <= j < |deny| :: prog[4 + j] == JumpEq(Truncated(deny[j]), |deny| - j, 0)
    requires prog[|deny| + 4] == Return(RET_ALLOW) && prog[|deny| + 5] == Return(RET_ERRNO + errno)
    ensures Interpret(prog, 4 + i, c.nr, c) == Returned(if Listed(deny[i..], c.nr) then RET_ERRNO + errno else RET_ALLOW)
    decreases |deny| - i
  {
    if i < |deny| {
      assert prog[4 + i] == JumpEq(Truncated(deny[i]), |deny| - i, 0);
      ComparisonsDecide(prog, deny, errno, i + 1, c);
      assert deny[i..][0] == deny[i] && deny[i..][1..] == deny[i + 1..];
      assert Listed(deny[i..], c.nr) <==> Truncated(deny[i]) == c.nr || Listed(deny[i + 1..], c.nr) by {
        ListedCons(deny[i..], c.nr);
      }
    }
  }

  lemma ListedCons(deny: seq<int>, nr: Word32)
    requires deny != []
    ensures Listed(deny, nr) <==> Truncated(deny[0]) == nr || Listed(deny[1..], nr)
  {
    if k :| 0 <= k < |deny[1..]| && Truncated(deny[1..][k]) == nr {
      assert deny[k + 1] == deny[1..][k];
    }
    if k :| 0 < k < |deny| && Truncated(deny[k]) == nr {
      assert deny[1..][k - 1] == deny[k];
    }
  }

  /** The layout the compiler emits for a list that fits. */
  predicate Emitted(prog: seq<Insn>, deny: seq<int>, errno: Errno, arch: Word32) {
    && |deny| <= 255 && |prog| == |deny| + 6
    && prog[..4] == [Load(OFF_ARCH), JumpEq(arch, 1, 0), Return(RET_ERRNO + errno), Load(OFF_NR)]
    && (forall j | 0 <= j < |deny| :: prog[4 + j] == JumpEq(Truncated(deny[j]), |deny| - j, 0))
    && prog[|deny| + 4] == Return(RET_ALLOW) && prog[|deny| + 5] == Return(RET_ERRNO + errno)
  }

  /** The program decides every call as the denylist says, and cannot run off its end. */
  lemma FilterDecides(prog: seq<Insn>, deny: seq<int>, errno: Errno, arch: Word32, c: Call)
    requires Emitted(prog, deny, errno, arch)
    ensures Interpret(prog, 0, 0, c) == Returned(Decision(deny, errno, arch, c))
    ensures InRange(prog)
  {
    assert prog[0] == prog[..4][0] && prog[1] == prog[..4][1] && prog[2] == prog[..4][2] && prog[3] == prog[..4][3];
    ComparisonsDecide(prog, deny, errno, 0, c);
    assert deny[0..] == deny;
    assert Interpret(prog, 3, arch, c) == Interpret(prog, 4, c.nr, c);
    assert Interpret(prog, 1, c.arch, c) == if c.arch == arch then Interpret(prog, 3, arch, c) else Returned(RET_ERRNO + errno);
    assert Interpret(prog, 0, 0, c) == Interpret(prog, 1, c.arch, c);
    forall i | 0 <= i < |prog| && prog[i].JumpEq? ensures i + 1 + prog[i].jt < |prog| && i + 1 + prog[i].jf < |prog| {
      if 4 <= i < |deny| + 4 {
        assert prog[4 + (i - 4)] == JumpEq(Truncated(deny[i - 4]), |deny| - (i - 4), 0);
      }
    }
  }

  /** The compiler. It fails exactly for lists of more than 255 numbers, whose first jump would not fit
      in a byte; otherwise the program refuses exactly the foreign and the listed calls. */
  method BuildSeccompFilter(deny: seq<int>, errno: Errno, arch: Word32) returns (r: Option<seq<Insn>>)
    ensures r.None? <==> |deny| > 255
    ensures r.Some? ==> InRange(r.value) && |r.value| == |deny| + 6
    ensures r.Some? ==> forall c :: Interpret(r.value, 0, 0, c) == Returned(Decision(deny, errno, arch, c))
    ensures r.Some? ==> Emitted(r.value, deny, errno, arch)
  {
    var prog := [Load(OFF_ARCH), JumpEq(arch, 1, 0), Return(RET_ERRNO + errno), Load(OFF_NR)];
    for i := 0 to |deny|
      invariant |prog| == 4 + i && (i > 0 ==> |deny| <= 255)
      invariant prog[..4] == [Load(OFF_ARCH), JumpEq(arch, 1, 0), Return(RET_ERRNO + errno), Load(OFF_NR)]
      invariant forall j | 0 <= j < i :: prog[4 + j] == JumpEq(Truncated(deny[j]), |deny| - j, 0)
    {
      var remaining := |deny| - i - 1;
      prog := prog + [JumpEq(Truncated(deny[i]), (remaining + 1) % 256, 0)];
      if remaining + 1 > 255 {
        return None;
      }
    }
    prog := prog + [Return(RET_ALLOW), Return(RET_ERRNO + errno)];
    forall c ensures Interpret(prog, 0, 0, c) == Returned(Decision(deny, errno, arch, c)) && InRange(prog) {
      FilterDecides(prog, deny, errno, arch, c);
    }
    FilterDecides(prog, deny, errno, arch, Call(0, 0));
    return Some(prog);
  }

  /** The decision in numbers: a foreign architecture or a listed number fails with the given error, the
      rest is allowed. A list entry stands for its low 32 bits. */
  lemma DecisionIs(deny: seq<int>, errno: Errno, arch: Word32, c: Call)
    ensures Decision(deny, errno, arch, c)
      == if c.arch != arch || exists i :: 0 <= i < |deny| && deny[i] % 0x1_0000_0000 == c.nr
         then 0x0005_0000 + errno else 0x7FFF_0000
  {
    if Listed(deny, c.nr) {
      var i :| 0 <= i < |deny| && Truncated(deny[i]) == c.nr;
      assert deny[i] % 0x1_0000_0000 == c.nr;
    }
    if i :| 0 <= i < |deny| && deny[i] % 0x1_0000_0000 == c.nr {
      assert Truncated(deny[i]) == c.nr;
    }
  }

  /** The program in numbers, instruction by instruction, and what the kernel shows it: the number of the
      call in the first word, the architecture in the second. */
  lemma ProgramIs(prog: seq<Insn>, deny: seq<int>, errno: Errno, arch: Word32, c: Call)
    requires Emitted(prog, deny, errno, arch)
    ensures |deny| <= 255 && |prog| == |deny| + 6
    ensures prog[0] == Load(4) && prog[1] == JumpEq(arch, 1, 0) && prog[2] == Return(0x0005_0000 + errno) && prog[3] == Load(0)
    ensures forall i | 0 <= i < |deny| :: prog[i + 4] == JumpEq(deny[i] % 0x1_0000_0000, |deny| - i, 0)
    ensures prog[|deny| + 4] == Return(0x7FFF_0000) && prog[|deny| + 5] == Return(0x0005_0000 + errno)
    ensures LoadWord(c, 0) == Some(c.nr) && LoadWord(c, 4) == Some(c.arch) && forall o | o != 0 && o != 4 :: LoadWord(c, o) == None
  {
    assert prog[0] == prog[..4][0] && prog[1] == prog[..4][1] && prog[2] == prog[..4][2] && prog[3] == prog[..4][3];
    assert forall i | 0 <= i < |deny| :: prog[4 + i] == JumpEq(deny[i] % 0x1_0000_0000, |deny| - i, 0);
  }
}
