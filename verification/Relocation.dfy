/**
 Where a program and its libraries are loaded does not change the blocks reported.
 */
module Relocation {
  import opened Tracer
  import opened Words

  // ---- Moving a program ----

  /** Two effects that differ only in where things are mapped. */
  ghost predicate EffectsAgree<D>(same: (D, D) -> bool, move: Addr -> Addr, e1: Effect<D>, e2: Effect<D>) {
    match (e1, e2)
    case (Continue(pc1, d1), Continue(pc2, d2)) => pc2 == move(pc1) && same(d1, d2)
    case (Raise(s1, pc1, d1), Raise(s2, pc2, d2)) => s1 == s2 && pc2 == move(pc1) && same(d1, d2)
    case (Exec(_, _, _), Exec(_, _, _)) => true
    case (Exit(_), Exit(_)) => true
    case _ => false
  }

  ghost predicate DeliveriesAgree<D>(same: (D, D) -> bool, move: Addr -> Addr, e1: Delivery<D>, e2: Delivery<D>) {
    match (e1, e2)
    case (Handled(pc1, d1), Handled(pc2, d2)) => pc2 == move(pc1) && same(d1, d2)
    case (Fatal, Fatal) => true
    case _ => false
  }

  /** Each instruction of the program and its libraries does the same where it is and where it moves to,
      up to `same`, which relates data holding addresses of the one run to data holding those of the other. */
  ghost predicate PositionIndependent<D(!new)>(m: Machine<D>, same: (D, D) -> bool, move: Addr -> Addr, code: map<Addr, byte>) {
    && (forall pc: Addr, d1, d2 | pc in code && same(d1, d2) ::
          EffectsAgree(same, move, m.exec(InstructionAt(m, code, pc), pc, d1), m.exec(InstructionAt(m, code, pc), move(pc), d2)))
    && (forall sig, pc: Addr, d1, d2 | same(d1, d2) ::
          DeliveriesAgree(same, move, m.deliver(sig, pc, d1), m.deliver(sig, move(pc), d2)))
  }

  /** The same mappings, each moved as a whole: the program, and every library wherever it landed. */
  ghost predicate SameProgram(c1: map<Addr, byte>, c2: map<Addr, byte>, move: Addr -> Addr) {
    forall a: Addr ::
      && (a in c1 <==> move(a) in c2)
      && (a in c1 ==> c1[a] == c2[move(a)] && move(Plus(a, 1)) == Plus(move(a), 1))
  }

  /** The program's own blocks move from base to base, and nothing else moves onto them. */
  ghost predicate Shifts(move: Addr -> Addr, blocks: seq<Addr>, b1: Addr, b2: Addr) {
    forall a: Addr, b | b in blocks :: move(a) == Plus(b2, b) <==> a == Plus(b1, b)
  }

  ghost predicate Rebased<D>(same: (D, D) -> bool, move: Addr -> Addr, p1: Proc<D>, p2: Proc<D>) {
    SameProgram(p1.image.code, p2.image.code, move) && p2.pc == move(p1.pc) && same(p1.data, p2.data)
  }

  lemma {:induction false} FetchRebased(c1: map<Addr, byte>, c2: map<Addr, byte>, move: Addr -> Addr, a: Addr, n: nat)
    requires SameProgram(c1, c2, move)
    ensures Fetch(c1, a, n) == Fetch(c2, move(a), n)
    decreases n
  {
    if n != 0 && a in c1 {
      FetchRebased(c1, c2, move, Plus(a, 1), n - 1);
    }
  }

  lemma ExecuteRebased<D(!new)>(m: Machine<D>, same: (D, D) -> bool, move: Addr -> Addr, p1: Proc<D>, p2: Proc<D>)
    requires PositionIndependent(m, same, move, p1.image.code) && Rebased(same, move, p1, p2)
    ensures EffectsAgree(same, move, Execute(m, p1), Execute(m, p2))
  {
    FetchRebased(p1.image.code, p2.image.code, move, p1.pc, m.longest);
    if p1.pc in p1.image.code && p1.image.code[p1.pc] != TRAP {
      var insn := InstructionAt(m, p1.image.code, p1.pc);
      assert EffectsAgree(same, move, m.exec(insn, p1.pc, p1.data), m.exec(insn, move(p1.pc), p2.data));
    }
  }

  lemma StepRebased<D(!new)>(m: Machine<D>, same: (D, D) -> bool, move: Addr -> Addr, p1: Proc<D>, p2: Proc<D>)
    requires PositionIndependent(m, same, move, p1.image.code) && Rebased(same, move, p1, p2) && !Execute(m, p1).Exec?
    ensures match (UntracedStep(m, p1), UntracedStep(m, p2))
      case (Running(q1), Running(q2)) => Rebased(same, move, q1, q2) && q1.image == p1.image
      case (Ended(_), Ended(_)) => true
      case _ => false
  {
    ExecuteRebased(m, same, move, p1, p2);
    match Execute(m, p1)
    case Raise(sig, pc, d) =>
      assert DeliveriesAgree(same, move, m.deliver(sig, pc, d), m.deliver(sig, move(pc), Execute(m, p2).data));
    case _ =>
  }

  function MoveAll(move: Addr -> Addr, pcs: seq<Addr>): (r: seq<Addr>)
    ensures |r| == |pcs|
  {
    if pcs == [] then [] else [move(pcs[0])] + MoveAll(move, pcs[1..])
  }

  lemma {:induction false} ImagePcsRebased<D(!new)>(m: Machine<D>, same: (D, D) -> bool, move: Addr -> Addr,
                                                    p1: Proc<D>, p2: Proc<D>, limit: nat)
    requires PositionIndependent(m, same, move, p1.image.code) && Rebased(same, move, p1, p2)
    ensures ImagePcs(m, p2, limit) == MoveAll(move, ImagePcs(m, p1, limit))
    decreases limit
  {
    if limit != 0 {
      ExecuteRebased(m, same, move, p1, p2);
      MoveOne(move, p1.pc, []);
      if !Execute(m, p1).Exec? {
        StepRebased(m, same, move, p1, p2);
        if UntracedStep(m, p1).Running? {
          var q1, q2 := UntracedStep(m, p1).proc, UntracedStep(m, p2).proc;
          ImagePcsRebased(m, same, move, q1, q2, limit - 1);
          MoveOne(move, p1.pc, ImagePcs(m, q1, limit - 1));
        }
      }
    }
  }

  lemma MoveOne(move: Addr -> Addr, pc: Addr, pcs: seq<Addr>)
    ensures MoveAll(move, [pc]) == [move(pc)]
    ensures MoveAll(move, [pc] + pcs) == [move(pc)] + MoveAll(move, pcs)
  {
    assert ([pc] + pcs)[1..] == pcs;
    assert MoveAll(move, [pc]) == [move(pc)] + MoveAll(move, []);
  }

  /** First entries may be taken before or after moving. */
  lemma {:induction false} FirstEntriesMoved(move: Addr -> Addr, pcs: seq<Addr>, w1: set<Addr>, w2: set<Addr>)
    requires forall a: Addr :: move(a) in w2 <==> a in w1
    requires forall a: Addr, b | b in w1 && move(a) == move(b) :: a == b
    ensures FirstEntries(MoveAll(move, pcs), w2) == MoveAll(move, FirstEntries(pcs, w1))
  {
    if pcs != [] {
      var a := pcs[0];
      var r1, r2 := if a in w1 then w1 - {a} else w1, if a in w1 then w2 - {move(a)} else w2;
      FirstEntriesMoved(move, pcs[1..], r1, r2);
      var rest := FirstEntries(pcs[1..], r1);
      assert ([a] + rest)[1..] == rest;
    }
  }

  lemma {:induction false} LinkMoved(move: Addr -> Addr, addrs: seq<Addr>, blocks: seq<Addr>, b1: Addr, b2: Addr)
    requires Shifts(move, blocks, b1, b2)
    requires forall i | 0 <= i < |addrs| :: Minus(addrs[i], b1) in blocks
    ensures LinkAddrs(b2, MoveAll(move, addrs)) == LinkAddrs(b1, addrs)
  {
    if addrs != [] {
      var b := Minus(addrs[0], b1);
      assert move(addrs[0]) == Plus(b2, b);
      LinkMoved(move, addrs[1..], blocks, b1, b2);
      LinkCons(b1, addrs[0], addrs[1..]);
      LinkCons(b2, move(addrs[0]), MoveAll(move, addrs[1..]));
      assert [addrs[0]] + addrs[1..] == addrs;
    }
  }

  lemma LinkCons(base: Addr, a: Addr, addrs: seq<Addr>)
    ensures LinkAddrs(base, [a] + addrs) == [Minus(a, base)] + LinkAddrs(base, addrs)
  {
  }

  lemma PlantableRebased(i1: Image, i2: Image, blocks: seq<Addr>, move: Addr -> Addr, b1: Addr, b2: Addr)
    requires SameProgram(i1.code, i2.code, move) && Shifts(move, blocks, b1, b2)
    ensures forall a: Addr :: move(a) in Plantable(i2, blocks, b2) <==> a in Plantable(i1, blocks, b1)
    ensures forall a: Addr, b | b in Plantable(i1, blocks, b1) && move(a) == move(b) :: a == b
    ensures forall a | a in Plantable(i1, blocks, b1) :: Minus(a, b1) in blocks
  {
    forall b | b in blocks
      ensures move(Plus(b1, b)) == Plus(b2, b)
      ensures Plus(b1, b) in Plantable(i1, blocks, b1) <==> Plus(b2, b) in Plantable(i2, blocks, b2)
    {
      assert move(Plus(b1, b)) == Plus(b2, b);
    }
  }

  lemma SameHitsFromTarget<D(!new)>(m: Machine<D>, same: (D, D) -> bool, move: Addr -> Addr, opt: Options,
                                    p1: Proc<D>, p2: Proc<D>, limit: nat)
    requires opt.pie && p1.image.isTarget && p2.image.isTarget
    requires p1.image.loadBase.Some? && p2.image.loadBase.Some?
    requires PositionIndependent(m, same, move, p1.image.code) && Rebased(same, move, p1, p2)
    requires Shifts(move, opt.blocks, p1.image.loadBase.value, p2.image.loadBase.value)
    ensures Entered(m, p1, opt, limit) == Entered(m, p2, opt, limit)
  {
    var b1, b2 := p1.image.loadBase.value, p2.image.loadBase.value;
    var w1, w2 := Plantable(p1.image, opt.blocks, b1), Plantable(p2.image, opt.blocks, b2);
    var pcs := ImagePcs(m, p1, limit);
    ImagePcsRebased(m, same, move, p1, p2, limit);
    PlantableRebased(p1.image, p2.image, opt.blocks, move, b1, b2);
    FirstEntriesMoved(move, pcs, w1, w2);
    forall i | 0 <= i < |FirstEntries(pcs, w1)|
      ensures FirstEntries(pcs, w1)[i] in w1
    {
      FirstEntriesMember(pcs, w1, FirstEntries(pcs, w1)[i]);
    }
    LinkMoved(move, FirstEntries(pcs, w1), opt.blocks, b1, b2);
  }

  /** The reported hits do not depend on where a position-independent program and its libraries were
      loaded, whatever helper started them. */
  lemma SameHitsAtAnyBase<D(!new)>(m: Machine<D>, same: (D, D) -> bool, move: Addr -> Addr, opt: Options,
                                   p1: Proc<D>, limit1: nat, p2: Proc<D>, limit2: nat)
    requires opt.pie
    requires Reached(m, p1, limit1).Some? && Reached(m, p2, limit2).Some?
    requires var a1, a2 := Reached(m, p1, limit1).value, Reached(m, p2, limit2).value;
      && a1.left == a2.left && a1.proc.image.isTarget && a2.proc.image.isTarget
      && a1.proc.image.loadBase.Some? && a2.proc.image.loadBase.Some?
      && PositionIndependent(m, same, move, a1.proc.image.code) && Rebased(same, move, a1.proc, a2.proc)
      && Shifts(move, opt.blocks, a1.proc.image.loadBase.value, a2.proc.image.loadBase.value)
    ensures Entered(m, p1, opt, limit1) == Entered(m, p2, opt, limit2)
  {
    var a1, a2 := Reached(m, p1, limit1).value, Reached(m, p2, limit2).value;
    EnteredOnArrival(m, p1, opt, limit1);
    EnteredOnArrival(m, p2, opt, limit2);
    SameHitsFromTarget(m, same, move, opt, a1.proc, a2.proc, a1.left);
  }

  // ---- A processor whose programs are position-independent by construction ----

  const NOP: byte := 0x90
  const SWAP: byte := 0x87

  /** One instruction falls through; another continues at the address held as data and holds the one
      behind itself instead, which is how a program calls a library and the library returns. */
  const CALLING: Machine<Addr> := Machine(
    1, _ => 1,
    (bytes, pc, d) =>
      if bytes == [NOP] then Continue(Plus(pc, 1), d)
      else if bytes == [SWAP] then Continue(d, Plus(pc, 1))
      else Exit(0),
    (_, _, _) => Fatal)

  function Moved(move: Addr -> Addr): (Addr, Addr) -> bool {
    (d1: Addr, d2: Addr) => d2 == move(d1)
  }

  lemma CallingIsAProcessor()
    ensures Processor(CALLING)
  {
  }

  /** However the mappings of a program are moved, each as a whole. */
  lemma CallingMoves(c1: map<Addr, byte>, c2: map<Addr, byte>, move: Addr -> Addr)
    requires SameProgram(c1, c2, move)
    ensures PositionIndependent(CALLING, Moved(move), move, c1)
  {
    forall pc: Addr, d1, d2 | pc in c1 && Moved(move)(d1, d2)
      ensures var insn := InstructionAt(CALLING, c1, pc);
        EffectsAgree(Moved(move), move, CALLING.exec(insn, pc, d1), CALLING.exec(insn, move(pc), d2))
    {
      assert move(Plus(pc, 1)) == Plus(move(pc), 1);
    }
  }

  // A program of three blocks at 0x10, with a library at 0x40 that it calls from the second.

  const NEAR := Image(true, Some(0x10), map[0x10 := NOP, 0x11 := SWAP, 0x12 := 0, 0x40 := NOP, 0x41 := SWAP])
  const FAR := Image(true, Some(0x110), map[0x110 := NOP, 0x111 := SWAP, 0x112 := 0, 0x240 := NOP, 0x241 := SWAP])

  /** The program up by 0x100, the library by 0x200; everything else out of their way. */
  function Apart(): Addr -> Addr {
    (a: Addr) =>
      if 0x10 <= a <= 0x13 then a + 0x100
      else if 0x40 <= a <= 0x42 then a + 0x200
      else 0
  }

  lemma ApartIsSame()
    ensures SameProgram(NEAR.code, FAR.code, Apart())
  {
  }

  lemma ApartShifts()
    ensures Shifts(Apart(), [0, 1, 2], 0x10, 0x110)
  {
  }

  lemma CallingSteps(code: map<Addr, byte>, pc: Addr)
    requires pc in code
    ensures InstructionAt(CALLING, code, pc) == [code[pc]]
  {
    assert Fetch(code, pc, 1) == [code[pc]] + Fetch(code, Plus(pc, 1), 0);
  }

  lemma OnePc(image: Image, pc: Addr, d: Addr, limit: nat)
    requires limit > 0 && pc in image.code && image.code[pc] in [NOP, SWAP]
    ensures var q := if image.code[pc] == NOP then Proc(image, Plus(pc, 1), d) else Proc(image, d, Plus(pc, 1));
      ImagePcs(CALLING, Proc(image, pc, d), limit) == [pc] + ImagePcs(CALLING, q, limit - 1)
  {
    CallingSteps(image.code, pc);
  }

  /** The witness does run through its library. */
  lemma NearRuns(limit: nat)
    requires limit >= 5
    ensures ImagePcs(CALLING, Proc(NEAR, 0x10, 0x40), limit) == [0x10, 0x11, 0x40, 0x41, 0x12]
  {
    OnePc(NEAR, 0x10, 0x40, limit);
    OnePc(NEAR, 0x11, 0x40, limit - 1);
    OnePc(NEAR, 0x40, 0x12, limit - 2);
    OnePc(NEAR, 0x41, 0x12, limit - 3);
    CallingSteps(NEAR.code, 0x12);
    assert ImagePcs(CALLING, Proc(NEAR, 0x12, 0x42), limit - 4) == [0x12];
  }

  /** Everything that the same hits depend on holds of a program and a library that move apart. */
  lemma LibrariesMoveApart(opt: Options, p1: Proc<Addr>, p2: Proc<Addr>, limit: nat)
    requires opt == Options([0, 1, 2], true) && p1 == Proc(NEAR, 0x10, 0x40) && p2 == Proc(FAR, 0x110, 0x240)
    ensures Processor(CALLING)
    ensures PositionIndependent(CALLING, Moved(Apart()), Apart(), p1.image.code) && Rebased(Moved(Apart()), Apart(), p1, p2)
    ensures Shifts(Apart(), opt.blocks, 0x10, 0x110)
    ensures Minus(Apart()(0x40), 0x40) != Minus(0x110, 0x10)
    ensures limit >= 5 ==> 0x40 in ImagePcs(CALLING, p1, limit)
    ensures Entered(CALLING, p1, opt, limit) == Entered(CALLING, p2, opt, limit)
  {
    CallingIsAProcessor();
    if limit >= 5 { NearRuns(limit); }
    ApartIsSame();
    ApartShifts();
    CallingMoves(NEAR.code, FAR.code, Apart());
    SameHitsFromTarget(CALLING, Moved(Apart()), Apart(), opt, p1, p2, limit);
  }
}
