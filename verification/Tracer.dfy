/**
 One-shot breakpoint tracing: a tracer patches a stopped program, restores each patch when it
 fires, and the program must not be able to tell.

 The tracee is a machine whose next step is a function of the instruction bytes at its program
 counter and of its data. Code is read only by being executed. The kernel is the function `Cont`,
 which runs the tracee to its next stop; the watchdog is a bound on the number of program
 instructions, an arbitrary number.
 */
module Tracer {
  import opened Words

  const TRAP: byte := 0xCC
  const SIGSEGV := 11
  const SIGTRAP := 5

  /** What executing one instruction does. */
  datatype Effect<D> =
    | Continue(pc: Addr, data: D)
    | Raise(sig: nat, pc: Addr, data: D)
    | Exec(image: Image, pc: Addr, data: D)
    | Exit(code: int)

  /** What a delivered signal does: run on from a handler, or die. */
  datatype Delivery<D> = Handled(pc: Addr, data: D) | Fatal

  /** A mapped program. isTarget: its path is the traced program's. loadBase: the first mapping of
      that file, when one is found. */
  datatype Image = Image(isTarget: bool, loadBase: Option<Addr>, code: map<Addr, byte>)

  datatype Proc<D> = Proc(image: Image, pc: Addr, data: D)

  /** length: of the instruction at the front of some bytes. longest: what is fetched to find it. */
  datatype Machine<!D> = Machine(
    longest: nat,
    length: seq<byte> -> nat,
    exec: (seq<byte>, Addr, D) -> Effect<D>,
    deliver: (nat, Addr, D) -> Delivery<D>)

  datatype Options = Options(blocks: seq<Addr>, pie: bool)

  datatype End = Exited(code: int) | Signaled(sig: nat) | TimedOut

  /** One executed instruction, as the program saw it. */
  datatype Visit<D> = Visit(pc: Addr, data: D)

  datatype History<D> = History(visits: seq<Visit<D>>, end: End)

  datatype Step<D> = Running(proc: Proc<D>) | Ended(end: End)

  // ---- The program on its own ----

  function Fetch(code: map<Addr, byte>, pc: Addr, n: nat): seq<byte>
    decreases n
  {
    if n == 0 || pc !in code then [] else [code[pc]] + Fetch(code, Plus(pc, 1), n - 1)
  }

  /** The instruction at the front of what could be fetched. */
  function Instruction<D>(m: Machine<D>, bytes: seq<byte>): (insn: seq<byte>)
    ensures insn <= bytes
  {
    if m.length(bytes) <= |bytes| then bytes[..m.length(bytes)] else bytes
  }

  function InstructionAt<D>(m: Machine<D>, code: map<Addr, byte>, pc: Addr): seq<byte> {
    Instruction(m, Fetch(code, pc, m.longest))
  }

  function Execute<D>(m: Machine<D>, p: Proc<D>): Effect<D> {
    if p.pc !in p.image.code then Raise(SIGSEGV, p.pc, p.data)
    else if p.image.code[p.pc] == TRAP then Raise(SIGTRAP, Plus(p.pc, 1), p.data)
    else m.exec(InstructionAt(m, p.image.code, p.pc), p.pc, p.data)
  }

  /** What the processor itself raises: signal 11 at an address with nothing mapped, and at the trap byte 0xCC
      signal 5 behind it. */
  lemma Raised<D>(m: Machine<D>, p: Proc<D>)
    ensures p.pc !in p.image.code ==> Execute(m, p) == Raise(11, p.pc, p.data)
    ensures p.pc in p.image.code && p.image.code[p.pc] == 0xCC ==>
      Execute(m, p) == Raise(5, if p.pc == 0xFFFF_FFFF_FFFF_FFFF then 0 else p.pc + 1, p.data)
  {
  }

  /** SIGTRAP comes from trap bytes only, and no instruction raises signal zero. */
  ghost predicate TrapsAreTraps<D(!new)>(m: Machine<D>) {
    forall bytes, pc, d :: m.exec(bytes, pc, d).Raise? ==> m.exec(bytes, pc, d).sig !in {0, SIGTRAP}
  }

  /** What follows an instruction does not change its length. */
  ghost predicate Decodes<D(!new)>(m: Machine<D>) {
    forall a, b | m.length(a) <= |a| && m.length(a) <= |b| && a[..m.length(a)] == b[..m.length(a)] ::
      m.length(b) == m.length(a)
  }

  ghost predicate Processor<D(!new)>(m: Machine<D>) {
    TrapsAreTraps(m) && Decodes(m)
  }

  function Deliver<D>(m: Machine<D>, sig: nat, p: Proc<D>): Step<D> {
    if sig == 0 then Running(p)
    else match m.deliver(sig, p.pc, p.data)
      case Handled(pc, d) => Running(Proc(p.image, pc, d))
      case Fatal => Ended(Signaled(sig))
  }

  function UntracedStep<D>(m: Machine<D>, p: Proc<D>): Step<D> {
    match Execute(m, p)
    case Continue(pc, d) => Running(Proc(p.image, pc, d))
    case Raise(sig, pc, d) => Deliver(m, sig, Proc(p.image, pc, d))
    case Exec(image, pc, d) => Running(Proc(image, pc, d))
    case Exit(code) => Ended(Exited(code))
  }

  function Prepend<D>(visits: seq<Visit<D>>, h: History<D>): History<D> {
    h.(visits := visits + h.visits)
  }

  /** The whole run without a tracer, cut off after `limit` instructions. */
  function Untraced<D>(m: Machine<D>, p: Proc<D>, limit: nat): History<D>
    decreases limit
  {
    if limit == 0 then History([], TimedOut)
    else match UntracedStep(m, p)
      case Running(q) => Prepend([Visit(p.pc, p.data)], Untraced(m, q, limit - 1))
      case Ended(end) => History([Visit(p.pc, p.data)], end)
  }

  function UntracedFrom<D>(m: Machine<D>, sig: nat, p: Proc<D>, limit: nat): History<D> {
    match Deliver(m, sig, p)
    case Running(q) => Untraced(m, q, limit)
    case Ended(end) => History([], end)
  }

  /** The addresses executed while the current image lasts. */
  function ImagePcs<D>(m: Machine<D>, p: Proc<D>, limit: nat): seq<Addr>
    decreases limit
  {
    if limit == 0 then []
    else if Execute(m, p).Exec? then [p.pc]
    else match UntracedStep(m, p)
      case Running(q) => [p.pc] + ImagePcs(m, q, limit - 1)
      case Ended(_) => [p.pc]
  }

  function ImagePcsFrom<D>(m: Machine<D>, sig: nat, p: Proc<D>, limit: nat): seq<Addr> {
    match Deliver(m, sig, p)
    case Running(q) => ImagePcs(m, q, limit)
    case Ended(_) => []
  }

  /** The members of `watched` in `pcs`, each at its first occurrence. */
  function FirstEntries(pcs: seq<Addr>, watched: set<Addr>): seq<Addr> {
    if pcs == [] then []
    else if pcs[0] in watched then [pcs[0]] + FirstEntries(pcs[1..], watched - {pcs[0]})
    else FirstEntries(pcs[1..], watched)
  }

  // ---- What is planted, and what should be reported ----

  function Base(image: Image, pie: bool): Option<Addr> {
    if pie then image.loadBase else Some(0)
  }

  /** The addresses at which a breakpoint belongs: mapped, and not a trap of the program's own. */
  function Plantable(image: Image, blocks: seq<Addr>, base: Addr): set<Addr> {
    set b | b in blocks && Plus(base, b) in image.code && image.code[Plus(base, b)] != TRAP :: Plus(base, b)
  }

  function PlantedIn(image: Image, opt: Options): set<Addr> {
    match Base(image, opt.pie)
    case None => {}
    case Some(base) => Plantable(image, opt.blocks, base)
  }

  lemma PlantableStep(image: Image, blocks: seq<Addr>, i: nat, base: Addr)
    requires i < |blocks|
    ensures var addr := Plus(base, blocks[i]);
      Plantable(image, blocks[..i + 1], base) == Plantable(image, blocks[..i], base) +
        if addr in image.code && image.code[addr] != TRAP then {addr} else {}
  {
    assert blocks[..i + 1] == blocks[..i] + [blocks[i]];
  }

  function LinkAddrs(base: Addr, addrs: seq<Addr>): seq<Addr> {
    seq(|addrs|, i requires 0 <= i < |addrs| => Minus(addrs[i], base))
  }

  /** The blocks the untraced program enters, once it has become the target. */
  function Entered<D>(m: Machine<D>, p: Proc<D>, opt: Options, limit: nat): seq<Addr>
    decreases limit
  {
    if p.image.isTarget then
      match Base(p.image, opt.pie)
      case None => []
      case Some(base) => LinkAddrs(base, FirstEntries(ImagePcs(m, p, limit), Plantable(p.image, opt.blocks, base)))
    else if limit == 0 then []
    else match UntracedStep(m, p)
      case Running(q) => Entered(m, q, opt, limit - 1)
      case Ended(_) => []
  }

  function EnteredFrom<D>(m: Machine<D>, sig: nat, p: Proc<D>, opt: Options, limit: nat): seq<Addr> {
    match Deliver(m, sig, p)
    case Running(q) => Entered(m, q, opt, limit)
    case Ended(_) => []
  }

  // ---- The assumption: blocks start instructions ----

  /** None of the n addresses from a on is in `blocks`. */
  predicate Clear(a: Addr, n: nat, blocks: set<Addr>)
    decreases n
  {
    n == 0 || (a !in blocks && Clear(Plus(a, 1), n - 1, blocks))
  }

  /** How many bytes of the instruction at the counter follow the first. */
  function Tail<D>(m: Machine<D>, p: Proc<D>): nat {
    var n := |InstructionAt(m, p.image.code, p.pc)|;
    if n == 0 then 0 else n - 1
  }

  /** While the planted image lasts, no address still planted is inside an executed instruction. */
  predicate Aligned<D>(m: Machine<D>, p: Proc<D>, planted: set<Addr>, limit: nat)
    decreases limit
  {
    limit == 0 ||
    (&& (p.pc in p.image.code && p.image.code[p.pc] != TRAP ==> Clear(Plus(p.pc, 1), Tail(m, p), planted - {p.pc}))
     && (Execute(m, p).Exec? ||
         match UntracedStep(m, p)
         case Running(q) => Aligned(m, q, planted - {p.pc}, limit - 1)
         case Ended(_) => true))
  }

  predicate AlignedFrom<D>(m: Machine<D>, sig: nat, p: Proc<D>, planted: set<Addr>, limit: nat) {
    match Deliver(m, sig, p)
    case Running(q) => Aligned(m, q, planted, limit)
    case Ended(_) => true
  }

  /** The assumption on a whole run, which begins in a helper that becomes the target by exec. */
  predicate AlignedRun<D>(m: Machine<D>, p: Proc<D>, opt: Options, limit: nat)
    decreases limit
  {
    if p.image.isTarget then Aligned(m, p, PlantedIn(p.image, opt), limit)
    else limit == 0 || match UntracedStep(m, p)
      case Running(q) => AlignedRun(m, q, opt, limit - 1)
      case Ended(_) => true
  }

  predicate AlignedRunFrom<D>(m: Machine<D>, sig: nat, p: Proc<D>, opt: Options, limit: nat) {
    match Deliver(m, sig, p)
    case Running(q) => AlignedRun(m, q, opt, limit)
    case Ended(_) => true
  }

  // ---- The condition: no stale breakpoint is mistaken for one that fired ----

  /** No image that replaces the planted one executes a trap of its own at an address whose breakpoint
      had not fired by then. */
  predicate NotStale<D>(m: Machine<D>, p: Proc<D>, planted: set<Addr>, replaced: bool, limit: nat)
    decreases limit
  {
    limit == 0 ||
    (&& (replaced && p.pc in p.image.code && p.image.code[p.pc] == TRAP ==> p.pc !in planted)
     && match UntracedStep(m, p)
        case Running(q) =>
          NotStale(m, q, if replaced then planted else planted - {p.pc}, replaced || Execute(m, p).Exec?, limit - 1)
        case Ended(_) => true)
  }

  predicate NotStaleFrom<D>(m: Machine<D>, sig: nat, p: Proc<D>, planted: set<Addr>, replaced: bool, limit: nat) {
    match Deliver(m, sig, p)
    case Running(q) => NotStale(m, q, planted, replaced, limit)
    case Ended(_) => true
  }

  predicate NeverStale<D>(m: Machine<D>, p: Proc<D>, opt: Options, limit: nat)
    decreases limit
  {
    if p.image.isTarget then NotStale(m, p, PlantedIn(p.image, opt), false, limit)
    else limit == 0 || match UntracedStep(m, p)
      case Running(q) => NeverStale(m, q, opt, limit - 1)
      case Ended(_) => true
  }

  predicate NeverStaleFrom<D>(m: Machine<D>, sig: nat, p: Proc<D>, opt: Options, limit: nat) {
    match Deliver(m, sig, p)
    case Running(q) => NeverStale(m, q, opt, limit)
    case Ended(_) => true
  }

  // ---- What a caller can check before the run ----

  /** No instruction of a program replaces the image. */
  ghost predicate NoExec<D(!new)>(m: Machine<D>, code: map<Addr, byte>) {
    forall pc: Addr, d | pc in code :: !m.exec(InstructionAt(m, code, pc), pc, d).Exec?
  }

  predicate NoTrapAt(image: Image, addrs: set<Addr>) {
    forall a | a in addrs && a in image.code :: image.code[a] != TRAP
  }

  /** No image that an instruction can bring in has a trap of its own at one of these addresses. */
  ghost predicate LeavesAlone<D(!new)>(m: Machine<D>, addrs: set<Addr>) {
    forall bytes, pc, d | m.exec(bytes, pc, d).Exec? :: NoTrapAt(m.exec(bytes, pc, d).image, addrs)
  }

  ghost predicate Safe<D(!new)>(m: Machine<D>, image: Image, opt: Options) {
    NoExec(m, image.code) || LeavesAlone(m, PlantedIn(image, opt))
  }

  lemma {:induction false} NoExecNotStale<D(!new)>(m: Machine<D>, p: Proc<D>, planted: set<Addr>, limit: nat)
    requires NoExec(m, p.image.code)
    ensures NotStale(m, p, planted, false, limit)
    decreases limit
  {
    if limit > 0 {
      match UntracedStep(m, p)
      case Running(q) => NoExecNotStale(m, q, planted - {p.pc}, limit - 1);
      case Ended(_) =>
    }
  }

  lemma {:induction false} LeftAloneNotStale<D(!new)>(m: Machine<D>, p: Proc<D>, planted: set<Addr>, rest: set<Addr>,
                                                      replaced: bool, limit: nat)
    requires LeavesAlone(m, planted) && rest <= planted && (replaced ==> NoTrapAt(p.image, planted))
    ensures NotStale(m, p, rest, replaced, limit)
    decreases limit
  {
    if limit > 0 {
      match UntracedStep(m, p)
      case Running(q) =>
        LeftAloneNotStale(m, q, planted, if replaced then rest else rest - {p.pc}, replaced || Execute(m, p).Exec?, limit - 1);
      case Ended(_) =>
    }
  }

  /** No breakpoint goes stale if no image that is the target can replace itself, or none that replaces it
      has a trap of its own where a breakpoint is planted. */
  lemma {:induction false} NeverStaleBeforehand<D(!new)>(m: Machine<D>, p: Proc<D>, opt: Options, limit: nat)
    requires p.image.isTarget ==> Safe(m, p.image, opt)
    requires forall bytes, pc, d | m.exec(bytes, pc, d).Exec? && m.exec(bytes, pc, d).image.isTarget ::
               Safe(m, m.exec(bytes, pc, d).image, opt)
    ensures NeverStale(m, p, opt, limit)
    decreases limit
  {
    if p.image.isTarget {
      if NoExec(m, p.image.code) {
        NoExecNotStale(m, p, PlantedIn(p.image, opt), limit);
      } else {
        LeftAloneNotStale(m, p, PlantedIn(p.image, opt), PlantedIn(p.image, opt), false, limit);
      }
    } else if limit > 0 {
      match UntracedStep(m, p)
      case Running(q) => NeverStaleBeforehand(m, q, opt, limit - 1);
      case Ended(_) =>
    }
  }

  // ---- The kernel ----

  datatype Why = Finished(end: End) | Signal(sig: nat) | ExecEvent

  /** A stop: why, the tracee as it stands, what the watchdog has left, what was executed. */
  datatype Stop<D> = Stop(why: Why, proc: Proc<D>, left: nat, ran: seq<Visit<D>>)

  /** Runs the tracee until something stops it. */
  function Cont<D>(m: Machine<D>, p: Proc<D>, limit: nat): (s: Stop<D>)
    ensures !s.why.Finished? ==> s.left < limit && s.ran != []
    decreases limit
  {
    if limit == 0 then Stop(Finished(TimedOut), p, 0, [])
    else
      var here := [Visit(p.pc, p.data)];
      match Execute(m, p)
      case Continue(pc, d) =>
        var s := Cont(m, Proc(p.image, pc, d), limit - 1);
        s.(ran := here + s.ran)
      case Raise(sig, pc, d) => Stop(Signal(sig), Proc(p.image, pc, d), limit - 1, here)
      case Exec(image, pc, d) => Stop(ExecEvent, Proc(image, pc, d), limit - 1, here)
      case Exit(code) => Stop(Finished(Exited(code)), p, limit - 1, here)
  }

  function ContWith<D>(m: Machine<D>, sig: nat, p: Proc<D>, limit: nat): (s: Stop<D>)
    ensures !s.why.Finished? ==> s.left < limit && s.ran != []
  {
    match Deliver(m, sig, p)
    case Running(q) => Cont(m, q, limit)
    case Ended(end) => Stop(Finished(end), p, limit, [])
  }

  // ---- Simulation ----

  function Overlay(code: map<Addr, byte>, live: set<Addr>): map<Addr, byte> {
    map a | a in code :: if a in live then TRAP else code[a]
  }

  /** The program with a trap at every address of `live`. */
  function Patched<D>(p: Proc<D>, live: set<Addr>): Proc<D> {
    p.(image := p.image.(code := Overlay(p.image.code, live)))
  }

  predicate Plants(code: map<Addr, byte>, live: set<Addr>) {
    forall a | a in live :: a in code && code[a] != TRAP
  }

  /** Where no breakpoint is, patched code fetches what the original does. */
  lemma {:induction false} FetchUnpatched(code: map<Addr, byte>, live: set<Addr>, pc: Addr, n: nat, k: nat)
    requires k <= n && Clear(pc, k, live)
    ensures var a, b := Fetch(code, pc, n), Fetch(Overlay(code, live), pc, n);
      |a| == |b| && (k <= |a| ==> a[..k] == b[..k])
    decreases n
  {
    if n != 0 && pc in code {
      FetchUnpatched(code, live, Plus(pc, 1), n - 1, if k == 0 then 0 else k - 1);
      if k != 0 {
        FirstOf(code[pc], Fetch(code, Plus(pc, 1), n - 1), k);
        FirstOf(code[pc], Fetch(Overlay(code, live), Plus(pc, 1), n - 1), k);
      }
    }
  }

  lemma FirstOf(b: byte, rest: seq<byte>, k: nat)
    requires 0 < k
    ensures k <= 1 + |rest| ==> ([b] + rest)[..k] == [b] + rest[..k - 1]
  {
  }

  lemma SameInstruction<D(!new)>(m: Machine<D>, a: seq<byte>, b: seq<byte>)
    requires Decodes(m) && |a| == |b| && a[..|Instruction(m, a)|] == b[..|Instruction(m, a)|]
    ensures Instruction(m, a) == Instruction(m, b)
  {
    if m.length(a) > |a| {
      assert a[..|a|] == a && b[..|a|] == b;
    }
  }

  lemma ExecuteUnpatched<D(!new)>(m: Machine<D>, p: Proc<D>, live: set<Addr>)
    requires Processor(m) && p.pc !in live
    requires p.pc in p.image.code && p.image.code[p.pc] != TRAP ==> Clear(Plus(p.pc, 1), Tail(m, p), live)
    ensures Execute(m, Patched(p, live)) == Execute(m, p)
  {
    if p.pc in p.image.code && p.image.code[p.pc] != TRAP {
      var a, b := Fetch(p.image.code, p.pc, m.longest), Fetch(Overlay(p.image.code, live), p.pc, m.longest);
      var n := |Instruction(m, a)|;
      FetchAtMost(p.image.code, p.pc, m.longest);
      FetchUnpatched(p.image.code, live, p.pc, m.longest, n);
      SameInstruction(m, a, b);
    }
  }

  lemma {:induction false} FetchAtMost(code: map<Addr, byte>, pc: Addr, n: nat)
    ensures |Fetch(code, pc, n)| <= n
    decreases n
  {
    if n != 0 { FetchAtMost(code, Plus(pc, 1), n - 1); }
  }

  lemma {:induction false} FetchFront(code: map<Addr, byte>, pc: Addr, k: nat, n: nat)
    requires k <= n
    ensures Fetch(code, pc, k) <= Fetch(code, pc, n)
    decreases n
  {
    if k != 0 && pc in code { FetchFront(code, Plus(pc, 1), k - 1, n - 1); }
  }

  /** An instruction is its own bytes: wherever those are mapped, it is what is executed, whatever lies behind. */
  lemma NothingBehindMatters<D(!new)>(m: Machine<D>, code: map<Addr, byte>, other: map<Addr, byte>, pc: Addr)
    requires Decodes(m) && m.length(Fetch(code, pc, m.longest)) <= |Fetch(code, pc, m.longest)|
    requires Fetch(other, pc, |InstructionAt(m, code, pc)|) == InstructionAt(m, code, pc)
    ensures InstructionAt(m, other, pc) == InstructionAt(m, code, pc)
  {
    var a, b, i := Fetch(code, pc, m.longest), Fetch(other, pc, m.longest), InstructionAt(m, code, pc);
    FetchAtMost(code, pc, m.longest);
    FetchFront(other, pc, |i|, m.longest);
    assert a[..m.length(a)] == i == b[..m.length(a)];
  }

  /** The traps in the code: none once the planted image has been replaced. */
  function Live(planted: set<Addr>, replaced: bool): set<Addr> {
    if replaced then {} else planted
  }

  /** What a stop of the patched program says about the original one. */
  ghost predicate Explains<D>(m: Machine<D>, p: Proc<D>, planted: set<Addr>, replaced: bool, limit: nat, s: Stop<D>) {
    match s.why
    case Finished(end) =>
      && Untraced(m, p, limit) == History(s.ran, end)
      && FirstEntries(ImagePcs(m, p, limit), Live(planted, replaced)) == []
      && NotStale(m, p, planted, replaced, limit)
    case ExecEvent =>
      && Untraced(m, p, limit) == Prepend(s.ran, Untraced(m, s.proc, s.left))
      && FirstEntries(ImagePcs(m, p, limit), Live(planted, replaced)) == []
      && NotStale(m, p, planted, replaced, limit) == NotStale(m, s.proc, planted, true, s.left)
    case Signal(sig) =>
      var t := s.proc.(image := p.image);
      && s.proc == Patched(t, Live(planted, replaced))
      && sig != 0
      && if sig == SIGTRAP && Minus(t.pc, 1) in planted then
           if replaced then Minus(t.pc, 1) in t.image.code && !NotStale(m, p, planted, replaced, limit)
           else Rewinds(m, p, planted, limit, s, t.(pc := Minus(t.pc, 1)))
         else PassesOn(m, p, planted, replaced, limit, s, sig, t)
  }

  /** A breakpoint stop: the program is about to enter u.pc, and the trap is not part of its run. */
  ghost predicate Rewinds<D>(m: Machine<D>, p: Proc<D>, planted: set<Addr>, limit: nat, s: Stop<D>, u: Proc<D>) {
    && s.ran != []
    && Untraced(m, p, limit) == Prepend(s.ran[..|s.ran| - 1], Untraced(m, u, s.left + 1))
    && FirstEntries(ImagePcs(m, p, limit), planted) == FirstEntries(ImagePcs(m, u, s.left + 1), planted)
    && Aligned(m, u, planted, s.left + 1)
    && NotStale(m, p, planted, false, limit) == NotStale(m, u, planted, false, s.left + 1)
  }

  /** Any other signal: the program's own, to be delivered to it. */
  ghost predicate PassesOn<D>(m: Machine<D>, p: Proc<D>, planted: set<Addr>, replaced: bool, limit: nat, s: Stop<D>,
                              sig: nat, t: Proc<D>)
  {
    && Untraced(m, p, limit) == Prepend(s.ran, UntracedFrom(m, sig, t, s.left))
    && FirstEntries(ImagePcs(m, p, limit), Live(planted, replaced))
       == FirstEntries(ImagePcsFrom(m, sig, t, s.left), Live(planted, replaced))
    && (replaced || AlignedFrom(m, sig, t, planted, s.left))
    && NotStale(m, p, planted, replaced, limit) == NotStaleFrom(m, sig, t, planted, replaced, s.left)
  }

  lemma PrependTwice<D>(a: seq<Visit<D>>, b: seq<Visit<D>>, h: History<D>)
    ensures Prepend(a, Prepend(b, h)) == Prepend(a + b, h)
  {
    assert a + (b + h.visits) == (a + b) + h.visits;
  }

  /** One more unremarkable instruction in front of an explained stop. */
  lemma ExplainsOneMore<D>(m: Machine<D>, p: Proc<D>, q: Proc<D>, planted: set<Addr>, replaced: bool, limit: nat, s: Stop<D>)
    requires UntracedStep(m, p) == Running(q) && q.image == p.image
    requires Explains(m, q, planted, replaced, limit, s)
    requires FirstEntries(ImagePcs(m, p, limit + 1), Live(planted, replaced))
          == FirstEntries(ImagePcs(m, q, limit), Live(planted, replaced))
    requires NotStale(m, p, planted, replaced, limit + 1) == NotStale(m, q, planted, replaced, limit)
    ensures Explains(m, p, planted, replaced, limit + 1, s.(ran := [Visit(p.pc, p.data)] + s.ran))
  {
    var here := [Visit(p.pc, p.data)];
    assert Untraced(m, p, limit + 1) == Prepend(here, Untraced(m, q, limit));
    match s.why
    case Finished(end) =>
    case ExecEvent => PrependTwice(here, s.ran, Untraced(m, s.proc, s.left));
    case Signal(sig) =>
      var t := s.proc.(image := p.image);
      if sig == SIGTRAP && Minus(t.pc, 1) in planted {
        if !replaced {
          PrependTwice(here, s.ran[..|s.ran| - 1], Untraced(m, t.(pc := Minus(t.pc, 1)), s.left + 1));
          assert (here + s.ran)[..|s.ran|] == here + s.ran[..|s.ran| - 1];
        }
      } else {
        PrependTwice(here, s.ran, UntracedFrom(m, sig, t, s.left));
      }
  }

  ghost predicate MayRun<D(!new)>(m: Machine<D>, p: Proc<D>, planted: set<Addr>, replaced: bool, limit: nat) {
    Processor(m) && (replaced || (Plants(p.image.code, planted) && Aligned(m, p, planted, limit)))
  }

  /** Whether the patched program stops before it has executed another instruction of its own. */
  predicate StopsNow<D>(m: Machine<D>, p: Proc<D>, live: set<Addr>, limit: nat) {
    limit == 0 || p.pc in live || !Execute(m, p).Continue?
  }

  /** Every instruction up to the next stop is executed alike, patched or not, and the stop is explained. */
  ghost predicate Alike<D(!new)>(m: Machine<D>, p: Proc<D>, planted: set<Addr>, replaced: bool, limit: nat)
    decreases limit
  {
    if StopsNow(m, p, Live(planted, replaced), limit) then
      Explains(m, p, planted, replaced, limit, Cont(m, Patched(p, Live(planted, replaced)), limit))
    else OneMore(m, p, planted, replaced, limit) && Alike(m, After(m, p), planted, replaced, limit - 1)
  }

  lemma {:induction false} RunsAlike<D(!new)>(m: Machine<D>, p: Proc<D>, planted: set<Addr>, replaced: bool, limit: nat)
    requires MayRun(m, p, planted, replaced, limit)
    ensures Alike(m, p, planted, replaced, limit)
    decreases limit
  {
    if StopsNow(m, p, Live(planted, replaced), limit) {
      StopsHere(m, p, planted, replaced, limit);
      AlikeToStop(m, p, planted, replaced, limit);
    } else {
      Advances(m, p, planted, replaced, limit);
      RunsAlike(m, After(m, p), planted, replaced, limit - 1);
      AlikeOneMore(m, p, planted, replaced, limit);
    }
  }

  lemma AlikeToStop<D(!new)>(m: Machine<D>, p: Proc<D>, planted: set<Addr>, replaced: bool, limit: nat)
    requires StopsNow(m, p, Live(planted, replaced), limit)
    requires Explains(m, p, planted, replaced, limit, Cont(m, Patched(p, Live(planted, replaced)), limit))
    ensures Alike(m, p, planted, replaced, limit)
  {
  }

  lemma AlikeOneMore<D(!new)>(m: Machine<D>, p: Proc<D>, planted: set<Addr>, replaced: bool, limit: nat)
    requires !StopsNow(m, p, Live(planted, replaced), limit) && OneMore(m, p, planted, replaced, limit)
    requires Alike(m, After(m, p), planted, replaced, limit - 1)
    ensures Alike(m, p, planted, replaced, limit)
  {
  }

  /** Running the patched program to its next stop follows the original program. */
  lemma {:induction false} ContFollows<D(!new)>(m: Machine<D>, p: Proc<D>, planted: set<Addr>, replaced: bool, limit: nat)
    requires Alike(m, p, planted, replaced, limit)
    ensures Explains(m, p, planted, replaced, limit, Cont(m, Patched(p, Live(planted, replaced)), limit))
    decreases limit
  {
    if !StopsNow(m, p, Live(planted, replaced), limit) {
      ContFollows(m, After(m, p), planted, replaced, limit - 1);
      Continues(m, p, planted, replaced, limit);
    }
  }

  lemma StopsHere<D(!new)>(m: Machine<D>, p: Proc<D>, planted: set<Addr>, replaced: bool, limit: nat)
    requires MayRun(m, p, planted, replaced, limit)
    requires StopsNow(m, p, Live(planted, replaced), limit)
    ensures Explains(m, p, planted, replaced, limit, Cont(m, Patched(p, Live(planted, replaced)), limit))
  {
    if limit == 0 {
      TimeIsUp(m, p, planted, replaced);
    } else if p.pc in Live(planted, replaced) {
      TrapStops(m, p, planted, limit);
    } else {
      StopFollows(m, p, planted, replaced, limit);
    }
  }

  /** The process after an instruction that neither stops nor ends it. */
  function After<D>(m: Machine<D>, p: Proc<D>): Proc<D>
    requires Execute(m, p).Continue?
  {
    Proc(p.image, Execute(m, p).pc, Execute(m, p).data)
  }

  /** An instruction that changes nothing but the process. */
  ghost predicate OneMore<D>(m: Machine<D>, p: Proc<D>, planted: set<Addr>, replaced: bool, limit: nat)
    requires 0 < limit && Execute(m, p).Continue?
  {
    var live, q := Live(planted, replaced), After(m, p);
    && Execute(m, Patched(p, live)) == Execute(m, p)
    && FirstEntries(ImagePcs(m, p, limit), live) == FirstEntries(ImagePcs(m, q, limit - 1), live)
    && NotStale(m, p, planted, replaced, limit) == NotStale(m, q, planted, replaced, limit - 1)
  }

  lemma Advances<D(!new)>(m: Machine<D>, p: Proc<D>, planted: set<Addr>, replaced: bool, limit: nat)
    requires MayRun(m, p, planted, replaced, limit) && 0 < limit && p.pc !in Live(planted, replaced)
    requires Execute(m, p).Continue?
    ensures MayRun(m, After(m, p), planted, replaced, limit - 1)
    ensures OneMore(m, p, planted, replaced, limit)
  {
    StepsAlike(m, p, planted, replaced, limit);
  }

  lemma StopFollows<D(!new)>(m: Machine<D>, p: Proc<D>, planted: set<Addr>, replaced: bool, limit: nat)
    requires MayRun(m, p, planted, replaced, limit) && 0 < limit && p.pc !in Live(planted, replaced)
    requires !Execute(m, p).Continue?
    ensures Explains(m, p, planted, replaced, limit, Cont(m, Patched(p, Live(planted, replaced)), limit))
  {
    StepsAlike(m, p, planted, replaced, limit);
    if Execute(m, p).Raise? {
      RaiseStops(m, p, planted, replaced, limit);
    } else if Execute(m, p).Exec? {
      ExecStops(m, p, planted, replaced, limit);
    } else {
      ExitStops(m, p, planted, replaced, limit);
    }
  }

  lemma TimeIsUp<D(!new)>(m: Machine<D>, p: Proc<D>, planted: set<Addr>, replaced: bool)
    ensures Explains(m, p, planted, replaced, 0, Cont(m, Patched(p, Live(planted, replaced)), 0))
  {
  }

  lemma TrapStops<D(!new)>(m: Machine<D>, p: Proc<D>, planted: set<Addr>, limit: nat)
    requires MayRun(m, p, planted, false, limit) && 0 < limit && p.pc in planted
    ensures Explains(m, p, planted, false, limit, Cont(m, Patched(p, planted), limit))
  {
    var t := p.(pc := Plus(p.pc, 1));
    var s := Stop(Signal(SIGTRAP), Patched(t, planted), limit - 1, [Visit(p.pc, p.data)]);
    assert Execute(m, Patched(p, planted)) == Raise(SIGTRAP, t.pc, t.data);
    assert Cont(m, Patched(p, planted), limit) == s;
    assert Minus(t.pc, 1) == p.pc && t.(pc := p.pc) == p;
    assert s.proc.(image := p.image) == t;
    RewindsHere(m, p, planted, limit, s);
  }

  lemma RewindsHere<D>(m: Machine<D>, p: Proc<D>, planted: set<Addr>, limit: nat, s: Stop<D>)
    requires 0 < limit && Aligned(m, p, planted, limit) && s.left == limit - 1 && |s.ran| == 1
    ensures Rewinds(m, p, planted, limit, s, p)
  {
    assert s.ran[..0] == [];
    assert Prepend([], Untraced(m, p, limit)) == Untraced(m, p, limit);
  }

  /** Off the breakpoints one step of the patched program is one of the original. */
  lemma StepsAlike<D(!new)>(m: Machine<D>, p: Proc<D>, planted: set<Addr>, replaced: bool, limit: nat)
    requires MayRun(m, p, planted, replaced, limit) && 0 < limit && p.pc !in Live(planted, replaced)
    ensures Execute(m, Patched(p, Live(planted, replaced))) == Execute(m, p)
    ensures FirstEntries(ImagePcs(m, p, limit), Live(planted, replaced))
         == FirstEntries(ImagePcs(m, p, limit)[1..], Live(planted, replaced))
    ensures match Execute(m, p)
      case Continue(pc, d) =>
        var q := Proc(p.image, pc, d);
        && MayRun(m, q, planted, replaced, limit - 1)
        && ImagePcs(m, p, limit)[1..] == ImagePcs(m, q, limit - 1)
        && NotStale(m, p, planted, replaced, limit) == NotStale(m, q, planted, replaced, limit - 1)
      case _ => true
  {
    var pcs := ImagePcs(m, p, limit);
    assert pcs != [] && pcs[0] == p.pc;
    assert !replaced ==> planted - {p.pc} == planted;
    if replaced { NothingIsClear(Plus(p.pc, 1), Tail(m, p)); }
    ExecuteUnpatched(m, p, Live(planted, replaced));
    if Execute(m, p).Continue? {
      NotATrap(m, p);
    }
  }

  lemma Continues<D>(m: Machine<D>, p: Proc<D>, planted: set<Addr>, replaced: bool, limit: nat)
    requires 0 < limit && Execute(m, p).Continue? && OneMore(m, p, planted, replaced, limit)
    requires Explains(m, After(m, p), planted, replaced, limit - 1,
                      Cont(m, Patched(After(m, p), Live(planted, replaced)), limit - 1))
    ensures Explains(m, p, planted, replaced, limit, Cont(m, Patched(p, Live(planted, replaced)), limit))
  {
    ContOneMore(m, p, planted, replaced, limit);
    ExplainsOneMore(m, p, After(m, p), planted, replaced, limit - 1,
                    Cont(m, Patched(After(m, p), Live(planted, replaced)), limit - 1));
  }

  lemma ContOneMore<D>(m: Machine<D>, p: Proc<D>, planted: set<Addr>, replaced: bool, limit: nat)
    requires 0 < limit && Execute(m, p).Continue? && OneMore(m, p, planted, replaced, limit)
    ensures var t := Cont(m, Patched(After(m, p), Live(planted, replaced)), limit - 1);
      Cont(m, Patched(p, Live(planted, replaced)), limit) == t.(ran := [Visit(p.pc, p.data)] + t.ran)
  {
    var live, q := Live(planted, replaced), After(m, p);
    assert Proc(Patched(p, live).image, q.pc, q.data) == Patched(q, live);
  }

  lemma RaiseStops<D(!new)>(m: Machine<D>, p: Proc<D>, planted: set<Addr>, replaced: bool, limit: nat)
    requires MayRun(m, p, planted, replaced, limit) && 0 < limit && p.pc !in Live(planted, replaced)
    requires Execute(m, Patched(p, Live(planted, replaced))) == Execute(m, p) && Execute(m, p).Raise?
    requires FirstEntries(ImagePcs(m, p, limit), Live(planted, replaced))
          == FirstEntries(ImagePcs(m, p, limit)[1..], Live(planted, replaced))
    ensures Explains(m, p, planted, replaced, limit, Cont(m, Patched(p, Live(planted, replaced)), limit))
  {
    var live := Live(planted, replaced);
    var e := Execute(m, p);
    var t := Proc(p.image, e.pc, e.data);
    var s := Cont(m, Patched(p, live), limit);
    assert s == Stop(Signal(e.sig), Patched(t, live), limit - 1, [Visit(p.pc, p.data)]);
    assert Minus(Plus(p.pc, 1), 1) == p.pc;
    assert !replaced ==> planted - {p.pc} == planted;
    if e.sig == SIGTRAP && Minus(t.pc, 1) in planted {
      assert replaced && p.image.code[p.pc] == TRAP;
    } else {
      RaisePassesOn(m, p, planted, replaced, limit, s, t);
    }
  }

  lemma RaisePassesOn<D(!new)>(m: Machine<D>, p: Proc<D>, planted: set<Addr>, replaced: bool, limit: nat, s: Stop<D>, t: Proc<D>)
    requires MayRun(m, p, planted, replaced, limit) && 0 < limit && p.pc !in Live(planted, replaced)
    requires Execute(m, p).Raise? && t == Proc(p.image, Execute(m, p).pc, Execute(m, p).data)
    requires s.left == limit - 1 && s.ran == [Visit(p.pc, p.data)]
    requires Execute(m, p).sig == SIGTRAP ==> Minus(t.pc, 1) !in planted
    requires FirstEntries(ImagePcs(m, p, limit), Live(planted, replaced))
          == FirstEntries(ImagePcs(m, p, limit)[1..], Live(planted, replaced))
    ensures PassesOn(m, p, planted, replaced, limit, s, Execute(m, p).sig, t)
  {
    var sig := Execute(m, p).sig;
    assert Minus(Plus(p.pc, 1), 1) == p.pc;
    assert !replaced ==> planted - {p.pc} == planted;
    assert UntracedStep(m, p) == Deliver(m, sig, t);
    assert ImagePcs(m, p, limit)[1..] == ImagePcsFrom(m, sig, t, limit - 1);
  }

  lemma ExecStops<D>(m: Machine<D>, p: Proc<D>, planted: set<Addr>, replaced: bool, limit: nat)
    requires 0 < limit && p.pc !in Live(planted, replaced)
    requires Execute(m, Patched(p, Live(planted, replaced))) == Execute(m, p) && Execute(m, p).Exec?
    requires FirstEntries(ImagePcs(m, p, limit), Live(planted, replaced))
          == FirstEntries(ImagePcs(m, p, limit)[1..], Live(planted, replaced))
    ensures Explains(m, p, planted, replaced, limit, Cont(m, Patched(p, Live(planted, replaced)), limit))
  {
    var q := Proc(Execute(m, p).image, Execute(m, p).pc, Execute(m, p).data);
    ExecRuns(m, p, limit);
    ExecCont(m, Patched(p, Live(planted, replaced)), limit);
    ExecKeeps(m, p, planted, replaced, limit, q);
  }

  lemma ExecRuns<D>(m: Machine<D>, p: Proc<D>, limit: nat)
    requires 0 < limit && Execute(m, p).Exec?
    ensures var q := Proc(Execute(m, p).image, Execute(m, p).pc, Execute(m, p).data);
      UntracedStep(m, p) == Running(q) && Untraced(m, p, limit) == Prepend([Visit(p.pc, p.data)], Untraced(m, q, limit - 1))
    ensures ImagePcs(m, p, limit) == [p.pc]
  {
    NotATrap(m, p);
  }

  lemma ExecCont<D>(m: Machine<D>, p: Proc<D>, limit: nat)
    requires 0 < limit && Execute(m, p).Exec?
    ensures var e := Execute(m, p);
      Cont(m, p, limit) == Stop(ExecEvent, Proc(e.image, e.pc, e.data), limit - 1, [Visit(p.pc, p.data)])
  {
  }

  lemma ExecKeeps<D>(m: Machine<D>, p: Proc<D>, planted: set<Addr>, replaced: bool, limit: nat, q: Proc<D>)
    requires 0 < limit && Execute(m, p).Exec? && UntracedStep(m, p) == Running(q) && p.pc !in Live(planted, replaced)
    ensures NotStale(m, p, planted, replaced, limit) == NotStale(m, q, planted, true, limit - 1)
  {
    NotATrap(m, p);
    assert !replaced ==> planted - {p.pc} == planted;
  }

  lemma ExitStops<D(!new)>(m: Machine<D>, p: Proc<D>, planted: set<Addr>, replaced: bool, limit: nat)
    requires MayRun(m, p, planted, replaced, limit) && 0 < limit && p.pc !in Live(planted, replaced)
    requires Execute(m, Patched(p, Live(planted, replaced))) == Execute(m, p) && Execute(m, p).Exit?
    requires FirstEntries(ImagePcs(m, p, limit), Live(planted, replaced))
          == FirstEntries(ImagePcs(m, p, limit)[1..], Live(planted, replaced))
    ensures Explains(m, p, planted, replaced, limit, Cont(m, Patched(p, Live(planted, replaced)), limit))
  {
    NotATrap(m, p);
    assert ImagePcs(m, p, limit)[1..] == [];
  }

  lemma NotATrap<D>(m: Machine<D>, p: Proc<D>)
    requires !Execute(m, p).Raise?
    ensures p.pc in p.image.code && p.image.code[p.pc] != TRAP
  {
  }

  /** The same with a signal delivered first. */
  ghost predicate ExplainsFrom<D>(m: Machine<D>, sig: nat, p: Proc<D>, planted: set<Addr>, replaced: bool,
                                  limit: nat, s: Stop<D>)
  {
    match Deliver(m, sig, p)
    case Running(q) => Explains(m, q, planted, replaced, limit, s)
    case Ended(end) => s.why == Finished(end) && s.ran == []
  }

  lemma ContWithFollows<D(!new)>(m: Machine<D>, sig: nat, p: Proc<D>, planted: set<Addr>, replaced: bool, limit: nat)
    requires Processor(m) && (replaced || (Plants(p.image.code, planted) && AlignedFrom(m, sig, p, planted, limit)))
    ensures ExplainsFrom(m, sig, p, planted, replaced, limit, ContWith(m, sig, Patched(p, Live(planted, replaced)), limit))
  {
    match Deliver(m, sig, p)
    case Running(q) =>
      assert Deliver(m, sig, Patched(p, Live(planted, replaced))) == Running(Patched(q, Live(planted, replaced)));
      RunsAlike(m, q, planted, replaced, limit);
      ContFollows(m, q, planted, replaced, limit);
    case Ended(end) =>
  }

  /** A breakpoint that has fired no longer matters to what lies ahead. */
  lemma Fired<D>(m: Machine<D>, u: Proc<D>, planted: set<Addr>, limit: nat)
    requires 0 < limit
    ensures Aligned(m, u, planted, limit) == Aligned(m, u, planted - {u.pc}, limit)
    ensures NotStale(m, u, planted, false, limit) == NotStale(m, u, planted - {u.pc}, false, limit)
  {
    assert planted - {u.pc} - {u.pc} == planted - {u.pc};
  }

  // ---- Before the target is running ----

  lemma {:induction false} NothingIsClear(a: Addr, n: nat)
    ensures Clear(a, n, {})
    decreases n
  {
    if n != 0 { NothingIsClear(Plus(a, 1), n - 1); }
  }

  lemma {:induction false} NothingMisaligned<D>(m: Machine<D>, p: Proc<D>, limit: nat)
    ensures Aligned(m, p, {}, limit)
    decreases limit
  {
    if limit != 0 {
      NothingIsClear(Plus(p.pc, 1), Tail(m, p));
      assert {} - {p.pc} == {};
      if !Execute(m, p).Exec? {
        match UntracedStep(m, p)
        case Running(q) => NothingMisaligned(m, q, limit - 1);
        case Ended(_) =>
      }
    }
  }

  /** What a stop of a process that is not yet the target says about the entries to come. */
  lemma {:induction false} ContBeforeTarget<D>(m: Machine<D>, p: Proc<D>, opt: Options, limit: nat)
    requires !p.image.isTarget && AlignedRun(m, p, opt, limit)
    ensures var s := Cont(m, p, limit);
      match s.why
      case Finished(_) => Entered(m, p, opt, limit) == [] && NeverStale(m, p, opt, limit)
      case Signal(sig) =>
        && s.proc.image == p.image && AlignedRunFrom(m, sig, s.proc, opt, s.left)
        && Entered(m, p, opt, limit) == EnteredFrom(m, sig, s.proc, opt, s.left)
        && NeverStale(m, p, opt, limit) == NeverStaleFrom(m, sig, s.proc, opt, s.left)
      case ExecEvent =>
        && AlignedRun(m, s.proc, opt, s.left)
        && Entered(m, p, opt, limit) == Entered(m, s.proc, opt, s.left)
        && NeverStale(m, p, opt, limit) == NeverStale(m, s.proc, opt, s.left)
    decreases limit
  {
    if limit != 0 {
      match Execute(m, p)
      case Continue(pc, d) => ContBeforeTarget(m, Proc(p.image, pc, d), opt, limit - 1);
      case Raise(_, _, _) =>
      case Exec(_, _, _) =>
      case Exit(_) =>
    }
  }

  // ---- First entries ----

  function FirstIndex(pcs: seq<Addr>, a: Addr): (i: nat)
    requires a in pcs
    ensures i < |pcs| && pcs[i] == a && a !in pcs[..i]
  {
    if pcs[0] == a then 0 else 1 + FirstIndex(pcs[1..], a)
  }

  lemma {:induction false} FirstEntriesMember(pcs: seq<Addr>, watched: set<Addr>, a: Addr)
    ensures a in FirstEntries(pcs, watched) <==> a in watched && a in pcs
  {
    if pcs != [] {
      assert a in pcs <==> a == pcs[0] || a in pcs[1..];
      FirstEntriesMember(pcs[1..], if pcs[0] in watched then watched - {pcs[0]} else watched, a);
    }
  }

  lemma {:induction false} FirstEntriesOrdered(pcs: seq<Addr>, watched: set<Addr>, i: nat, j: nat)
    requires i < j < |FirstEntries(pcs, watched)|
    ensures var f := FirstEntries(pcs, watched);
      f[i] in pcs && f[j] in pcs && FirstIndex(pcs, f[i]) < FirstIndex(pcs, f[j])
  {
    var f, rest := FirstEntries(pcs, watched), watched - {pcs[0]};
    FirstEntriesMember(pcs, watched, f[i]);
    FirstEntriesMember(pcs, watched, f[j]);
    if pcs[0] !in watched {
      FirstEntriesOrdered(pcs[1..], watched, i, j);
    } else {
      FirstEntriesMember(pcs[1..], rest, f[j]);
      if i != 0 {
        FirstEntriesMember(pcs[1..], rest, f[i]);
        FirstEntriesOrdered(pcs[1..], rest, i - 1, j - 1);
      }
    }
  }

  /** FirstEntries is the set of entered addresses, without repeats, in order of first entry. */
  lemma FirstEntriesMeaning(pcs: seq<Addr>, watched: set<Addr>)
    ensures var f := FirstEntries(pcs, watched);
      && (forall a :: a in f <==> a in watched && a in pcs)
      && (forall i, j :: 0 <= i < j < |f| ==>
            f[i] in pcs && f[j] in pcs && FirstIndex(pcs, f[i]) < FirstIndex(pcs, f[j]))
  {
    var f := FirstEntries(pcs, watched);
    forall a ensures a in f <==> a in watched && a in pcs {
      FirstEntriesMember(pcs, watched, a);
    }
    forall i, j | 0 <= i < j < |f|
      ensures f[i] in pcs && f[j] in pcs && FirstIndex(pcs, f[i]) < FirstIndex(pcs, f[j])
    {
      FirstEntriesOrdered(pcs, watched, i, j);
    }
  }

  // ---- Which blocks are reported ----

  datatype Arrival<D> = Arrival(proc: Proc<D>, left: nat)

  /** The process when it first is the target, and what the watchdog has left then. */
  function Reached<D>(m: Machine<D>, p: Proc<D>, limit: nat): Option<Arrival<D>>
    decreases limit
  {
    if p.image.isTarget then Some(Arrival(p, limit))
    else if limit == 0 then None
    else match UntracedStep(m, p)
      case Running(q) => Reached(m, q, limit - 1)
      case Ended(_) => None
  }

  lemma {:induction false} EnteredOnArrival<D>(m: Machine<D>, p: Proc<D>, opt: Options, limit: nat)
    ensures Entered(m, p, opt, limit) ==
      match Reached(m, p, limit) case None => [] case Some(a) => Entered(m, a.proc, opt, a.left)
    decreases limit
  {
    if !p.image.isTarget && limit != 0 {
      match UntracedStep(m, p)
      case Running(q) => EnteredOnArrival(m, q, opt, limit - 1);
      case Ended(_) =>
    }
  }

  /** Where a block is: a program at a fixed address has its blocks there, wherever it seems to be mapped;
      a position-independent one has them from its load base on. */
  function Place(image: Image, pie: bool, block: Addr): Option<Addr> {
    if !pie then Some(block)
    else match image.loadBase
      case None => None
      case Some(base) => Some(if base + block < 0x1_0000_0000_0000_0000 then base + block else base + block - 0x1_0000_0000_0000_0000)
  }

  /** A block given to be watched, mapped and no trap of the program's own, that the program executes. */
  predicate Reports<D>(m: Machine<D>, p: Proc<D>, limit: nat, opt: Options, block: Addr) {
    && block in opt.blocks && Place(p.image, opt.pie, block).Some?
    && var a := Place(p.image, opt.pie, block).value;
       a in p.image.code && p.image.code[a] != TRAP && a in ImagePcs(m, p, limit)
  }

  /** Whether a breakpoint belongs at an address. */
  predicate Watched(image: Image, opt: Options, a: Addr) {
    a in image.code && image.code[a] != TRAP && exists b :: b in opt.blocks && Place(image, opt.pie, b) == Some(a)
  }

  lemma PlantedMeaning(image: Image, opt: Options, a: Addr)
    ensures a in PlantedIn(image, opt) <==> Watched(image, opt, a)
  {
    match Base(image, opt.pie)
    case None =>
    case Some(base) =>
      assert forall b: Addr :: Place(image, opt.pie, b) == Some(Plus(base, b));
  }

  lemma EnteredFromTarget<D>(m: Machine<D>, p: Proc<D>, opt: Options, limit: nat, block: Addr)
    requires p.image.isTarget
    ensures block in Entered(m, p, opt, limit) <==> Reports(m, p, limit, opt, block)
  {
    match Base(p.image, opt.pie)
    case None =>
    case Some(base) =>
      var w := Plantable(p.image, opt.blocks, base);
      var f := FirstEntries(ImagePcs(m, p, limit), w);
      PlusMinus(base, block);
      FirstEntriesMember(ImagePcs(m, p, limit), w, Plus(base, block));
      assert Place(p.image, opt.pie, block) == Some(Plus(base, block));
      if block in LinkAddrs(base, f) {
        var i :| 0 <= i < |f| && LinkAddrs(base, f)[i] == block;
        MinusPlus(base, f[i]);
        FirstEntriesMember(ImagePcs(m, p, limit), w, f[i]);
      }
      if Plus(base, block) in f {
        var i :| 0 <= i < |f| && f[i] == Plus(base, block);
        assert LinkAddrs(base, f)[i] == block;
      }
  }

  lemma PlusMinus(base: Addr, a: Addr)
    ensures Minus(Plus(base, a), base) == a
  {
  }

  lemma MinusPlus(base: Addr, a: Addr)
    ensures Plus(base, Minus(a, base)) == a
  {
  }

  /** Of a whole run, whatever helper it begins in. */
  predicate RunReports<D>(m: Machine<D>, p: Proc<D>, limit: nat, opt: Options, block: Addr) {
    match Reached(m, p, limit)
    case None => false
    case Some(a) => Reports(m, a.proc, a.left, opt, block)
  }

  lemma EnteredMeaning<D>(m: Machine<D>, p: Proc<D>, opt: Options, limit: nat, block: Addr)
    ensures block in Entered(m, p, opt, limit) <==> RunReports(m, p, limit, opt, block)
  {
    EnteredOnArrival(m, p, opt, limit);
    ReachedIsTarget(m, p, limit);
    match Reached(m, p, limit)
    case None =>
    case Some(a) => EnteredFromTarget(m, a.proc, opt, a.left, block);
  }

  lemma {:induction false} ReachedIsTarget<D>(m: Machine<D>, p: Proc<D>, limit: nat)
    ensures Reached(m, p, limit).Some? ==> Reached(m, p, limit).value.proc.image.isTarget
    decreases limit
  {
    if !p.image.isTarget && limit != 0 {
      match UntracedStep(m, p)
      case Running(q) => ReachedIsTarget(m, q, limit - 1);
      case Ended(_) =>
    }
  }

  // ---- What the tracer knows, as a value ----

  datatype Outcome = Outcome(end: End, hits: seq<Addr>, planted: nat)

  /** The tracer's own state. */
  datatype Books = Books(planted: map<Addr, byte>, base: Addr, armed: bool, hits: seq<Addr>, count: nat)

  /** How far a run has got. orig: the process as it would stand without the tracer, with `sig`
      still to be delivered to it. replaced: the traced image has been replaced by exec. ran: what
      has been executed, breakpoint stops erased. */
  datatype Progress<D> = Progress(orig: Proc<D>, sig: nat, left: nat, replaced: bool, ran: seq<Visit<D>>)

  /** The code is `orig` with a trap at each address of `live`, whose saved byte is the original
      and not a trap. */
  ghost predicate Faithful<D>(proc: Proc<D>, planted: map<Addr, byte>, orig: Proc<D>, live: set<Addr>) {
    && proc == Patched(orig, live)
    && Plants(orig.image.code, live)
    && live <= planted.Keys
    && forall a | a in live :: planted[a] == orig.image.code[a]
  }

  ghost predicate Tracking<D>(m: Machine<D>, opt: Options, start: Proc<D>, limit: nat,
                              proc: Proc<D>, b: Books, k: Progress<D>)
  {
    && Faithful(proc, b.planted, k.orig, Live(b.planted.Keys, k.replaced))
    && Untraced(m, start, limit) == Prepend(k.ran, UntracedFrom(m, k.sig, k.orig, k.left))
    && (k.replaced || AlignedFrom(m, k.sig, k.orig, b.planted.Keys, k.left))
    && |b.hits| + |b.planted| == b.count
    && if b.armed then Armed(m, opt, start, limit, b, k) else NotArmed(m, opt, start, limit, b, k)
  }

  ghost predicate Armed<D>(m: Machine<D>, opt: Options, start: Proc<D>, limit: nat, b: Books, k: Progress<D>) {
    && NeverStale(m, start, opt, limit) == NotStaleFrom(m, k.sig, k.orig, b.planted.Keys, k.replaced, k.left)
    && Entered(m, start, opt, limit) ==
       if k.replaced then b.hits
       else b.hits + LinkAddrs(b.base, FirstEntries(ImagePcsFrom(m, k.sig, k.orig, k.left), b.planted.Keys))
  }

  ghost predicate NotArmed<D>(m: Machine<D>, opt: Options, start: Proc<D>, limit: nat, b: Books, k: Progress<D>) {
    && b.planted == map[] && b.hits == [] && !k.replaced
    && !k.orig.image.isTarget
    && Entered(m, start, opt, limit) == EnteredFrom(m, k.sig, k.orig, opt, k.left)
    && NeverStale(m, start, opt, limit) == NeverStaleFrom(m, k.sig, k.orig, opt, k.left)
    && AlignedRunFrom(m, k.sig, k.orig, opt, k.left)
  }

  /** A stale breakpoint has been taken for one that fired: a hit too many is on the books for good. */
  ghost predicate Derailed<D>(m: Machine<D>, opt: Options, start: Proc<D>, limit: nat, b: Books) {
    && !NeverStale(m, start, opt, limit)
    && Entered(m, start, opt, limit) < b.hits
    && b.armed && |b.hits| + |b.planted| == b.count
  }

  /** How a run ends: as the untraced one, with the right hits, unless a stale breakpoint was met, and
      then with hits too many and none missing. */
  ghost predicate Settled<D>(m: Machine<D>, opt: Options, start: Proc<D>, limit: nat, b: Books, end: End, ran: seq<Visit<D>>) {
    && |b.hits| <= b.count
    && if NeverStale(m, start, opt, limit)
       then b.hits == Entered(m, start, opt, limit) && History(ran, end) == Untraced(m, start, limit)
       else Entered(m, start, opt, limit) < b.hits
  }

  /** How the loop continues from the kernel's stop. */
  ghost predicate Follows<D>(m: Machine<D>, proc: Proc<D>, k: Progress<D>, s: Stop<D>) {
    s == ContWith(m, k.sig, proc, k.left)
  }

  lemma UnpatchedByNothing<D>(p: Proc<D>)
    ensures Patched(p, {}) == p
  {
    assert Overlay(p.image.code, {}) == p.image.code;
  }

  lemma StopExplained<D(!new)>(m: Machine<D>, opt: Options, start: Proc<D>, limit: nat,
                               proc: Proc<D>, b: Books, k: Progress<D>, s: Stop<D>)
    requires Processor(m) && Tracking(m, opt, start, limit, proc, b, k) && Follows(m, proc, k, s)
    ensures ExplainsFrom(m, k.sig, k.orig, b.planted.Keys, k.replaced, k.left, s)
  {
    ContWithFollows(m, k.sig, k.orig, b.planted.Keys, k.replaced, k.left);
  }

  /** Before arming nothing is patched, and the kernel runs the helper itself. */
  lemma HelperExplained<D(!new)>(m: Machine<D>, opt: Options, start: Proc<D>, limit: nat,
                                 proc: Proc<D>, b: Books, k: Progress<D>, s: Stop<D>)
    requires Tracking(m, opt, start, limit, proc, b, k) && Follows(m, proc, k, s) && !b.armed
    requires Deliver(m, k.sig, k.orig).Running?
    ensures var q := Deliver(m, k.sig, k.orig).proc; !q.image.isTarget && q.image == k.orig.image && s == Cont(m, q, k.left)
    ensures match s.why
      case Finished(_) => Entered(m, start, opt, limit) == [] && NeverStale(m, start, opt, limit)
      case Signal(sig) =>
        && s.proc.image == k.orig.image && AlignedRunFrom(m, sig, s.proc, opt, s.left)
        && Entered(m, start, opt, limit) == EnteredFrom(m, sig, s.proc, opt, s.left)
        && NeverStale(m, start, opt, limit) == NeverStaleFrom(m, sig, s.proc, opt, s.left)
      case ExecEvent =>
        && AlignedRun(m, s.proc, opt, s.left)
        && Entered(m, start, opt, limit) == Entered(m, s.proc, opt, s.left)
        && NeverStale(m, start, opt, limit) == NeverStale(m, s.proc, opt, s.left)
  {
    UnpatchedByNothing(k.orig);
    ContBeforeTarget(m, Deliver(m, k.sig, k.orig).proc, opt, k.left);
  }

  lemma Finishes<D(!new)>(m: Machine<D>, opt: Options, start: Proc<D>, limit: nat,
                          proc: Proc<D>, b: Books, k: Progress<D>, s: Stop<D>)
    requires Processor(m) && Tracking(m, opt, start, limit, proc, b, k) && Follows(m, proc, k, s)
    requires s.why.Finished?
    ensures History(k.ran + s.ran, s.why.end) == Untraced(m, start, limit)
    ensures b.hits == Entered(m, start, opt, limit) && |b.hits| <= b.count
    ensures NeverStale(m, start, opt, limit)
  {
    StopExplained(m, opt, start, limit, proc, b, k, s);
    match Deliver(m, k.sig, k.orig)
    case Running(q) =>
      if b.armed {
        assert LinkAddrs(b.base, []) == [];
      } else {
        HelperExplained(m, opt, start, limit, proc, b, k, s);
      }
    case Ended(_) =>
      assert FirstEntries([], b.planted.Keys) == [] && LinkAddrs(b.base, []) == [];
  }

  function PassedOn<D>(k: Progress<D>, s: Stop<D>): Progress<D>
    requires s.why.Signal?
  {
    k.(orig := s.proc.(image := k.orig.image), sig := s.why.sig, left := s.left, ran := k.ran + s.ran)
  }

  lemma SignalPassedOn<D(!new)>(m: Machine<D>, opt: Options, start: Proc<D>, limit: nat,
                                proc: Proc<D>, b: Books, k: Progress<D>, s: Stop<D>)
    requires Processor(m) && Tracking(m, opt, start, limit, proc, b, k) && Follows(m, proc, k, s)
    requires s.why.Signal? && (s.why.sig == SIGTRAP ==> Minus(s.proc.pc, 1) !in b.planted)
    ensures Tracking(m, opt, start, limit, s.proc, b, PassedOn(k, s))
  {
    StopExplained(m, opt, start, limit, proc, b, k, s);
    var t := s.proc.(image := k.orig.image);
    PrependTwice(k.ran, s.ran, UntracedFrom(m, s.why.sig, t, s.left));
    if !b.armed {
      HelperExplained(m, opt, start, limit, proc, b, k, s);
      UnpatchedByNothing(k.orig);
    }
  }

  /** Progress once a breakpoint has been undone. */
  function Erased<D>(k: Progress<D>, s: Stop<D>): Progress<D>
    requires s.ran != []
  {
    k.(orig := s.proc.(image := k.orig.image, pc := Minus(s.proc.pc, 1)), sig := 0, left := s.left + 1,
       ran := k.ran + s.ran[..|s.ran| - 1])
  }

  lemma Shrinks(planted: map<Addr, byte>, addr: Addr)
    requires addr in planted
    ensures |planted - {addr}| == |planted| - 1 && (planted - {addr}).Keys == planted.Keys - {addr}
  {
    assert (planted - {addr}).Keys == planted.Keys - {addr};
    assert |(planted - {addr}).Keys| == |planted.Keys| - 1;
  }

  /** A trap stop that the tracer takes for one of its breakpoints, and can write to. */
  predicate Fires<D>(p: Proc<D>, planted: map<Addr, byte>) {
    Minus(p.pc, 1) in planted && Minus(p.pc, 1) in p.image.code
  }

  /** A stop with its breakpoint undone: the saved byte put back and the counter rewound onto it. */
  function Restored<D>(p: Proc<D>, planted: map<Addr, byte>): Proc<D>
    requires Minus(p.pc, 1) in planted
  {
    var addr := Minus(p.pc, 1);
    Proc(p.image.(code := p.image.code[addr := planted[addr]]), addr, p.data)
  }

  function WithHit(b: Books, addr: Addr): Books {
    b.(planted := b.planted - {addr}, hits := b.hits + [Minus(addr, b.base)])
  }

  lemma BreakpointUndone<D>(proc: Proc<D>, planted: map<Addr, byte>, orig: Proc<D>, addr: Addr)
    requires Faithful(proc, planted, orig, planted.Keys) && addr in planted
    requires Minus(proc.pc, 1) == addr
    ensures Faithful(Restored(proc, planted), planted - {addr}, orig.(pc := addr), (planted - {addr}).Keys)
  {
    Shrinks(planted, addr);
    assert proc.image.code[addr := planted[addr]] == Overlay(orig.image.code, planted.Keys - {addr});
  }

  lemma BreakpointReported<D>(m: Machine<D>, u: Proc<D>, left: nat, planted: set<Addr>, hits: seq<Addr>, base: Addr)
    requires 0 < left && u.pc in planted
    ensures hits + LinkAddrs(base, FirstEntries(ImagePcs(m, u, left), planted))
         == (hits + [Minus(u.pc, base)]) + LinkAddrs(base, FirstEntries(ImagePcsFrom(m, 0, u, left), planted - {u.pc}))
  {
    FirstEntered(ImagePcs(m, u, left), planted, base);
  }

  lemma FirstEntered(pcs: seq<Addr>, planted: set<Addr>, base: Addr)
    requires pcs != [] && pcs[0] in planted
    ensures LinkAddrs(base, FirstEntries(pcs, planted))
         == [Minus(pcs[0], base)] + LinkAddrs(base, FirstEntries(pcs, planted - {pcs[0]}))
  {
    assert FirstEntries(pcs, planted - {pcs[0]}) == FirstEntries(pcs[1..], planted - {pcs[0]});
  }

  /** A breakpoint of the running image has fired: where the program stands. */
  lemma TrapExplained<D(!new)>(m: Machine<D>, opt: Options, start: Proc<D>, limit: nat,
                               proc: Proc<D>, b: Books, k: Progress<D>, s: Stop<D>)
    requires Processor(m) && Tracking(m, opt, start, limit, proc, b, k) && Follows(m, proc, k, s)
    requires s.why == Signal(SIGTRAP) && Minus(s.proc.pc, 1) in b.planted && !k.replaced
    ensures b.armed && Deliver(m, k.sig, k.orig).Running?
    ensures var q, t := Deliver(m, k.sig, k.orig).proc, s.proc.(image := k.orig.image);
      && s.proc == Patched(t, b.planted.Keys)
      && Rewinds(m, q, b.planted.Keys, k.left, s, t.(pc := Minus(s.proc.pc, 1)))
  {
    StopExplained(m, opt, start, limit, proc, b, k, s);
  }

  /** From there on the run, its blocks and its stale traps are those ahead of the program. */
  lemma EraseTracks<D>(m: Machine<D>, opt: Options, start: Proc<D>, limit: nat, b: Books, k: Progress<D>,
                       s: Stop<D>, q: Proc<D>, u: Proc<D>)
    requires Armed(m, opt, start, limit, b, k) && !k.replaced && Deliver(m, k.sig, k.orig) == Running(q)
    requires Untraced(m, start, limit) == Prepend(k.ran, UntracedFrom(m, k.sig, k.orig, k.left))
    requires u.pc in b.planted && Rewinds(m, q, b.planted.Keys, k.left, s, u)
    ensures var k' := Progress(u, 0, s.left + 1, false, k.ran + s.ran[..|s.ran| - 1]);
      && Untraced(m, start, limit) == Prepend(k'.ran, UntracedFrom(m, 0, u, k'.left))
      && AlignedFrom(m, 0, u, b.planted.Keys - {u.pc}, k'.left)
      && Armed(m, opt, start, limit, WithHit(b, u.pc), k')
  {
    PrependTwice(k.ran, s.ran[..|s.ran| - 1], Untraced(m, u, s.left + 1));
    BreakpointReported(m, u, s.left + 1, b.planted.Keys, b.hits, b.base);
    Fired(m, u, b.planted.Keys, s.left + 1);
    Shrinks(b.planted, u.pc);
  }

  /** The tracer undoes it, and only the report shows. */
  lemma BreakpointErased<D(!new)>(m: Machine<D>, opt: Options, start: Proc<D>, limit: nat,
                                  proc: Proc<D>, b: Books, k: Progress<D>, s: Stop<D>)
    requires Processor(m) && Tracking(m, opt, start, limit, proc, b, k) && Follows(m, proc, k, s)
    requires s.why == Signal(SIGTRAP) && Minus(s.proc.pc, 1) in b.planted && !k.replaced
    ensures Fires(s.proc, b.planted) && s.ran != []
    ensures Tracking(m, opt, start, limit, Restored(s.proc, b.planted), WithHit(b, Minus(s.proc.pc, 1)), Erased(k, s))
  {
    TrapExplained(m, opt, start, limit, proc, b, k, s);
    var t := s.proc.(image := k.orig.image);
    assert Faithful(s.proc, b.planted, t, b.planted.Keys);
    RewoundTracks(m, opt, start, limit, b, k, s, Deliver(m, k.sig, k.orig).proc, t);
  }

  lemma RewoundTracks<D>(m: Machine<D>, opt: Options, start: Proc<D>, limit: nat, b: Books, k: Progress<D>,
                         s: Stop<D>, q: Proc<D>, t: Proc<D>)
    requires b.armed && |b.hits| + |b.planted| == b.count && Armed(m, opt, start, limit, b, k) && !k.replaced
    requires Deliver(m, k.sig, k.orig) == Running(q) && Minus(s.proc.pc, 1) in b.planted
    requires Untraced(m, start, limit) == Prepend(k.ran, UntracedFrom(m, k.sig, k.orig, k.left))
    requires t == s.proc.(image := k.orig.image) && Faithful(s.proc, b.planted, t, b.planted.Keys)
    requires Rewinds(m, q, b.planted.Keys, k.left, s, t.(pc := Minus(s.proc.pc, 1)))
    ensures Fires(s.proc, b.planted) && s.ran != []
    ensures Tracking(m, opt, start, limit, Restored(s.proc, b.planted), WithHit(b, Minus(s.proc.pc, 1)), Erased(k, s))
  {
    var addr := Minus(s.proc.pc, 1);
    BreakpointUndone(s.proc, b.planted, t, addr);
    EraseTracks(m, opt, start, limit, b, k, s, q, t.(pc := addr));
    OneFewer(m, opt, start, limit, Restored(s.proc, b.planted), b, Erased(k, s), addr);
  }

  lemma OneFewer<D>(m: Machine<D>, opt: Options, start: Proc<D>, limit: nat, proc: Proc<D>, b: Books, k: Progress<D>, addr: Addr)
    requires addr in b.planted && b.armed && |b.hits| + |b.planted| == b.count && !k.replaced
    requires Faithful(proc, b.planted - {addr}, k.orig, (b.planted - {addr}).Keys)
    requires Untraced(m, start, limit) == Prepend(k.ran, UntracedFrom(m, k.sig, k.orig, k.left))
    requires AlignedFrom(m, k.sig, k.orig, b.planted.Keys - {addr}, k.left)
    requires Armed(m, opt, start, limit, WithHit(b, addr), k)
    ensures Tracking(m, opt, start, limit, proc, WithHit(b, addr), k)
  {
    Shrinks(b.planted, addr);
  }

  /** A trap of an image that replaced the traced one, at an address still planted: it is taken for a
      breakpoint, and from then on there is a hit too many. */
  lemma StaleHit<D(!new)>(m: Machine<D>, opt: Options, start: Proc<D>, limit: nat,
                          proc: Proc<D>, b: Books, k: Progress<D>, s: Stop<D>)
    requires Processor(m) && Tracking(m, opt, start, limit, proc, b, k) && Follows(m, proc, k, s)
    requires s.why == Signal(SIGTRAP) && Minus(s.proc.pc, 1) in b.planted && k.replaced
    ensures Fires(s.proc, b.planted)
    ensures Derailed(m, opt, start, limit, WithHit(b, Minus(s.proc.pc, 1)))
  {
    StopExplained(m, opt, start, limit, proc, b, k, s);
    Shrinks(b.planted, Minus(s.proc.pc, 1));
  }

  /** Nothing the tracer does later takes the hit too many back. */
  lemma StaysDerailed<D>(m: Machine<D>, opt: Options, start: Proc<D>, limit: nat, b: Books, addr: Addr)
    requires Derailed(m, opt, start, limit, b) && addr in b.planted
    ensures Derailed(m, opt, start, limit, WithHit(b, addr))
  {
    Shrinks(b.planted, addr);
  }

  lemma ImageReplaced<D(!new)>(m: Machine<D>, opt: Options, start: Proc<D>, limit: nat,
                               proc: Proc<D>, b: Books, k: Progress<D>, s: Stop<D>)
    requires Processor(m) && Tracking(m, opt, start, limit, proc, b, k) && Follows(m, proc, k, s)
    requires s.why.ExecEvent? && b.armed
    ensures Tracking(m, opt, start, limit, s.proc, b, Progress(s.proc, 0, s.left, true, k.ran + s.ran))
  {
    StopExplained(m, opt, start, limit, proc, b, k, s);
    PrependTwice(k.ran, s.ran, Untraced(m, s.proc, s.left));
    UnpatchedByNothing(s.proc);
    assert LinkAddrs(b.base, []) == [];
  }

  /** An exec before the target is running leaves the run where arming may begin. */
  lemma ExecBeforeTarget<D(!new)>(m: Machine<D>, opt: Options, start: Proc<D>, limit: nat,
                                  proc: Proc<D>, b: Books, k: Progress<D>, s: Stop<D>)
    requires Processor(m) && Tracking(m, opt, start, limit, proc, b, k) && Follows(m, proc, k, s)
    requires s.why.ExecEvent? && !b.armed
    ensures Ahead(m, opt, start, limit, s.proc, s.left, k.ran + s.ran)
  {
    StopExplained(m, opt, start, limit, proc, b, k, s);
    HelperExplained(m, opt, start, limit, proc, b, k, s);
    PrependTwice(k.ran, s.ran, Untraced(m, s.proc, s.left));
  }

  lemma {:induction false} NothingEntered(pcs: seq<Addr>)
    ensures FirstEntries(pcs, {}) == []
  {
    if pcs != [] { NothingEntered(pcs[1..]); }
  }

  /** What is left of a run that has not been armed: all that it should report. */
  ghost predicate Ahead<D>(m: Machine<D>, opt: Options, start: Proc<D>, limit: nat, p: Proc<D>, left: nat, ran: seq<Visit<D>>) {
    && Untraced(m, start, limit) == Prepend(ran, Untraced(m, p, left))
    && Entered(m, start, opt, limit) == Entered(m, p, opt, left)
    && NeverStale(m, start, opt, limit) == NeverStale(m, p, opt, left)
    && AlignedRun(m, p, opt, left)
  }

  /** What `arm` leaves behind, whichever way it went. */
  ghost predicate ArmedOn<D>(p: Proc<D>, opt: Options, proc: Proc<D>, b: Books) {
    && b.hits == [] && b.count == |b.planted|
    && if p.image.isTarget then
         && b.armed && b.planted.Keys == PlantedIn(p.image, opt)
         && (Base(p.image, opt.pie).Some? ==> b.base == Base(p.image, opt.pie).value)
         && Faithful(proc, b.planted, p, b.planted.Keys)
       else
         !b.armed && b.planted == map[] && proc == p
  }

  lemma Arming<D(!new)>(m: Machine<D>, opt: Options, start: Proc<D>, limit: nat,
                        p: Proc<D>, left: nat, ran: seq<Visit<D>>, proc: Proc<D>, b: Books)
    requires ArmedOn(p, opt, proc, b) && Ahead(m, opt, start, limit, p, left, ran)
    ensures Tracking(m, opt, start, limit, proc, b, Progress(p, 0, left, false, ran))
  {
    if !b.armed {
      UnpatchedByNothing(p);
      assert b.planted.Keys == {};
      NothingMisaligned(m, p, left);
    } else if Base(p.image, opt.pie).None? {
      NothingEntered(ImagePcs(m, p, left));
      assert LinkAddrs(b.base, []) == [];
    } else {
      assert [] + Entered(m, p, opt, left) == Entered(m, p, opt, left);
    }
  }

  /** A signal stop on a tracked run, and what the tracer then did about it. */
  lemma SignalTracked<D(!new)>(m: Machine<D>, opt: Options, start: Proc<D>, limit: nat,
                               proc: Proc<D>, b: Books, k: Progress<D>, s: Stop<D>)
    returns (k': Progress<D>, off: bool)
    requires Processor(m) && Tracking(m, opt, start, limit, proc, b, k) && Follows(m, proc, k, s) && s.why.Signal?
    ensures var hit, addr := s.why.sig == SIGTRAP && Fires(s.proc, b.planted), Minus(s.proc.pc, 1);
      && (off ==> hit && Derailed(m, opt, start, limit, WithHit(b, addr)))
      && (!off && hit ==>
            && k'.sig == 0 && k'.left == s.left + 1
            && Tracking(m, opt, start, limit, Restored(s.proc, b.planted), WithHit(b, addr), k'))
      && (!hit ==> k'.sig == s.why.sig && k'.left == s.left && Tracking(m, opt, start, limit, s.proc, b, k'))
  {
    off := false;
    if s.why.sig != SIGTRAP || Minus(s.proc.pc, 1) !in b.planted {
      SignalPassedOn(m, opt, start, limit, proc, b, k, s);
      k' := PassedOn(k, s);
    } else if k.replaced {
      StaleHit(m, opt, start, limit, proc, b, k, s);
      k', off := k, true;
    } else {
      BreakpointErased(m, opt, start, limit, proc, b, k, s);
      k' := Erased(k, s);
    }
  }

  /** An exec stop on a tracked run, and what arming then did. */
  lemma ExecTracked<D(!new)>(m: Machine<D>, opt: Options, start: Proc<D>, limit: nat, proc: Proc<D>, b: Books,
                             k: Progress<D>, s: Stop<D>, proc': Proc<D>, b': Books) returns (k': Progress<D>)
    requires Processor(m) && Tracking(m, opt, start, limit, proc, b, k) && Follows(m, proc, k, s) && s.why.ExecEvent?
    requires if b.armed then proc' == s.proc && b' == b else ArmedOn(s.proc, opt, proc', b')
    ensures Tracking(m, opt, start, limit, proc', b', k') && k'.sig == 0 && k'.left == s.left
  {
    k' := Progress(s.proc, 0, s.left, b.armed, k.ran + s.ran);
    if b.armed {
      ImageReplaced(m, opt, start, limit, proc, b, k, s);
    } else {
      ExecBeforeTarget(m, opt, start, limit, proc, b, k, s);
      Arming(m, opt, start, limit, s.proc, s.left, k.ran + s.ran, proc', b');
    }
  }

  // ---- A stale breakpoint ----

  const FIRST := Image(true, None, map[0 := 1, 10 := 2])
  const SECOND := Image(false, None, map[10 := TRAP])

  /** Opcode 1 replaces the image by SECOND, any other opcode exits; signals are fatal. */
  const REPLACING: Machine<()> := Machine(
    1, b => 1,
    (bytes: seq<byte>, pc: Addr, d: ()) => if bytes == [1] then Exec(SECOND, 10, ()) else Exit(0),
    (s: nat, pc: Addr, d: ()) => Fatal)

  lemma StaleBreakpointStops()
    ensures PlantedIn(FIRST, Options([10], false)) == {10}
    ensures var s1 := Cont(REPLACING, Patched(Proc(FIRST, 0, ()), {10}), 3);
      && s1.why.ExecEvent? && s1.left == 2
      && Cont(REPLACING, s1.proc, 2) == Stop(Signal(SIGTRAP), Proc(SECOND, 11, ()), 1, [Visit(10, ())])
  {
    assert Plus(0, 10) == 10;
    assert 10 in Plantable(FIRST, [10], 0);
    assert Fetch(Overlay(FIRST.code, {10}), 0, 1) == [1];
  }

  lemma StaleBreakpointUntraced()
    ensures Untraced(REPLACING, Proc(FIRST, 0, ()), 3).end == Signaled(SIGTRAP)
    ensures !NeverStale(REPLACING, Proc(FIRST, 0, ()), Options([10], false), 3)
  {
    StaleBreakpointStops();
    assert Fetch(FIRST.code, 0, 1) == [1];
    assert UntracedStep(REPLACING, Proc(SECOND, 10, ())) == Ended(Signaled(SIGTRAP));
    assert !NotStale(REPLACING, Proc(SECOND, 10, ()), {10} - {0}, true, 2);
  }

  lemma StaleBreakpointRunsOn()
    ensures Cont(REPLACING, Restored(Proc(SECOND, 11, ()), map[10 := 2]), 2).why == Finished(Exited(0))
  {
    var p := Restored(Proc(SECOND, 11, ()), map[10 := 2]);
    assert Fetch(p.image.code, 10, 1) == [2];
  }

  /** A witness that runs can fail the condition: an image that replaces the traced one and executes a
      trap of its own at a stale breakpoint dies of it untraced, and runs on to a normal exit traced. */
  lemma StaleBreakpoint()
    ensures map[10 := FIRST.code[10]].Keys == PlantedIn(FIRST, Options([10], false))
    ensures Untraced(REPLACING, Proc(FIRST, 0, ()), 3).end == Signaled(SIGTRAP)
    ensures
      var planted := map[10 := FIRST.code[10]];
      var exec := Cont(REPLACING, Patched(Proc(FIRST, 0, ()), planted.Keys), 3);
      var trap := Cont(REPLACING, exec.proc, exec.left);
      && exec.why.ExecEvent? && trap.why == Signal(SIGTRAP) && Minus(trap.proc.pc, 1) in planted
      && Cont(REPLACING, Restored(trap.proc, planted), trap.left + 1).why == Finished(Exited(0))
    ensures !NeverStale(REPLACING, Proc(FIRST, 0, ()), Options([10], false), 3)
  {
    StaleBreakpointStops();
    StaleBreakpointRunsOn();
    StaleBreakpointUntraced();
    assert map[10 := FIRST.code[10]].Keys == {10};
  }

  /** The same trap after the block's breakpoint has fired is the new image's own, and nothing is stale. */
  lemma FiredIsNotStale(limit: nat)
    ensures var image := Image(true, None, map[10 := 1]);
      && PlantedIn(image, Options([10], false)) == {10}
      && NeverStale(REPLACING, Proc(image, 10, ()), Options([10], false), limit)
  {
    var p := Proc(Image(true, None, map[10 := 1]), 10, ());
    assert Plus(0, 10) == 10;
    assert 10 in Plantable(p.image, [10], 0);
    assert Fetch(p.image.code, 10, 1) == [1];
    assert UntracedStep(REPLACING, Proc(SECOND, 10, ())) == Ended(Signaled(SIGTRAP));
    assert limit > 0 ==> NotStale(REPLACING, Proc(SECOND, 10, ()), {10} - {10}, true, limit - 1);
  }

  // ---- The tracer ----

  class Session<D(!new)> {
    const m: Machine<D>
    const opt: Options
    var proc: Proc<D>
    var planted: map<Addr, byte>
    var base: Addr
    var armed: bool
    var hits: seq<Addr>
    var count: nat

    /** A tracer attached to a process stopped at its first exec. */
    constructor (m: Machine<D>, opt: Options, p: Proc<D>)
      ensures this.m == m && this.opt == opt && proc == p
      ensures View() == Books(map[], 0, false, [], 0)
    {
      this.m, this.opt, proc := m, opt, p;
      planted, base, armed, hits, count := map[], 0, false, [], 0;
    }

    ghost function View(): Books
      reads this
    {
      Books(planted, base, armed, hits, count)
    }

    /** Plants one breakpoint, unless the address is unmapped or already holds a trap. */
    method Plant(addr: Addr, ghost orig: Proc<D>)
      requires Faithful(proc, planted, orig, planted.Keys)
      modifies this`proc, this`planted
      ensures Faithful(proc, planted, orig, planted.Keys)
      ensures planted.Keys == old(planted.Keys) +
        if addr in orig.image.code && orig.image.code[addr] != TRAP then {addr} else {}
    {
      if addr in proc.image.code && proc.image.code[addr] != TRAP {
        var saved := proc.image.code[addr];
        proc := proc.(image := proc.image.(code := proc.image.code[addr := TRAP]));
        planted := planted[addr := saved];
        assert planted.Keys == old(planted.Keys) + {addr};
        assert proc.image.code == Overlay(orig.image.code, planted.Keys);
      } else {
        assert addr in planted || addr !in orig.image.code || orig.image.code[addr] == TRAP;
      }
    }

    /** Duplicates in the block list are harmless: the second read finds the trap. */
    method PlantAll(ghost orig: Proc<D>)
      requires Faithful(proc, planted, orig, {}) && planted == map[]
      modifies this`proc, this`planted
      ensures Faithful(proc, planted, orig, planted.Keys)
      ensures planted.Keys == Plantable(orig.image, opt.blocks, base)
    {
      for i := 0 to |opt.blocks|
        invariant Faithful(proc, planted, orig, planted.Keys)
        invariant planted.Keys == Plantable(orig.image, opt.blocks[..i], base)
      {
        PlantableStep(orig.image, opt.blocks, i, base);
        Plant(Plus(base, opt.blocks[i]), orig);
      }
      assert opt.blocks[..|opt.blocks|] == opt.blocks;
    }

    /** Plants the breakpoints once the tracee is the target. */
    method Arm()
      requires !armed ==> planted == map[] && hits == [] && count == 0
      modifies this
      ensures old(armed) ==> proc == old(proc) && View() == old(View())
      ensures !old(armed) ==> ArmedOn(old(proc), opt, proc, View())
      ensures !old(armed) && old(proc).image.isTarget ==>
        forall a: Addr :: a in planted <==> Watched(old(proc).image, opt, a)
    {
      forall a: Addr
        ensures a in PlantedIn(proc.image, opt) <==> Watched(proc.image, opt, a)
      {
        PlantedMeaning(proc.image, opt, a);
      }
      if armed || !proc.image.isTarget {
        return;
      }
      armed := true;
      ghost var orig := proc;
      UnpatchedByNothing(orig);
      if Base(proc.image, opt.pie).None? {
        return;
      }
      base := Base(proc.image, opt.pie).value;
      PlantAll(orig);
      count := |planted|;
    }

    /** Handles a trap stop: a planted one is undone and reported, any other is left alone, and so is
        one where the byte cannot be put back. */
    method Hit() returns (ok: bool)
      modifies this`proc, this`planted, this`hits
      ensures ok == Fires(old(proc), old(planted))
      ensures !ok ==> proc == old(proc) && View() == old(View())
      ensures ok ==> proc == Restored(old(proc), old(planted)) && View() == WithHit(old(View()), Minus(old(proc).pc, 1))
    {
      var addr := Minus(proc.pc, 1);
      if addr !in planted || addr !in proc.image.code {
        return false;
      }
      proc := proc.(image := proc.image.(code := proc.image.code[addr := planted[addr]]));
      planted := planted - {addr};
      proc := proc.(pc := Minus(proc.pc, 1));
      hits := hits + [Minus(addr, base)];
      return true;
    }

    /** A signal stop: the signal to continue with, and what the watchdog has left. An undone trap is
        not an instruction of the program. */
    method OnSignal(s: nat, left: nat) returns (sig: nat, left': nat)
      modifies this`proc, this`planted, this`hits
      ensures var hit := s == SIGTRAP && Fires(old(proc), old(planted));
        && sig == (if hit then 0 else s) && left' == (if hit then left + 1 else left)
        && proc == (if hit then Restored(old(proc), old(planted)) else old(proc))
        && View() == (if hit then WithHit(old(View()), Minus(old(proc).pc, 1)) else old(View()))
    {
      if s == SIGTRAP {
        var hit := Hit();
        if hit {
          return 0, left + 1;
        }
      }
      return s, left;
    }

    /** Whether the run so far is the untraced run, the code is the program's own but for the
        breakpoints still planted, and the hits are the blocks entered; or else a stale breakpoint has
        already put a hit too many on the books. */
    ghost predicate OnTrack(start: Proc<D>, limit: nat, k: Progress<D>, off: bool, sig: nat, left: nat)
      reads this
    {
      if off then Derailed(m, opt, start, limit, View())
      else Tracking(m, opt, start, limit, proc, View(), k) && sig == k.sig && left == k.left
    }

    /** A signal stop, for a run on track until then or for one already derailed. */
    method Signaled(s: nat, stop: Stop<D>, ghost start: Proc<D>, ghost limit: nat, ghost k: Progress<D>, ghost off: bool,
                    ghost before: Proc<D>)
      returns (sig: nat, left: nat, ghost k': Progress<D>, ghost off': bool)
      requires Processor(m) && proc == stop.proc && stop.why == Signal(s)
      requires if off then Derailed(m, opt, start, limit, View())
               else Tracking(m, opt, start, limit, before, View(), k) && Follows(m, before, k, stop)
      modifies this`proc, this`planted, this`hits
      ensures OnTrack(start, limit, k', off', sig, left)
      ensures left == stop.left || (left == stop.left + 1 && |planted| < |old(planted)|)
    {
      ghost var books := View();
      sig, left := OnSignal(s, stop.left);
      k', off' := k, off;
      if s == SIGTRAP && Fires(stop.proc, books.planted) {
        Shrinks(books.planted, Minus(stop.proc.pc, 1));
        if off { StaysDerailed(m, opt, start, limit, books, Minus(stop.proc.pc, 1)); }
      }
      if !off {
        k', off' := SignalTracked(m, opt, start, limit, before, books, k, stop);
      }
    }

    method Turn(sig: nat, left: nat, ghost start: Proc<D>, ghost limit: nat, ghost k: Progress<D>, ghost off: bool)
      returns (end: Option<End>, sig': nat, left': nat, ghost k': Progress<D>, ghost off': bool)
      requires Processor(m) && OnTrack(start, limit, k, off, sig, left)
      modifies this
      ensures end.None? ==> OnTrack(start, limit, k', off', sig', left')
      ensures end.None? ==> left' < left || (left' == left && |planted| < |old(planted)|)
      ensures end.Some? ==> Settled(m, opt, start, limit, View(), end.value, k'.ran)
    {
      ghost var before, books := proc, View();
      var stop := ContWith(m, sig, proc, left);
      proc := stop.proc;
      end, sig', left', k', off' := None, 0, stop.left, k, off;
      match stop.why
      case Finished(e) =>
        if !off {
          Finishes(m, opt, start, limit, before, books, k, stop);
          k' := k.(ran := k.ran + stop.ran);
        }
        end := Some(e);
      case Signal(s) =>
        sig', left', k', off' := Signaled(s, stop, start, limit, k, off, before);
      case ExecEvent =>
        Arm();
        if !off {
          k' := ExecTracked(m, opt, start, limit, before, books, k, stop, proc, View());
        }
    }

    /** Drives the tracee to its end. The ghost result is what it executed, breakpoint stops erased.
        The report is right exactly when no stale breakpoint is met, and then the run is the untraced
        one; otherwise there are hits too many, and none is missing. */
    method TraceRun(limit: nat) returns (out: Outcome, ghost ran: seq<Visit<D>>)
      requires Processor(m) && AlignedRun(m, proc, opt, limit)
      requires View() == Books(map[], 0, false, [], 0)
      modifies this
      ensures out.hits == Entered(m, old(proc), opt, limit) <==> NeverStale(m, old(proc), opt, limit)
      ensures NeverStale(m, old(proc), opt, limit) ==> History(ran, out.end) == Untraced(m, old(proc), limit)
      ensures Entered(m, old(proc), opt, limit) <= out.hits && |out.hits| <= out.planted
      ensures forall block: Addr | RunReports(m, old(proc), limit, opt, block) :: block in out.hits
      ensures NeverStale(m, old(proc), opt, limit) ==>
        forall block: Addr | block in out.hits :: RunReports(m, old(proc), limit, opt, block)
    {
      ghost var start := proc;
      forall block: Addr
        ensures block in Entered(m, start, opt, limit) <==> RunReports(m, start, limit, opt, block)
      {
        EnteredMeaning(m, start, opt, limit, block);
      }
      Arm();
      assert Prepend([], Untraced(m, start, limit)) == Untraced(m, start, limit);
      Arming(m, opt, start, limit, start, limit, [], proc, View());
      ghost var k, off := Progress(start, 0, limit, false, []), false;
      var end, sig, left := None, 0, limit;
      while end.None?
        invariant end.None? ==> OnTrack(start, limit, k, off, sig, left)
        invariant end.Some? ==> Settled(m, opt, start, limit, View(), end.value, k.ran)
        decreases end.None?, left, |planted|
      {
        end, sig, left, k, off := Turn(sig, left, start, limit, k, off);
      }
      return Outcome(end.value, hits, count), k.ran;
    }
  }
}
