/**
 The limits of the execution budget are the best there are: runs that end exactly at them.
 */
module Attained {
  import opened Words
  import opened Substitution
  import opened Stages
  import Trim

  /** A target that never again reaches what it reached makes trimming keep nothing and try on. */
  ghost predicate NeverAgain(run: Trim.Target, want: Trim.Outcome) {
    forall k, b :: !run(k, b).failed && !Trim.SameAs(run(k, b), want)
  }

  lemma {:induction false} SweepTries(run: Trim.Target, want: Trim.Outcome, budget: nat, step: nat, pos: int, s: Trim.State)
    requires NeverAgain(run, want)
    requires |s.cur| > step >= 1 && pos + step <= |s.cur| && s.spent <= budget
    ensures var r := Trim.Sweep(run, want, budget, step, pos, s);
      && r.cur == s.cur && s.spent <= r.spent <= budget
      && (step == 1 && pos >= 0 ==> r.spent == budget || r.spent >= s.spent + pos + 1)
    decreases pos
  {
    if pos >= 0 && s.spent < budget {
      SweepTries(run, want, budget, step, pos - step, Trim.State(s.cur, s.spent + 1));
    }
  }

  lemma {:induction false} ShrinkTries(run: Trim.Target, want: Trim.Outcome, budget: nat, step: nat, s: Trim.State)
    requires NeverAgain(run, want)
    requires |s.cur| > step >= 1 && s.spent <= budget <= |s.cur|
    ensures Trim.Shrink(run, want, budget, step, s).spent == budget
    decreases step
  {
    var t := Trim.Sweep(run, want, budget, step, |s.cur| - step, s);
    SweepTries(run, want, budget, step, |s.cur| - step, s);
    if t.spent < budget {
      ShrinkTries(run, want, budget, step / 2, t);
    }
  }

  /** A candidate that is interesting and no finding, of such a target. */
  function Costly(): Verdict {
    Verdict(false, true, false, Trim.Outcome(false, -1, 0), (k: nat, b: Bytes) => Trim.Outcome(false, 0, 0))
  }

  /** On an input long enough each costs all that a candidate can. */
  lemma CostlyCosts(env: Env, s: Stats, input: Bytes)
    requires env.covered && |input| >= 4 && |input| >= env.trimBudget
    ensures Evaluated(env, s, input, Costly()).execs == s.execs + Cost(env)
  {
    if env.trimBudget > 0 {
      ShrinkTries(Costly().run, Costly().reached, env.trimBudget, |input| / 4, Trim.State(input, 0));
    }
  }

  /** With only the mutation stage the limit is reached, for every budget and every trim budget. */
  lemma LimitIsReached(maxExecs: nat, trimBudget: int) returns (env: Env)
    requires maxExecs > 0
    ensures env.maxExecs == maxExecs && env.trimBudget == trimBudget && !env.cmp
    ensures Run(env, Stats(maxExecs - 1, 0, 0, 0), 0, 1).execs == Limit(env)
  {
    var input := Zeros(4 + if trimBudget > 0 then trimBudget else 0);
    var a := Candidate(input, Costly());
    env := Env((k: nat) => a, (k: nat) => Round([], false, [], 1), trimBudget, true, maxExecs, false, false);
    var s1 := Stats(maxExecs - 1, 0, 0, 1);
    var s2 := Evaluated(env, s1.(asked := 2), input, a.v);
    CostlyCosts(env, s1.(asked := 2), input);
    assert Havoc(env, s2, 0) == (s2, Finished);
    assert Havoc(env, s1, 1).0 == s2;
  }

  // ----- And with the comparison stage -----

  /** An edit that the stage will make, and whose candidate is long enough to cost what it can. */
  ghost predicate Usable(env: Env, parent: Bytes, e: Edit) {
    && |e.needle| >= MIN_WIDTH && e.needle != e.want
    && Splice(parent, e).Some? && |Splice(parent, e).value| >= 4 && |Splice(parent, e).value| >= env.trimBudget
  }

  ghost predicate AllCostly(env: Env) {
    env.covered && forall k :: env.tape(k).Candidate? && env.tape(k).v == Costly()
  }

  lemma TriedOnce(env: Env, parent: Bytes, c: Cmp, e: Edit)
    requires AllCostly(env) && Usable(env, parent, e) && e !in c.tried
    ensures var d := TryOne(env, parent, c, e);
      && d.stats.execs == c.stats.execs + Cost(env) && d.end == Finished
      && d.tried == c.tried + {e} && d.spent == c.spent + 1
  {
    var s := c.stats.(asked := c.stats.asked + 1);
    CostlyCosts(env, s.(cmpExecs := s.cmpExecs + 1), Splice(parent, e).value);
  }

  lemma {:induction false} AllTried(env: Env, parent: Bytes, c: Cmp, es: seq<Edit>)
    requires AllCostly(env) && c.end == Finished && c.spent + |es| <= MAX_CANDIDATES
    requires forall i | 0 <= i < |es| :: Usable(env, parent, es[i]) && es[i] !in c.tried
    requires forall i, j | 0 <= i < j < |es| :: es[i] != es[j]
    ensures var d := TryAll(env, parent, c, es);
      d.stats.execs == c.stats.execs + |es| * Cost(env) && d.end == Finished
    decreases |es|
  {
    if es != [] {
      var d := TryOne(env, parent, c, es[0]);
      TriedOnce(env, parent, c, es[0]);
      AllTried(env, parent, d, es[1..]);
      OneMore(|es[1..]|, Cost(env));
    }
  }

  // Two operands, 0x1011 and 0x2022, whose twenty edits are all different.

  const A8: seq<byte> := [17, 16, 0, 0, 0, 0, 0, 0]
  const B8: seq<byte> := [34, 32, 0, 0, 0, 0, 0, 0]
  const UP8: seq<byte> := [35, 32, 0, 0, 0, 0, 0, 0]
  const DOWN8: seq<byte> := [33, 32, 0, 0, 0, 0, 0, 0]
  const BIG_A8: seq<byte> := [0, 0, 0, 0, 0, 0, 16, 17]
  const BIG_B8: seq<byte> := [0, 0, 0, 0, 0, 0, 32, 34]

  const TWENTY := Record(false, 8, [17, 16, 0, 0, 0, 0, 0, 0, 0, 0, 0, 0, 0, 0, 0, 0],
                                   [34, 32, 0, 0, 0, 0, 0, 0, 0, 0, 0, 0, 0, 0, 0, 0])

  lemma Operands()
    ensures AsNumber(TWENTY.a, 8) == 4113 && AsNumber(TWENTY.b, 8) == 8226
  {
    assert TWENTY.a[..8] == A8 && TWENTY.b[..8] == B8;
    assert LeValue(A8) == 4113 && LeValue(B8) == 8226;
  }

  lemma Little()
    ensures Le(4113, 8) == A8 && Le(8226, 8) == B8 && Le(8227, 8) == UP8 && Le(8225, 8) == DOWN8
  {
    assert LeValue(A8) == 4113 && LeValue(B8) == 8226 && LeValue(UP8) == 8227 && LeValue(DOWN8) == 8225;
    LeOfValue(A8);
    LeOfValue(B8);
    LeOfValue(UP8);
    LeOfValue(DOWN8);
  }

  lemma Big()
    ensures Be(4113, 8) == BIG_A8 && Be(8226, 8) == BIG_B8
  {
    Little();
    BeIsReversed(4113, 8);
    BeIsReversed(8226, 8);
    Backwards(A8);
    Backwards(B8);
  }

  lemma Backwards(s: seq<byte>)
    requires |s| == 8
    ensures Reverse(s) == [s[7], s[6], s[5], s[4], s[3], s[2], s[1], s[0]]
  {
    LastFour(s);
    LastFirst(s, 3);
    LastFirst(s, 2);
    LastFirst(s, 1);
    LastFirst(s, 0);
    assert s[0..] == s;
  }

  lemma LastFour(s: seq<byte>)
    requires |s| == 8
    ensures Reverse(s[4..]) == [s[7], s[6], s[5], s[4]]
  {
    LastFirst(s, 7);
    LastFirst(s, 6);
    LastFirst(s, 5);
    LastFirst(s, 4);
  }

  lemma LastFirst(s: seq<byte>, k: nat)
    requires k < |s|
    ensures Reverse(s[k..]) == Reverse(s[k + 1..]) + [s[k]]
  {
    assert s[k..][1..] == s[k + 1..];
  }

  lemma TwoBytes()
    ensures Le(4113, 2) == [17, 16] && Le(8226, 2) == [34, 32] && Be(4113, 2) == [16, 17] && Be(8226, 2) == [32, 34]
  {
  }

  lemma FourBytes()
    ensures Le(4113, 4) == [17, 16, 0, 0] && Le(8226, 4) == [34, 32, 0, 0]
  {
  }

  lemma FourBytesBig()
    ensures Be(4113, 4) == [0, 0, 16, 17] && Be(8226, 4) == [0, 0, 32, 34]
  {
  }

  lemma Texts()
    ensures Digits(4113, 10) == [52, 49, 49, 51] && Digits(8226, 10) == [56, 50, 50, 54]
    ensures Digits(4113, 16) == [49, 48, 49, 49] && Digits(8226, 16) == [50, 48, 50, 50]
  {
  }

  function Twenty(): (es: seq<Edit>)
    ensures |es| == 20
  {
    [Edit(A8, B8), Edit(B8, A8), Edit(BIG_A8, BIG_B8), Edit(BIG_B8, BIG_A8),
     Edit([52, 49, 49, 51], [56, 50, 50, 54]), Edit([56, 50, 50, 54], [52, 49, 49, 51]),
     Edit([49, 48, 49, 49], [50, 48, 50, 50]), Edit([50, 48, 50, 50], [49, 48, 49, 49]),
     Edit([17, 16], [34, 32]), Edit([34, 32], [17, 16]), Edit([16, 17], [32, 34]), Edit([32, 34], [16, 17]),
     Edit([17, 16, 0, 0], [34, 32, 0, 0]), Edit([34, 32, 0, 0], [17, 16, 0, 0]),
     Edit([0, 0, 16, 17], [0, 0, 32, 34]), Edit([0, 0, 32, 34], [0, 0, 16, 17]),
     Edit(A8, UP8), Edit(UP8, A8), Edit(A8, DOWN8), Edit(DOWN8, A8)]
  }

  lemma WholeAre()
    ensures Whole(4113, 8226, 8) == Twenty()[..8]
  {
    Little();
    Big();
    Texts();
  }

  /** Two operands that fit in two bytes fit in four. */
  lemma NarrowerSteps(a: Addr, b: Addr)
    requires FitsIn(a, 2) && FitsIn(b, 2) && FitsIn(a, 4) && FitsIn(b, 4)
    ensures Narrower(a, b, 2, 8) ==
      (Both(Le(a, 2), Le(b, 2)) + Both(Be(a, 2), Be(b, 2))) + (Both(Le(a, 4), Le(b, 4)) + Both(Be(a, 4), Be(b, 4)))
  {
    var four := Both(Le(a, 4), Le(b, 4)) + Both(Be(a, 4), Be(b, 4));
    assert Narrower(a, b, 8, 8) == [];
    assert Narrower(a, b, 4, 8) == four + [];
    assert four + [] == four;
  }

  lemma NarrowerAre()
    ensures Narrower(4113, 8226, 2, 8) == Twenty()[8..16]
  {
    assert FitsIn(4113, 2) && FitsIn(8226, 2) && FitsIn(4113, 4) && FitsIn(8226, 4);
    TwoBytes();
    FourBytes();
    FourBytesBig();
    NarrowerOf(4113, 8226);
  }

  lemma NarrowerOf(a: Addr, b: Addr)
    requires FitsIn(a, 2) && FitsIn(b, 2) && FitsIn(a, 4) && FitsIn(b, 4)
    requires Le(a, 2) == [17, 16] && Le(b, 2) == [34, 32] && Be(a, 2) == [16, 17] && Be(b, 2) == [32, 34]
    requires Le(a, 4) == [17, 16, 0, 0] && Le(b, 4) == [34, 32, 0, 0]
    requires Be(a, 4) == [0, 0, 16, 17] && Be(b, 4) == [0, 0, 32, 34]
    ensures Narrower(a, b, 2, 8) == Twenty()[8..16]
  {
    NarrowerSteps(a, b);
  }

  lemma NeighboursAre()
    ensures Neighbours(4113, 8226, 8) == Twenty()[16..]
  {
    Little();
  }

  /** Where an edit stands among the twenty. */
  function Slot(e: Edit): int
    requires |e.needle| >= 2 && e.want != []
  {
    var first, last, want := e.needle[0], e.needle[|e.needle| - 1], e.want[0];
    if |e.needle| == 2 then
      if first == 17 then 8 else if first == 34 then 9 else if first == 16 then 10 else 11
    else if |e.needle| == 4 then
      if first == 52 then 4 else if first == 56 then 5 else if first == 49 then 6 else if first == 50 then 7
      else if first == 17 then 12 else if first == 34 then 13 else if last == 17 then 14 else 15
    else if first == 17 then
      if want == 34 then 0 else if want == 35 then 16 else 18
    else if first == 34 then 1 else if first == 35 then 17 else if first == 33 then 19
    else if last == 17 then 2 else 3
  }

  predicate WellMade(e: Edit) {
    && 2 <= |e.needle| <= 8 && e.want != []
    && (e.needle[0] != e.want[0] || e.needle[|e.needle| - 1] != e.want[|e.want| - 1])
  }

  /** Twenty edits that the stage will make, each at its own place in the list. */
  predicate AreTwenty(es: seq<Edit>) {
    |es| == 20 && forall i | 0 <= i < 20 :: WellMade(es[i]) && Slot(es[i]) == i
  }

  lemma WholeDiffer()
    ensures forall i | 0 <= i < 8 :: WellMade(Twenty()[i]) && Slot(Twenty()[i]) == i
  {
  }

  lemma NarrowerDiffer()
    ensures forall i | 8 <= i < 16 :: WellMade(Twenty()[i]) && Slot(Twenty()[i]) == i
  {
  }

  lemma NeighboursDiffer()
    ensures forall i | 16 <= i < 20 :: WellMade(Twenty()[i]) && Slot(Twenty()[i]) == i
  {
  }

  lemma TwentyDiffer(es: seq<Edit>)
    requires es == Twenty()
    ensures AreTwenty(es)
  {
    WholeDiffer();
    NarrowerDiffer();
    NeighboursDiffer();
  }

  lemma Pieces(es: seq<Edit>)
    requires |es| == 20
    ensures es == es[..8] + es[8..16] + es[16..]
  {
  }

  lemma Suggested(r: Record)
    requires !r.memory && r.size == 8
    ensures var a, b := AsNumber(r.a, 8), AsNumber(r.b, 8);
      Substitutions(r) == Whole(a, b, 8) + Narrower(a, b, MIN_WIDTH, 8) + Neighbours(a, b, 8)
  {
  }

  /** One comparison can suggest twenty edits, all different. */
  lemma TwentyDifferent() returns (r: Record, es: seq<Edit>)
    ensures Substitutions(r) == es && AreTwenty(es)
  {
    r, es := TWENTY, Twenty();
    Operands();
    WholeAre();
    NarrowerAre();
    NeighboursAre();
    Suggested(r);
    Pieces(es);
    TwentyDiffer(es);
  }

  /** The needles of some edits, one after the other. */
  function Joined(es: seq<Edit>, tail: Bytes): (s: Bytes)
    ensures |s| >= |tail|
  {
    if es == [] then tail else es[0].needle + Joined(es[1..], tail)
  }

  lemma {:induction false} FoundInJoined(es: seq<Edit>, tail: Bytes, i: nat)
    requires i < |es|
    ensures exists j: nat :: FoundAt(Joined(es, tail), es[i].needle, j)
    decreases |es|
  {
    var n, later := es[0].needle, Joined(es[1..], tail);
    assert Joined(es, tail) == n + later;
    if i == 0 {
      assert FoundAt(n + later, n, 0);
      assert FoundAt(Joined(es, tail), es[i].needle, 0);
    } else {
      FoundInJoined(es[1..], tail, i - 1);
      var j: nat :| FoundAt(later, es[1..][i - 1].needle, j);
      FoundLater(n, later, es[i].needle, j);
      assert FoundAt(Joined(es, tail), es[i].needle, |n| + j);
    }
  }

  lemma FoundLater(head: Bytes, s: Bytes, needle: Bytes, j: nat)
    requires FoundAt(s, needle, j)
    ensures FoundAt(head + s, needle, |head| + j)
  {
    assert (head + s)[|head| + j..|head| + j + |needle|] == s[j..j + |needle|];
  }

  lemma SpliceLength(s: Bytes, e: Edit)
    requires Splice(s, e).Some?
    ensures |Splice(s, e).value| == |s| - |e.needle| + |e.want|
  {
  }

  lemma UsableEdit(env: Env, parent: Bytes, e: Edit)
    requires WellMade(e) && |parent| >= 12 && |parent| >= env.trimBudget + 12
    requires exists j: nat :: FoundAt(parent, e.needle, j)
    ensures Usable(env, parent, e)
  {
    SpliceLength(parent, e);
  }

  function Tail(env: Env): (s: Bytes)
    ensures |s| >= 12 && |s| >= env.trimBudget + 12
  {
    Zeros(12 + if env.trimBudget > 0 then env.trimBudget else 0)
  }

  lemma AllTwentyTried(env: Env, parent: Bytes, c: Cmp, es: seq<Edit>)
    requires AllCostly(env) && c.end == Finished && c.spent == 0 && c.tried == {}
    requires AreTwenty(es) && parent == Joined(es, Tail(env))
    ensures var d := TryAll(env, parent, c, es);
      d.stats.execs == c.stats.execs + 20 * Cost(env) && d.end == Finished
  {
    forall i | 0 <= i < 20
      ensures Usable(env, parent, es[i])
    {
      FoundInJoined(es, Tail(env), i);
      UsableEdit(env, parent, es[i]);
    }
    forall i, j | 0 <= i < j < 20
      ensures es[i] != es[j]
    {
      assert Slot(es[i]) == i && Slot(es[j]) == j;
    }
    AllTried(env, parent, c, es);
  }

  /** A stage with one comparison is the edits of that comparison. */
  lemma OneComparison(env: Env, s: Stats, parent: Bytes, r: Record, c: Cmp)
    requires parent != [] && !env.tape(s.asked).Stop? && !OverBudget(env, ParentRun(s))
    requires c == Cmp(ParentRun(s).(asked := s.asked + 1), {}, 0, [], Finished)
    ensures CmpStage(env, s, Round(parent, false, [r], 0)) == TryAll(env, parent, c, Substitutions(r))
  {
    var rs := [r];
    assert rs[0] == r && rs[1..] == [];
    var c0 := Cmp(ParentRun(s), {}, 0, [], Finished);
    assert TryRecords(env, parent, c0, rs) == TryRecords(env, parent, TryAll(env, parent, c, Substitutions(r)), []);
  }

  /** A run whose first stage ends well and past the budget is that stage. */
  lemma OneTurn(env: Env, s: Stats, d: Cmp, rounds: nat)
    requires env.cmp && !env.tape(s.asked).Stop? && !OverBudget(env, s) && env.rounds(0).energy == 0 && rounds >= 1
    requires CmpStage(env, s.(asked := s.asked + 1), env.rounds(0)) == d && d.end == Finished && OverBudget(env, d.stats)
    ensures Run(env, s, 0, rounds).execs == d.stats.execs
  {
    assert OneRound(env, s.(asked := s.asked + 1), env.rounds(0)) == (d.stats, Finished);
    assert Run(env, d.stats, 1, rounds).execs == d.stats.execs;
  }

  /** A stage whose one comparison suggests the twenty edits. */
  lemma TwentyAndParent(env: Env, s: Stats, parent: Bytes, r: Record, es: seq<Edit>)
    requires AllCostly(env) && !OverBudget(env, ParentRun(s)) && Substitutions(r) == es
    requires AreTwenty(es) && parent == Joined(es, Tail(env))
    ensures var d := CmpStage(env, s, Round(parent, false, [r], 0));
      d.stats.execs == s.execs + 1 + 20 * Cost(env) && d.end == Finished
  {
    var c := Cmp(ParentRun(s).(asked := s.asked + 1), {}, 0, [], Finished);
    OneComparison(env, s, parent, r, c);
    AllTwentyTried(env, parent, c, es);
  }

  lemma CostlyStage(maxExecs: nat, trimBudget: int, s: Stats) returns (env: Env)
    requires maxExecs >= 2 && s.execs == maxExecs - 2
    ensures env.maxExecs == maxExecs && env.trimBudget == trimBudget && env.cmp && AllCostly(env)
    ensures env.rounds(0).energy == 0
    ensures var d := CmpStage(env, s, env.rounds(0));
      d.stats.execs == s.execs + 1 + 20 * Cost(env) && d.end == Finished
  {
    var r, es := TwentyDifferent();
    var parent := Joined(es, Zeros(12 + if trimBudget > 0 then trimBudget else 0));
    var a, turn := Candidate([], Costly()), Round(parent, false, [r], 0);
    env := Env((k: nat) => a, (k: nat) => turn, trimBudget, true, maxExecs, false, true);
    TwentyAndParent(env, s, parent, r, es);
  }

  /** With the comparison stage too: a parent run and then twenty candidates, each at full cost. */
  lemma CmpLimitIsReached(maxExecs: nat, trimBudget: int, rounds: nat) returns (env: Env)
    requires maxExecs >= 2 && rounds >= 1
    ensures env.maxExecs == maxExecs && env.trimBudget == trimBudget && env.cmp
    ensures Run(env, Stats(maxExecs - 2, 0, 0, 0), 0, rounds).execs == Limit(env)
  {
    var s := Stats(maxExecs - 2, 0, 0, 1);
    env := CostlyStage(maxExecs, trimBudget, s);
    OneTurn(env, s.(asked := 0), CmpStage(env, s, env.rounds(0)), rounds);
  }
}
