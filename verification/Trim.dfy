/**
 Trimming: a newly interesting input loses runs of bytes while it still reaches the same places.

 The k-th execution of one trimming may depend on k: what needs a deterministic target says so.
 */
module Trim {
  import opened Words

  type Bytes = seq<byte>

  /** What one execution shows: whether it failed, and its coverage and state signatures. */
  datatype Outcome = Outcome(failed: bool, coverage: int, states: int)

  type Target = (nat, Bytes) -> Outcome

  /** What an input reaches depends on its bytes alone. */
  ghost predicate Deterministic(run: Target) {
    forall i, j, b :: run(i, b) == run(j, b)
  }

  ghost predicate Reaches(run: Target, want: Outcome, s: Bytes) {
    forall k :: SameAs(run(k, s), want)
  }

  predicate SameAs(o: Outcome, want: Outcome) {
    o.coverage == want.coverage && o.states == want.states
  }

  function Without(s: Bytes, pos: nat, n: nat): Bytes
    requires pos + n <= |s|
  {
    s[..pos] + s[pos + n..]
  }

  // ----- What trimming computes -----

  /** An input under trimming and the executions spent on it. */
  datatype State = State(cur: Bytes, spent: nat)

  /** One pass at one step width, from the end towards the front. */
  function Sweep(run: Target, want: Outcome, budget: nat, step: nat, pos: int, s: State): (r: State)
    requires step >= 1 && pos + step <= |s.cur|
    ensures |r.cur| <= |s.cur| && (s.cur != [] ==> r.cur != [])
    ensures |r.cur| == |s.cur| ==> r.cur == s.cur
    decreases pos
  {
    if pos < 0 || s.spent >= budget || |s.cur| - step < 1 then s
    else
      var candidate := Without(s.cur, pos, step);
      var o, spent := run(s.spent, candidate), s.spent + 1;
      if o.failed then State(s.cur, spent)
      else if !SameAs(o, want) then Sweep(run, want, budget, step, pos - step, State(s.cur, spent))
      else Sweep(run, want, budget, step, pos - step, State(candidate, spent))
  }

  /** Passes of halving width, until the width is zero or the budget is spent. */
  function Shrink(run: Target, want: Outcome, budget: nat, step: nat, s: State): (r: State)
    ensures |r.cur| <= |s.cur| && (s.cur != [] ==> r.cur != [])
    ensures |r.cur| == |s.cur| ==> r.cur == s.cur
    decreases step
  {
    if step < 1 then s
    else
      var t := Sweep(run, want, budget, step, |s.cur| - step, s);
      if t.spent >= budget then t else Shrink(run, want, budget, step / 2, t)
  }

  function Trimmed(run: Target, want: Outcome, budget: int, covered: bool, input: Bytes): State {
    if budget <= 0 || !covered || |input| <= 2 then State(input, 0)
    else Shrink(run, want, budget, |input| / 4, State(input, 0))
  }

  // ----- Every execution is paid for -----

  lemma {:induction false} SweepSpends(run: Target, want: Outcome, budget: nat, step: nat, pos: int, s: State)
    requires step >= 1 && pos + step <= |s.cur| && s.spent <= budget
    ensures s.spent <= Sweep(run, want, budget, step, pos, s).spent <= budget
    decreases pos
  {
    if pos >= 0 && s.spent < budget && |s.cur| - step >= 1 {
      var candidate := Without(s.cur, pos, step);
      var o, spent := run(s.spent, candidate), s.spent + 1;
      if !o.failed {
        SweepSpends(run, want, budget, step, pos - step, State(if SameAs(o, want) then candidate else s.cur, spent));
      }
    }
  }

  lemma {:induction false} ShrinkSpends(run: Target, want: Outcome, budget: nat, step: nat, s: State)
    requires s.spent <= budget
    ensures s.spent <= Shrink(run, want, budget, step, s).spent <= budget
    decreases step
  {
    if step >= 1 {
      var t := Sweep(run, want, budget, step, |s.cur| - step, s);
      SweepSpends(run, want, budget, step, |s.cur| - step, s);
      if t.spent < budget {
        ShrinkSpends(run, want, budget, step / 2, t);
        assert Shrink(run, want, budget, step, s) == Shrink(run, want, budget, step / 2, t);
      }
    }
  }

  // ----- What is kept is part of the input and reaches the same places -----

  /** Positions in a sequence of length n, in strictly increasing order. */
  predicate Positions(ps: seq<nat>, n: nat) {
    (forall i, j | 0 <= i < j < |ps| :: ps[i] < ps[j]) && (forall i | 0 <= i < |ps| :: ps[i] < n)
  }

  predicate Picks(ps: seq<nat>, input: Bytes, s: Bytes) {
    Positions(ps, |input|) && |ps| == |s| && forall i | 0 <= i < |s| :: s[i] == input[ps[i]]
  }

  /** A subsequence: some bytes left out, the others in order. */
  ghost predicate IsPart(s: Bytes, input: Bytes) {
    exists ps :: Picks(ps, input, s)
  }

  lemma Whole(input: Bytes)
    ensures IsPart(input, input)
  {
    var ps: seq<nat> := seq(|input|, i => i);
    assert Picks(ps, input, input);
  }

  lemma WithoutIsPart(s: Bytes, input: Bytes, pos: nat, n: nat)
    requires IsPart(s, input) && pos + n <= |s|
    ensures IsPart(Without(s, pos, n), input)
  {
    var ps :| Picks(ps, input, s);
    var qs := ps[..pos] + ps[pos + n..];
    assert Picks(qs, input, Without(s, pos, n));
  }

  /** Kept so far: a part of the input that, of a deterministic target, reaches what the input reached. */
  ghost predicate Kept(run: Target, want: Outcome, input: Bytes, s: Bytes) {
    IsPart(s, input) && (Deterministic(run) ==> Reaches(run, want, s))
  }

  lemma {:induction false} SweepKeeps(run: Target, want: Outcome, budget: nat, step: nat, pos: int, s: State, input: Bytes)
    requires step >= 1 && pos + step <= |s.cur| && Kept(run, want, input, s.cur)
    ensures Kept(run, want, input, Sweep(run, want, budget, step, pos, s).cur)
    decreases pos
  {
    if pos >= 0 && s.spent < budget && |s.cur| - step >= 1 {
      var candidate := Without(s.cur, pos, step);
      var o, spent := run(s.spent, candidate), s.spent + 1;
      WithoutIsPart(s.cur, input, pos, step);
      if !o.failed {
        SweepKeeps(run, want, budget, step, pos - step, State(if SameAs(o, want) then candidate else s.cur, spent), input);
      }
    }
  }

  lemma {:induction false} ShrinkKeeps(run: Target, want: Outcome, budget: nat, step: nat, s: State, input: Bytes)
    requires Kept(run, want, input, s.cur)
    ensures Kept(run, want, input, Shrink(run, want, budget, step, s).cur)
    decreases step
  {
    if step >= 1 {
      var t := Sweep(run, want, budget, step, |s.cur| - step, s);
      SweepKeeps(run, want, budget, step, |s.cur| - step, s, input);
      if t.spent < budget {
        ShrinkKeeps(run, want, budget, step / 2, t, input);
      }
    }
  }

  /** Whatever the target does, trimming stays within its budget. */
  lemma TrimmedSpends(run: Target, want: Outcome, budget: int, covered: bool, input: Bytes)
    ensures Trimmed(run, want, budget, covered, input).spent <= if budget > 0 then budget else 0
  {
    if budget > 0 && covered && |input| > 2 {
      ShrinkSpends(run, want, budget, |input| / 4, State(input, 0));
    }
  }

  /** Trimming is safe: a non-empty part of the input, and with its signatures if the target is
      deterministic. */
  lemma TrimmedIsSafe(run: Target, want: Outcome, budget: int, covered: bool, input: Bytes)
    requires Deterministic(run) ==> SameAs(run(0, input), want)
    ensures var r := Trimmed(run, want, budget, covered, input);
      && IsPart(r.cur, input) && (Deterministic(run) ==> Reaches(run, want, r.cur))
      && (input != [] ==> r.cur != [])
  {
    Whole(input);
    assert Kept(run, want, input, input);
    if budget > 0 && covered && |input| > 2 {
      ShrinkKeeps(run, want, budget, |input| / 4, State(input, 0), input);
    }
  }

  lemma TrimmedReaches(run: Target, want: Outcome, budget: int, covered: bool, input: Bytes)
    ensures var r := Trimmed(run, want, budget, covered, input).cur;
      Deterministic(run) && SameAs(run(0, input), want) ==> IsPart(r, input) && Reaches(run, want, r)
  {
    if Deterministic(run) && SameAs(run(0, input), want) {
      TrimmedIsSafe(run, want, budget, covered, input);
    }
  }

  // ----- What an untrimmed input tells -----

  /** No run of `step` bytes starting at a tried position can go. */
  predicate Needed(run: Target, want: Outcome, s: Bytes, step: nat, pos: int)
    requires step >= 1 && pos + step <= |s|
    decreases pos
  {
    pos >= 0 ==> !SameAs(run(0, Without(s, pos, step)), want) && Needed(run, want, s, step, pos - step)
  }

  ghost predicate NeverFails(run: Target) {
    forall k, s :: !run(k, s).failed
  }

  lemma {:induction false} SweepTriesAll(run: Target, want: Outcome, budget: nat, step: nat, pos: int, s: State)
    requires step >= 1 && pos + step <= |s.cur| && NeverFails(run) && Deterministic(run) && |s.cur| > step
    requires var r := Sweep(run, want, budget, step, pos, s); |r.cur| == |s.cur| && r.spent < budget
    ensures Needed(run, want, s.cur, step, pos) && Sweep(run, want, budget, step, pos, s).cur == s.cur
    decreases pos
  {
    if pos >= 0 && s.spent < budget {
      SweepTriesAll(run, want, budget, step, pos - step, State(s.cur, s.spent + 1));
    }
  }

  lemma {:induction false} NeededAt(run: Target, want: Outcome, s: Bytes, pos: int, k: nat)
    requires pos + 1 <= |s| && Needed(run, want, s, 1, pos) && k <= pos
    ensures !SameAs(run(0, Without(s, k, 1)), want)
    decreases pos
  {
    if k < pos {
      NeededAt(run, want, s, pos - 1, k);
    }
  }

  lemma {:induction false} ShrinkTriesAll(run: Target, want: Outcome, budget: nat, step: nat, s: State, k: nat)
    requires step >= 1 && NeverFails(run) && Deterministic(run) && |s.cur| > step && k < |s.cur|
    requires var r := Shrink(run, want, budget, step, s); |r.cur| == |s.cur| && r.spent < budget
    ensures !SameAs(run(0, Without(s.cur, k, 1)), want)
    decreases step
  {
    var t := Sweep(run, want, budget, step, |s.cur| - step, s);
    if t.spent < budget {
      SweepTriesAll(run, want, budget, step, |s.cur| - step, s);
      if step == 1 {
        NeededAt(run, want, s.cur, |s.cur| - 1, k);
      } else {
        ShrinkTriesAll(run, want, budget, step / 2, t, k);
      }
    }
  }

  /** An input of four bytes or more that comes back whole with budget to spare cannot lose any one byte. */
  lemma WholeMeansMinimal(run: Target, want: Outcome, budget: int, input: Bytes, k: nat)
    requires budget > 0 && |input| >= 4 && NeverFails(run) && Deterministic(run) && k < |input|
    requires var r := Trimmed(run, want, budget, true, input); |r.cur| == |input| && r.spent < budget
    ensures !SameAs(run(0, Without(input, k, 1)), want)
  {
    ShrinkTriesAll(run, want, budget, |input| / 4, State(input, 0), k);
  }

  // ----- The engine's loop -----

  class Engine {
    const run: Target
    const trimBudget: int
    const covered: bool
    var execs: nat
    var trimExecs: nat
    var trimSaved: nat

    constructor (run: Target, trimBudget: int, covered: bool)
      ensures this.run == run && this.trimBudget == trimBudget && this.covered == covered
      ensures execs == trimExecs == trimSaved == 0
    {
      this.run, this.trimBudget, this.covered := run, trimBudget, covered;
      execs, trimExecs, trimSaved := 0, 0, 0;
    }

    /** `want` is what the execution that made the input interesting reached. */
    method Trim(input: Bytes, want: Outcome) returns (r: Bytes)
      modifies this
      ensures r == Trimmed(run, want, trimBudget, covered, input).cur
      ensures var spent := Trimmed(run, want, trimBudget, covered, input).spent;
        execs == old(execs) + spent && trimExecs == old(trimExecs) + spent
      ensures trimSaved == old(trimSaved) + (|input| - |r|)
      ensures Deterministic(run) && SameAs(run(0, input), want) ==> IsPart(r, input) && Reaches(run, want, r)
    {
      TrimmedReaches(run, want, trimBudget, covered, input);
      if trimBudget <= 0 || !covered || |input| <= 2 {
        return input;
      }
      var cur, spent := input, 0;
      var step := |cur| / 4;
      while step >= 1
        invariant cur != [] && |cur| <= |input| && spent >= 0 && step >= 0
        invariant execs == old(execs) + spent && trimExecs == old(trimExecs) + spent && trimSaved == old(trimSaved)
        invariant Shrink(run, want, trimBudget, step, State(cur, spent))
               == Trimmed(run, want, trimBudget, covered, input)
        decreases step
      {
        cur, spent := Pass(cur, spent, step, want);
        if spent >= trimBudget {
          break;
        }
        step := step / 2;
      }
      if |cur| == |input| {
        return input;
      }
      trimSaved := trimSaved + (|input| - |cur|);
      return cur;
    }

    method Pass(start: Bytes, before: nat, step: nat, want: Outcome) returns (cur: Bytes, spent: nat)
      requires trimBudget > 0 && step >= 1
      modifies this`execs, this`trimExecs
      ensures State(cur, spent) == Sweep(run, want, trimBudget, step, |start| - step, State(start, before))
      ensures execs == old(execs) + (spent - before) && trimExecs == old(trimExecs) + (spent - before)
    {
      cur, spent := start, before;
      var pos := |cur| - step;
      while pos >= 0 && spent < trimBudget
        invariant pos + step <= |cur| && spent >= before
        invariant execs == old(execs) + (spent - before) && trimExecs == old(trimExecs) + (spent - before)
        invariant Sweep(run, want, trimBudget, step, pos, State(cur, spent))
               == Sweep(run, want, trimBudget, step, |start| - step, State(start, before))
        decreases pos
      {
        if |cur| - step < 1 {
          break;
        }
        var candidate := cur[..pos] + cur[pos + step..];
        var o := run(spent, candidate);
        spent := spent + 1;
        execs := execs + 1;
        trimExecs := trimExecs + 1;
        if o.failed {
          break;
        }
        if SameAs(o, want) {
          cur := candidate;
          if pos > |cur| {
            pos := |cur|;
          }
        }
        pos := pos - step;
      }
    }
  }
}
