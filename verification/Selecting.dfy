/**
 How far trimming goes: what it finds when the target cares for some bytes only.
 */
module Selecting {
  import opened Trim
  import opened Words

  /** The bytes that matter, in order. */
  function Keep(matters: byte -> bool, s: Bytes): Bytes {
    if s == [] then [] else (if matters(s[0]) then [s[0]] else []) + Keep(matters, s[1..])
  }

  lemma {:induction false} KeepJoined(matters: byte -> bool, a: Bytes, b: Bytes)
    ensures Keep(matters, a + b) == Keep(matters, a) + Keep(matters, b)
    decreases |a|
  {
    if a == [] {
      assert a + b == b;
    } else {
      assert (a + b)[1..] == a[1..] + b;
      KeepJoined(matters, a[1..], b);
      Regroup(if matters(a[0]) then [a[0]] else [], Keep(matters, a[1..]), Keep(matters, b));
    }
  }

  lemma Regroup(a: Bytes, b: Bytes, c: Bytes)
    ensures a + (b + c) == (a + b) + c
  {
  }

  lemma {:induction false} KeepAll(matters: byte -> bool, s: Bytes)
    requires forall k | 0 <= k < |s| :: matters(s[k])
    ensures Keep(matters, s) == s
    decreases |s|
  {
    if s != [] { KeepAll(matters, s[1..]); }
  }

  /** A target that never fails and reaches the same places as long as the bytes that matter are there. */
  ghost predicate Selective(run: Target, want: Outcome, matters: byte -> bool, kept: Bytes) {
    forall k, s :: !run(k, s).failed && (SameAs(run(k, s), want) <==> Keep(matters, s) == kept)
  }

  lemma KeepAround(matters: byte -> bool, a: Bytes, x: byte, b: Bytes)
    ensures Keep(matters, a + ([x] + b)) == Keep(matters, a) + ((if matters(x) then [x] else []) + Keep(matters, b))
  {
    KeepJoined(matters, a, [x] + b);
    assert ([x] + b)[1..] == b;
  }

  /** Taking out one byte keeps what matters exactly when that byte does not. */
  lemma OneOut(matters: byte -> bool, s: Bytes, pos: nat)
    requires pos < |s|
    ensures Keep(matters, Without(s, pos, 1)) == Keep(matters, s) <==> !matters(s[pos])
  {
    var a, x, b := s[..pos], s[pos], s[pos + 1..];
    Apart(s, pos);
    KeepAround(matters, a, x, b);
    KeepJoined(matters, a, b);
    Longer(Keep(matters, a), if matters(x) then [x] else [], Keep(matters, b));
  }

  lemma Apart(s: Bytes, pos: nat)
    requires pos < |s|
    ensures s == s[..pos] + ([s[pos]] + s[pos + 1..]) && Without(s, pos, 1) == s[..pos] + s[pos + 1..]
  {
  }

  lemma Longer(a: Bytes, x: Bytes, b: Bytes)
    ensures a + b == a + (x + b) <==> x == []
  {
    assert |a + (x + b)| == |a + b| + |x|;
  }

  lemma {:induction false} SweepSelects(run: Target, want: Outcome, budget: nat, step: nat, pos: int, s: State,
                                        matters: byte -> bool, kept: Bytes)
    requires Selective(run, want, matters, kept) && Keep(matters, s.cur) == kept && step >= 1 && pos + step <= |s.cur|
    ensures Keep(matters, Sweep(run, want, budget, step, pos, s).cur) == kept
    decreases pos
  {
    if pos >= 0 && s.spent < budget && |s.cur| - step >= 1 {
      var candidate := Without(s.cur, pos, step);
      var o := run(s.spent, candidate);
      SweepSelects(run, want, budget, step, pos - step,
                   State(if SameAs(o, want) then candidate else s.cur, s.spent + 1), matters, kept);
    }
  }

  /** Every byte from a place on matters. */
  predicate AllMatter(matters: byte -> bool, s: Bytes, from: int)
    requires from >= 0
  {
    forall k | from <= k < |s| :: matters(s[k])
  }

  lemma OneFurther(matters: byte -> bool, s: Bytes, pos: nat)
    requires pos < |s| && AllMatter(matters, s, pos + 1)
    ensures AllMatter(matters, Without(s, pos, 1), pos) && (matters(s[pos]) ==> AllMatter(matters, s, pos))
  {
    var c := Without(s, pos, 1);
    forall k | pos <= k < |c|
      ensures matters(c[k])
    {
      assert c[k] == s[k + 1];
    }
  }

  /** The last pass, one byte at a time, goes through to the front, whatever it removes on the way. */
  lemma {:induction false} LastSweep(run: Target, want: Outcome, budget: nat, pos: int, s: State,
                                     matters: byte -> bool, kept: Bytes)
    requires Selective(run, want, matters, kept) && Keep(matters, s.cur) == kept
    requires -1 <= pos && pos + 1 <= |s.cur| && AllMatter(matters, s.cur, pos + 1)
    ensures var r := Sweep(run, want, budget, 1, pos, s); r.spent >= budget || AllMatter(matters, r.cur, 0) || |r.cur| == 1
    decreases pos
  {
    if pos >= 0 && s.spent < budget && |s.cur| > 1 {
      var candidate := Without(s.cur, pos, 1);
      OneOut(matters, s.cur, pos);
      OneFurther(matters, s.cur, pos);
      var next := State(if SameAs(run(s.spent, candidate), want) then candidate else s.cur, s.spent + 1);
      LastSweep(run, want, budget, pos - 1, next, matters, kept);
    }
  }

  /** One pass from the back to the front. */
  lemma PassSelects(run: Target, want: Outcome, budget: nat, step: nat, s: State, matters: byte -> bool, kept: Bytes, t: State)
    requires Selective(run, want, matters, kept) && Keep(matters, s.cur) == kept && s.cur != [] && s.spent <= budget
    requires step >= 1 && t == Sweep(run, want, budget, step, |s.cur| - step, s)
    ensures Keep(matters, t.cur) == kept && t.cur != [] && t.spent <= budget
    ensures step == 1 ==> t.spent >= budget || AllMatter(matters, t.cur, 0) || |t.cur| == 1
  {
    SweepSelects(run, want, budget, step, |s.cur| - step, s, matters, kept);
    SweepSpends(run, want, budget, step, |s.cur| - step, s);
    if step == 1 { LastSweep(run, want, budget, |s.cur| - 1, s, matters, kept); }
  }

  lemma {:induction false} ShrinkSelects(run: Target, want: Outcome, budget: nat, step: nat, s: State,
                                         matters: byte -> bool, kept: Bytes, r: State)
    requires Selective(run, want, matters, kept) && Keep(matters, s.cur) == kept && s.cur != [] && s.spent <= budget
    requires step >= 1 && r == Shrink(run, want, budget, step, s)
    ensures Keep(matters, r.cur) == kept && r.cur != []
    ensures r.spent >= budget || AllMatter(matters, r.cur, 0) || |r.cur| == 1
    decreases step
  {
    var t := Sweep(run, want, budget, step, |s.cur| - step, s);
    PassSelects(run, want, budget, step, s, matters, kept, t);
    if t.spent < budget {
      if step == 1 {
        assert Shrink(run, want, budget, 0, t) == t;
      } else {
        ShrinkSelects(run, want, budget, step / 2, t, matters, kept, r);
      }
    }
  }

  /** Of such a target, an input of four bytes or more is trimmed to exactly the bytes that matter, unless the
      budget runs out; to a single byte if none does. */
  lemma TrimmedToWhatMatters(run: Target, want: Outcome, budget: int, input: Bytes, matters: byte -> bool)
    requires |input| >= 4 && budget > 0 && Selective(run, want, matters, Keep(matters, input))
    ensures var r := Trimmed(run, want, budget, true, input);
      r.spent < budget ==>
        if Keep(matters, input) == [] then |r.cur| == 1 else r.cur == Keep(matters, input)
  {
    var r := Trimmed(run, want, budget, true, input);
    ShrinkSelects(run, want, budget, |input| / 4, State(input, 0), matters, Keep(matters, input), r);
    if r.spent < budget {
      if AllMatter(matters, r.cur, 0) {
        KeepAll(matters, r.cur);
      } else {
        KeepOne(matters, r.cur);
      }
    }
  }

  lemma KeepOne(matters: byte -> bool, s: Bytes)
    requires |s| == 1
    ensures Keep(matters, s) == [] || Keep(matters, s) == s
  {
    assert s[1..] == [];
  }

  /** What trimming returns for a deterministic target: the same coverage and the same states, at every execution. */
  lemma TrimmedKeepsSignatures(run: Target, want: Outcome, budget: int, covered: bool, input: Bytes, k: nat)
    requires Deterministic(run) && run(0, input).coverage == want.coverage && run(0, input).states == want.states
    ensures var r := Trimmed(run, want, budget, covered, input).cur;
      run(k, r).coverage == run(0, input).coverage && run(k, r).states == run(0, input).states
  {
    TrimmedIsSafe(run, want, budget, covered, input);
    var r := Trimmed(run, want, budget, covered, input).cur;
    assert SameAs(run(k, r), want);
  }
}
