/**
 How far the stages go: what is drawn, tried and executed before they stop, and why they stop.
 */
module Drawing {
  import opened Stages
  import opened Substitution
  import opened Words

  // ---- The mutation stage ----

  /** What n answers from the one numbered `from` on cost: an execution for each candidate, and its trimming. */
  function Spent(env: Env, from: nat, n: nat): nat {
    Candidates(env, from, n) + Trimming(env, from, n)
  }

  function Candidates(env: Env, from: nat, n: nat): nat {
    if n == 0 then 0 else Candidates(env, from, n - 1) + if env.tape(from + n - 1).Candidate? then 1 else 0
  }

  function Trimming(env: Env, from: nat, n: nat): nat {
    if n == 0 then 0
    else Trimming(env, from, n - 1) + match env.tape(from + n - 1)
      case Candidate(encoded, v) => Trims(env, encoded, v)
      case _ => 0
  }

  lemma {:induction false} SpentFirst(env: Env, from: nat, n: nat)
    requires n > 0
    ensures Candidates(env, from, n) == Candidates(env, from, 1) + Candidates(env, from + 1, n - 1)
    ensures Trimming(env, from, n) == Trimming(env, from, 1) + Trimming(env, from + 1, n - 1)
    decreases n
  {
    if n > 1 {
      SpentFirst(env, from, n - 1);
      assert from + 1 + (n - 1) - 1 == from + n - 1;
    }
  }

  lemma OneAnswer(env: Env, from: nat)
    ensures match env.tape(from)
      case Candidate(encoded, v) => Candidates(env, from, 1) == 1 && Trimming(env, from, 1) == Trims(env, encoded, v)
      case _ => Candidates(env, from, 1) == 0 && Trimming(env, from, 1) == 0
  {
    assert Candidates(env, from, 0) == 0 && Trimming(env, from, 0) == 0;
    assert from + 1 - 1 == from;
  }

  /** Whether the answer after n others ends the stage before it is taken: a stop, or the budget. */
  predicate Stops(env: Env, s: Stats, n: nat) {
    env.tape(s.asked + n).Stop? || (env.maxExecs > 0 && s.execs + Spent(env, s.asked, n) >= env.maxExecs)
  }

  /** Whether the n-th answer is a candidate that ends the run. */
  predicate Final(env: Env, s: Stats, n: nat) {
    match env.tape(s.asked + n)
    case Candidate(_, v) => v.error || (v.finding && env.stopOnFirst)
    case _ => false
  }

  /** The stage took n answers one after the other, those without a candidate too, and ended with its energy
      spent, at something that stops it, or with a candidate that ends the run. */
  ghost predicate Took(env: Env, s: Stats, energy: nat, n: nat, t: Stats, end: End) {
    && n <= energy && t.execs == s.execs + Spent(env, s.asked, n)
    && t.trimExecs == s.trimExecs + Trimming(env, s.asked, n) && t.cmpExecs == s.cmpExecs
    && (forall k | 0 <= k < n :: !Stops(env, s, k))
    && (forall k | 0 <= k < n - 1 :: !Final(env, s, k))
    && if n > 0 && Final(env, s, n - 1) then t.asked == s.asked + n && end != Finished
       else end == Finished && if n == energy then t.asked == s.asked + n else Stops(env, s, n) && t.asked == s.asked + n + 1
  }

  lemma TookNone(env: Env, s: Stats, energy: nat, t: Stats)
    requires if energy == 0 then t == s else Stops(env, s, 0) && t == s.(asked := s.asked + 1)
    ensures Took(env, s, energy, 0, t, Finished)
  {
  }

  lemma TookLast(env: Env, s: Stats, energy: nat, t: Stats, end: End)
    requires energy > 0 && !Stops(env, s, 0) && Final(env, s, 0) && end != Finished
    requires t.asked == s.asked + 1 && t.execs == s.execs + Spent(env, s.asked, 1)
    requires t.trimExecs == s.trimExecs + Trimming(env, s.asked, 1) && t.cmpExecs == s.cmpExecs
    ensures Took(env, s, energy, 1, t, end)
  {
  }

  lemma {:induction false} HavocGoesOn(env: Env, s: Stats, energy: nat) returns (n: nat)
    ensures Took(env, s, energy, n, Havoc(env, s, energy).0, Havoc(env, s, energy).1)
    decreases energy
  {
    var (t, end) := Havoc(env, s, energy);
    var a, s1 := env.tape(s.asked), s.(asked := s.asked + 1);
    if energy == 0 || a.Stop? || OverBudget(env, s) {
      n := 0;
      TookNone(env, s, energy, t);
    } else {
      OneAnswer(env, s.asked);
      var s2 := if a.Candidate? then Evaluated(env, s1, a.encoded, a.v) else s1;
      if a.Candidate? && Outcome(env, a.v) != Finished {
        n := 1;
        TookLast(env, s, energy, t, end);
      } else {
        n := HavocGoesOn(env, s2, energy - 1);
        TookOneMore(env, s, s2, energy, n, t, end);
        n := n + 1;
      }
    }
  }

  lemma TookOneMore(env: Env, s: Stats, s2: Stats, energy: nat, n: nat, t: Stats, end: End)
    requires s2.asked == s.asked + 1 && s2.execs == s.execs + Spent(env, s.asked, 1)
    requires s2.trimExecs == s.trimExecs + Trimming(env, s.asked, 1) && s2.cmpExecs == s.cmpExecs
    requires energy > 0 && !Stops(env, s, 0) && !Final(env, s, 0) && Took(env, s2, energy - 1, n, t, end)
    ensures Took(env, s, energy, n + 1, t, end)
  {
    Later(env, s, s2, n + 1);
    SpentFirst(env, s.asked, n + 1);
    forall k | 0 <= k < n + 1
      ensures !Stops(env, s, k) && (k < n ==> !Final(env, s, k))
    {
      if k > 0 { assert !Stops(env, s2, k - 1) && (k < n ==> !Final(env, s2, k - 1)); }
    }
  }

  lemma Later(env: Env, s: Stats, s2: Stats, n: nat)
    requires s2.asked == s.asked + 1 && s2.execs == s.execs + Spent(env, s.asked, 1)
    ensures forall k | 0 < k <= n :: (Stops(env, s, k) <==> Stops(env, s2, k - 1)) && (Final(env, s, k) <==> Final(env, s2, k - 1))
    ensures n > 0 ==> s.execs + Spent(env, s.asked, n) == s2.execs + Spent(env, s2.asked, n - 1)
  {
    forall k | 0 < k <= n
      ensures s.execs + Spent(env, s.asked, k) == s2.execs + Spent(env, s2.asked, k - 1)
    {
      SpentFirst(env, s.asked, k);
    }
    forall k | 0 < k <= n
      ensures (Stops(env, s, k) <==> Stops(env, s2, k - 1)) && (Final(env, s, k) <==> Final(env, s2, k - 1))
    {
      assert s.asked + k == s2.asked + (k - 1);
    }
  }

  // ---- The comparison stage ----

  /** The edits of a list that a candidate is asked for: wide enough, changing something, not tried before,
      and with their needle in the parent. */
  function ToAsk(parent: Bytes, tried: set<Edit>, es: seq<Edit>): seq<Edit>
    decreases |es|
  {
    if es == [] then []
    else
      var e := es[0];
      if |e.needle| < 2 || e.needle == e.want || e in tried then ToAsk(parent, tried, es[1..])
      else if Splice(parent, e).None? then ToAsk(parent, tried + {e}, es[1..])
      else [e] + ToAsk(parent, tried + {e}, es[1..])
  }

  /** The stage after it has asked for an edit: a candidate is executed, counted, and trimmed if it is to be. */
  function AskedOne(env: Env, parent: Bytes, c: Cmp, e: Edit): Cmp
    requires Splice(parent, e).Some?
  {
    match env.tape(c.stats.asked)
    case Candidate(_, v) =>
      var cost := Trims(env, Splice(parent, e).value, v);
      c.(stats := Stats(c.stats.execs + 1 + cost, c.stats.trimExecs + cost, c.stats.cmpExecs + 1, c.stats.asked + 1),
         spent := c.spent + 1, made := c.made + [e],
         end := if v.error then Failed else if v.finding && env.stopOnFirst then Found else Finished)
    case _ => c.(stats := c.stats.(asked := c.stats.asked + 1))
  }

  /** And after some edits, one answer each. */
  function Asked(env: Env, parent: Bytes, c: Cmp, es: seq<Edit>): Cmp
    requires forall e | e in es :: Splice(parent, e).Some?
    decreases |es|
  {
    if es == [] then c else Asked(env, parent, AskedOne(env, parent, c, es[0]), es[1..])
  }

  lemma {:induction false} ToAskSplices(parent: Bytes, tried: set<Edit>, es: seq<Edit>)
    ensures forall e | e in ToAsk(parent, tried, es) :: Splice(parent, e).Some?
    decreases |es|
  {
    if es != [] {
      ToAskSplices(parent, tried, es[1..]);
      ToAskSplices(parent, tried + {es[0]}, es[1..]);
    }
  }

  lemma {:induction false} AskedTried(env: Env, parent: Bytes, c: Cmp, tried: set<Edit>, es: seq<Edit>)
    requires forall e | e in es :: Splice(parent, e).Some?
    ensures Asked(env, parent, c.(tried := tried), es) == Asked(env, parent, c, es).(tried := tried)
    decreases |es|
  {
    if es != [] {
      var d := AskedOne(env, parent, c, es[0]);
      assert AskedOne(env, parent, c.(tried := tried), es[0]) == d.(tried := tried);
      AskedTried(env, parent, d, tried, es[1..]);
    }
  }

  /** Whether the stage takes no further edit. */
  predicate Over(c: Cmp) {
    c.end != Finished || c.spent >= 96
  }

  /** One comparison: its edits are asked for one after the other, each once, until a candidate ends the run or
      the parent has had its 96; what cannot be asked for is passed over. */
  ghost predicate AskedFirstN(env: Env, parent: Bytes, c: Cmp, es: seq<Edit>, n: nat, d: Cmp) {
    var all := ToAsk(parent, c.tried, es);
    ToAskSplices(parent, c.tried, es);
    && n <= |all| && d.(tried := c.tried) == Asked(env, parent, c, all[..n])
    && (n < |all| ==> Over(d))
    && c.tried <= d.tried
    && (!Over(d) ==> forall e | e in es && |e.needle| >= 2 && e.needle != e.want :: e in d.tried)
  }

  lemma {:induction false} TryAllGoesOn(env: Env, parent: Bytes, c: Cmp, es: seq<Edit>) returns (n: nat)
    ensures AskedFirstN(env, parent, c, es, n, TryAll(env, parent, c, es))
    decreases |es|
  {
    n := 0;
    var all := ToAsk(parent, c.tried, es);
    assert all[..0] == [];
    if es != [] && !Over(c) {
      var e, c1 := es[0], TryOne(env, parent, c, es[0]);
      n := TryAllGoesOn(env, parent, c1, es[1..]);
      if |e.needle| >= 2 && e.needle != e.want && e !in c.tried {
        if Splice(parent, e).Some? {
          n := n + 1;
          OneAsked(env, parent, c, es, n, TryAll(env, parent, c1, es[1..]));
        } else {
          NoneAsked(env, parent, c, c.(tried := c.tried + {e}), es, n, TryAll(env, parent, c1, es[1..]));
        }
      } else {
        NoneAsked(env, parent, c, c, es, n, TryAll(env, parent, c1, es[1..]));
      }
    }
  }

  lemma NoneAsked(env: Env, parent: Bytes, c: Cmp, c1: Cmp, es: seq<Edit>, n: nat, d: Cmp)
    requires es != [] && c1 == c.(tried := c1.tried) && c.tried <= c1.tried
    requires ToAsk(parent, c.tried, es) == ToAsk(parent, c1.tried, es[1..])
    requires |es[0].needle| >= 2 && es[0].needle != es[0].want ==> es[0] in c1.tried
    requires AskedFirstN(env, parent, c1, es[1..], n, d)
    ensures AskedFirstN(env, parent, c, es, n, d)
  {
    ToAskSplices(parent, c.tried, es);
    AskedTried(env, parent, c1, c.tried, ToAsk(parent, c.tried, es)[..n]);
    assert c1.(tried := c.tried) == c;
    assert forall e | e in es :: e == es[0] || e in es[1..];
  }

  lemma OneAsked(env: Env, parent: Bytes, c: Cmp, es: seq<Edit>, n: nat, d: Cmp)
    requires es != [] && n > 0 && c.end == Finished
    requires var e := es[0]; |e.needle| >= 2 && e.needle != e.want && e !in c.tried && Splice(parent, e).Some?
    requires AskedFirstN(env, parent, TryOne(env, parent, c, es[0]), es[1..], n - 1, d)
    ensures AskedFirstN(env, parent, c, es, n, d)
  {
    var e, c1 := es[0], TryOne(env, parent, c, es[0]);
    var rest := ToAsk(parent, c.tried + {e}, es[1..]);
    var all := ToAsk(parent, c.tried, es);
    assert all == [e] + rest && c1.tried == c.tried + {e};
    ToAskSplices(parent, c.tried, es);
    assert all[..n][1..] == rest[..n - 1] && all[..n][0] == e;
    AskOne(env, parent, c, e);
    AskedTried(env, parent, c1, c.tried, rest[..n - 1]);
    assert forall f | f in es :: f == e || f in es[1..];
  }

  lemma AskOne(env: Env, parent: Bytes, c: Cmp, e: Edit)
    requires |e.needle| >= 2 && e.needle != e.want && e !in c.tried && Splice(parent, e).Some? && c.end == Finished
    ensures AskedOne(env, parent, c, e) == TryOne(env, parent, c, e).(tried := c.tried)
  {
  }

  /** The edits of each comparison. */
  function Suggested(rs: seq<Record>): (ess: seq<seq<Edit>>)
    ensures |ess| == |rs|
    decreases |rs|
  {
    if rs == [] then [] else [Substitutions(rs[0])] + Suggested(rs[1..])
  }

  /** The stage after n comparisons, a look at whether to stop before each. */
  function AfterRecords(env: Env, parent: Bytes, c: Cmp, ess: seq<seq<Edit>>, n: nat): Cmp
    requires n <= |ess|
    decreases n
  {
    if n == 0 then c
    else
      var d := AfterRecords(env, parent, c, ess, n - 1);
      TryAll(env, parent, d.(stats := d.stats.(asked := d.stats.asked + 1)), ess[n - 1])
  }

  predicate StopsStage(env: Env, c: Cmp) {
    env.tape(c.stats.asked).Stop? || c.spent >= 96 || (env.maxExecs > 0 && c.stats.execs >= env.maxExecs)
  }

  lemma {:induction false} AfterFirst(env: Env, parent: Bytes, c: Cmp, ess: seq<seq<Edit>>, n: nat, c1: Cmp)
    requires 0 < n <= |ess| && c1 == TryAll(env, parent, c.(stats := c.stats.(asked := c.stats.asked + 1)), ess[0])
    ensures AfterRecords(env, parent, c, ess, n) == AfterRecords(env, parent, c1, ess[1..], n - 1)
    decreases n
  {
    if n > 1 {
      AfterFirst(env, parent, c, ess, n - 1, c1);
      assert ess[n - 1] == ess[1..][n - 2];
    } else {
      assert AfterRecords(env, parent, c, ess, 0) == c;
    }
  }

  /** The stage takes one comparison after the other until there are no more, something stops it, the parent has
      had its 96, the budget is used up, or a candidate ends the run. */
  ghost predicate TookRecords(env: Env, parent: Bytes, c: Cmp, ess: seq<seq<Edit>>, n: nat, d: Cmp) {
    && n <= |ess|
    && (forall k | 0 <= k < n :: GoesOn(env, AfterRecords(env, parent, c, ess, k)))
    && var e := AfterRecords(env, parent, c, ess, n);
       if n == |ess| || e.end != Finished then d == e
       else StopsStage(env, e) && d == e.(stats := e.stats.(asked := e.stats.asked + 1))
  }

  predicate GoesOn(env: Env, c: Cmp) {
    c.end == Finished && !StopsStage(env, c)
  }

  lemma {:induction false} TryRecordsGoOn(env: Env, parent: Bytes, c: Cmp, rs: seq<Record>, r: Cmp) returns (n: nat)
    requires r == TryRecords(env, parent, c, rs)
    ensures TookRecords(env, parent, c, Suggested(rs), n, r)
    decreases |rs|
  {
    n := 0;
    if rs != [] && GoesOn(env, c) {
      var c1 := c.(stats := c.stats.(asked := c.stats.asked + 1));
      var d := TryAll(env, parent, c1, Substitutions(rs[0]));
      n := TryRecordsGoOn(env, parent, d, rs[1..], r);
      RecordTaken(env, parent, c, Suggested(rs), n, d, r);
      n := n + 1;
    }
  }

  lemma RecordTaken(env: Env, parent: Bytes, c: Cmp, ess: seq<seq<Edit>>, n: nat, c1: Cmp, d: Cmp)
    requires ess != [] && GoesOn(env, c) && TookRecords(env, parent, c1, ess[1..], n, d)
    requires c1 == TryAll(env, parent, c.(stats := c.stats.(asked := c.stats.asked + 1)), ess[0])
    ensures TookRecords(env, parent, c, ess, n + 1, d)
  {
    forall k | 0 <= k < n + 1
      ensures GoesOn(env, AfterRecords(env, parent, c, ess, k))
    {
      if k > 0 {
        AfterFirst(env, parent, c, ess, k, c1);
      } else {
        assert AfterRecords(env, parent, c, ess, 0) == c;
      }
    }
    AfterFirst(env, parent, c, ess, n + 1, c1);
  }

  // ----- The loop -----

  /** The run after n rounds from the k-th on, each by this step. */
  function AfterRounds(step: (Stats, nat) -> (Stats, End), s: Stats, k: nat, n: nat): (Stats, End)
    decreases n
  {
    if n == 0 then (s, Finished) else step(AfterRounds(step, s, k, n - 1).0, k + n - 1)
  }

  /** The i-th round, with a look at whether to stop before it. */
  function RoundOf(env: Env): (Stats, nat) -> (Stats, End) {
    (t: Stats, i: nat) => OneRound(env, t.(asked := t.asked + 1), env.rounds(i))
  }

  /** Whether there is no further round: a stop, or the budget. */
  function StopsRun(env: Env): Stats -> bool {
    (s: Stats) => env.tape(s.asked).Stop? || (env.maxExecs > 0 && s.execs >= env.maxExecs)
  }

  lemma {:induction false} AfterFirstRound(step: (Stats, nat) -> (Stats, End), s: Stats, k: nat, n: nat, t: Stats)
    requires n > 0 && step(s, k) == (t, Finished)
    ensures AfterRounds(step, s, k, n) == AfterRounds(step, t, k + 1, n - 1)
    decreases n
  {
    if n > 1 {
      AfterFirstRound(step, s, k, n - 1, t);
      assert k + n - 1 == (k + 1) + (n - 1) - 1;
    } else {
      assert AfterRounds(step, s, k, 0) == (s, Finished);
      assert AfterRounds(step, t, k + 1, 0) == (t, Finished);
    }
  }

  /** Playing goes from round to round until all n are had, something stops it, or a round ends it. */
  ghost predicate PlayedRounds(step: (Stats, nat) -> (Stats, End), stops: Stats -> bool, s: Stats, k: nat, n: nat, j: nat, r: Stats) {
    && j <= n
    && (forall i | 0 <= i < j :: PlaysOn(stops, AfterRounds(step, s, k, i)))
    && var (t, end) := AfterRounds(step, s, k, j);
       if j == n || end != Finished then r == t else stops(t) && r == t.(asked := t.asked + 1)
  }

  predicate PlaysOn(stops: Stats -> bool, state: (Stats, End)) {
    state.1 == Finished && !stops(state.0)
  }

  function Played(step: (Stats, nat) -> (Stats, End), stops: Stats -> bool, s: Stats, k: nat, n: nat): Stats
    decreases n
  {
    if n == 0 then s
    else if stops(s) then s.(asked := s.asked + 1)
    else
      var (t, end) := step(s, k);
      if end != Finished then t else Played(step, stops, t, k + 1, n - 1)
  }

  /** One turn of a loop over rounds. */
  ghost predicate Turns(run: (Stats, nat) -> Stats, step: (Stats, nat) -> (Stats, End), stops: Stats -> bool, t: Stats, i: nat) {
    run(t, i) ==
      if stops(t) then t.(asked := t.asked + 1)
      else if step(t, i).1 != Finished then step(t, i).0
      else run(step(t, i).0, i + 1)
  }

  lemma {:induction false} PlayedIs(run: (Stats, nat) -> Stats, step: (Stats, nat) -> (Stats, End), stops: Stats -> bool,
                                    s: Stats, k: nat, n: nat)
    requires (forall t: Stats, i: nat | i < n :: Turns(run, step, stops, t, i)) && (forall t: Stats :: run(t, n) == t)
    requires k <= n
    ensures run(s, k) == Played(step, stops, s, k, n - k)
    decreases n - k
  {
    if k < n {
      assert Turns(run, step, stops, s, k);
      PlayedIs(run, step, stops, step(s, k).0, k + 1, n);
    }
  }

  function RunFrom(env: Env, n: nat): (Stats, nat) -> Stats {
    (t: Stats, i: nat) => if i <= n then Run(env, t, i, n) else t
  }

  lemma RunTurns(env: Env, n: nat, t: Stats, i: nat)
    requires i < n
    ensures Turns(RunFrom(env, n), RoundOf(env), StopsRun(env), t, i)
  {
  }

  lemma {:induction false} PlaysGoOn(step: (Stats, nat) -> (Stats, End), stops: Stats -> bool, s: Stats, k: nat, n: nat, r: Stats)
      returns (j: nat)
    requires r == Played(step, stops, s, k, n)
    ensures PlayedRounds(step, stops, s, k, n, j, r)
    decreases n
  {
    j := 0;
    if n > 0 && !stops(s) {
      var (t, end) := step(s, k);
      if end == Finished {
        j := PlaysGoOn(step, stops, t, k + 1, n - 1, r);
        RoundPlayed(step, stops, s, k, n, j, t, r);
        j := j + 1;
      } else {
        assert AfterRounds(step, s, k, 0) == (s, Finished);
        assert AfterRounds(step, s, k, 1) == (t, end);
        j := 1;
      }
    }
  }

  /** A run of n rounds takes one after the other, a look at whether to stop before each, until something stops it,
      the budget is used up, or a stage ends it. */
  lemma RunGoesOn(env: Env, s: Stats, k: nat, n: nat) returns (j: nat)
    requires k <= n
    ensures PlayedRounds(RoundOf(env), StopsRun(env), s, k, n - k, j, Run(env, s, k, n))
  {
    forall t: Stats, i: nat | i < n
      ensures Turns(RunFrom(env, n), RoundOf(env), StopsRun(env), t, i)
    {
      RunTurns(env, n, t, i);
    }
    PlayedIs(RunFrom(env, n), RoundOf(env), StopsRun(env), s, k, n);
    j := PlaysGoOn(RoundOf(env), StopsRun(env), s, k, n - k, Run(env, s, k, n));
  }

  lemma RoundPlayed(step: (Stats, nat) -> (Stats, End), stops: Stats -> bool, s: Stats, k: nat, n: nat, j: nat, t: Stats, r: Stats)
    requires n > 0 && !stops(s) && step(s, k) == (t, Finished)
    requires PlayedRounds(step, stops, t, k + 1, n - 1, j, r)
    ensures PlayedRounds(step, stops, s, k, n, j + 1, r)
  {
    forall i | 0 <= i < j + 1
      ensures PlaysOn(stops, AfterRounds(step, s, k, i))
    {
      if i > 0 {
        AfterFirstRound(step, s, k, i, t);
      } else {
        assert AfterRounds(step, s, k, 0) == (s, Finished);
      }
    }
    AfterFirstRound(step, s, k, j + 1, t);
  }

  /** One round: the comparison stage, if the target reports its comparisons, and then the mutation stage with the
      energy of the seed, unless the first has ended the run. */
  lemma RoundIs(env: Env, s: Stats, r: Round)
    ensures var d := CmpStage(env, s, r);
      OneRound(env, s, r) ==
        if env.cmp && d.end != Finished then (d.stats, d.end) else Havoc(env, if env.cmp then d.stats else s, r.energy)
  {
  }

  /** The comparison stage: the parent is executed once, and unless that fails its first 512 records are gone through. */
  lemma StageIs(env: Env, s: Stats, parent: Bytes, fails: bool, rs: seq<Record>, energy: nat)
    ensures var c := Cmp(if parent == [] then s else s.(execs := s.execs + 1, cmpExecs := s.cmpExecs + 1), {}, 0, [], Finished);
      CmpStage(env, s, Round(parent, fails, rs, energy))
        == if parent == [] || fails then c else TryRecords(env, parent, c, if |rs| <= 512 then rs else rs[..512])
  {
  }
}
