/**
 The fuzzing loop and its stages, as far as executions are concerned: who spends them, what stops
 them, and how far past the budget a run can end.

 Everything outside the engine is a tape of answers: whether to stop (cancellation, the clock, or
 another budget), what the mutators and the codec produced, and how the target and the judgement
 took it. A run is followed for any number of rounds.
 */
module Stages {
  import opened Substitution
  import Trim

  /** How a candidate was judged, what it reached, and how the target behaves while it is trimmed,
      which need not be alike from one execution to the next. */
  datatype Verdict = Verdict(error: bool, interesting: bool, finding: bool, reached: Trim.Outcome, run: Trim.Target)

  datatype Answer = Stop | NoCandidate | Candidate(encoded: Bytes, v: Verdict)

  /** One turn of the loop: the seed drawn, how its own execution went, what it compared, its energy. */
  datatype Round = Round(parent: Bytes, parentFails: bool, records: seq<Record>, energy: nat)

  /** maxExecs 0 is no budget; `cmp` is whether the target reports its comparisons. */
  datatype Env = Env(tape: nat -> Answer, rounds: nat -> Round, trimBudget: int, covered: bool,
                     maxExecs: nat, stopOnFirst: bool, cmp: bool)

  datatype Stats = Stats(execs: nat, trimExecs: nat, cmpExecs: nat, asked: nat)

  datatype End = Finished | Found | Failed

  const MAX_RECORDS := 512
  const MAX_CANDIDATES := 96

  predicate OverBudget(env: Env, s: Stats) {
    env.maxExecs > 0 && s.execs >= env.maxExecs
  }

  // ----- Judging one candidate -----

  function Trims(env: Env, input: Bytes, v: Verdict): nat {
    if v.error || !v.interesting then 0
    else Trim.Trimmed(v.run, v.reached, env.trimBudget, env.covered, input).spent
  }

  function Evaluated(env: Env, s: Stats, input: Bytes, v: Verdict): Stats {
    s.(execs := s.execs + 1 + Trims(env, input, v), trimExecs := s.trimExecs + Trims(env, input, v))
  }

  /** What one candidate costs at most. */
  function Cost(env: Env): (c: nat)
    ensures c >= 1
  {
    1 + if env.trimBudget > 0 then env.trimBudget else 0
  }

  lemma EvaluatedCost(env: Env, s: Stats, input: Bytes, v: Verdict)
    ensures s.execs < Evaluated(env, s, input, v).execs <= s.execs + Cost(env)
  {
    if !v.error && v.interesting {
      Trim.TrimmedSpends(v.run, v.reached, env.trimBudget, env.covered, input);
    }
  }

  function Outcome(env: Env, v: Verdict): End {
    if v.error then Failed else if v.finding && env.stopOnFirst then Found else Finished
  }

  // ----- The mutation stage -----

  function Havoc(env: Env, s: Stats, energy: nat): (Stats, End)
    decreases energy
  {
    if energy == 0 then (s, Finished)
    else
      var a, s1 := env.tape(s.asked), s.(asked := s.asked + 1);
      if a.Stop? || OverBudget(env, s) then (s1, Finished)
      else match a
        case Candidate(encoded, v) =>
          var s2 := Evaluated(env, s1, encoded, v);
          if Outcome(env, v) != Finished then (s2, Outcome(env, v)) else Havoc(env, s2, energy - 1)
        case _ => Havoc(env, s1, energy - 1)
  }

  /** The budget is looked at before every candidate, so at most one candidate goes past it. */
  lemma {:induction false} HavocBound(env: Env, s: Stats, energy: nat)
    requires env.maxExecs > 0
    ensures var t := Havoc(env, s, energy).0.execs;
      s.execs <= t && (t <= s.execs || t <= env.maxExecs - 1 + Cost(env))
    decreases energy
  {
    if energy > 0 {
      var a, s1 := env.tape(s.asked), s.(asked := s.asked + 1);
      if !a.Stop? && !OverBudget(env, s) {
        match a
        case Candidate(encoded, v) =>
          EvaluatedCost(env, s1, encoded, v);
          if Outcome(env, v) == Finished {
            HavocBound(env, Evaluated(env, s1, encoded, v), energy - 1);
          }
        case NoCandidate =>
          HavocBound(env, s1, energy - 1);
      }
    }
  }

  // ----- The comparison stage -----

  /** The stage at work: edits tried, candidates executed, and how it ended if it has. */
  datatype Cmp = Cmp(stats: Stats, tried: set<Edit>, spent: nat, made: seq<Edit>, end: End)

  function TryOne(env: Env, parent: Bytes, c: Cmp, e: Edit): Cmp {
    if |e.needle| < MIN_WIDTH || e.needle == e.want || e in c.tried then c
    else
      var c1 := c.(tried := c.tried + {e});
      match Splice(parent, e)
      case None => c1
      case Some(input) =>
        var s := c1.stats.(asked := c1.stats.asked + 1);
        match env.tape(c1.stats.asked)
        case Candidate(_, v) =>
          Cmp(Evaluated(env, s.(cmpExecs := s.cmpExecs + 1), input, v), c1.tried, c.spent + 1, c.made + [e], Outcome(env, v))
        case _ => c1.(stats := s)
  }

  function TryAll(env: Env, parent: Bytes, c: Cmp, es: seq<Edit>): Cmp
    decreases |es|
  {
    if es == [] || c.end != Finished || c.spent >= MAX_CANDIDATES then c
    else TryAll(env, parent, TryOne(env, parent, c, es[0]), es[1..])
  }

  function TryRecords(env: Env, parent: Bytes, c: Cmp, rs: seq<Record>): Cmp
    decreases |rs|
  {
    if rs == [] || c.end != Finished then c
    else
      var c1 := c.(stats := c.stats.(asked := c.stats.asked + 1));
      if env.tape(c.stats.asked).Stop? || c.spent >= MAX_CANDIDATES || OverBudget(env, c.stats) then c1
      else TryRecords(env, parent, TryAll(env, parent, c1, Substitutions(rs[0])), rs[1..])
  }

  function Bounded(rs: seq<Record>): seq<Record> {
    if |rs| > MAX_RECORDS then rs[..MAX_RECORDS] else rs
  }

  /** The execution of the parent, which nothing guards. */
  function ParentRun(s: Stats): Stats {
    s.(execs := s.execs + 1, cmpExecs := s.cmpExecs + 1)
  }

  function CmpStage(env: Env, s: Stats, r: Round): Cmp {
    if r.parent == [] then Cmp(s, {}, 0, [], Finished)
    else
      var c := Cmp(ParentRun(s), {}, 0, [], Finished);
      if r.parentFails then c else TryRecords(env, r.parent, c, Bounded(r.records))
  }

  /** What holds of the stage at every point, whatever the target answers. */
  ghost predicate Sane(parent: Bytes, c: Cmp) {
    && |c.made| == c.spent <= MAX_CANDIDATES
    && (forall i, j | 0 <= i < j < |c.made| :: c.made[i] != c.made[j])
    && (forall e | e in c.made :: e in c.tried)
    && (forall e | e in c.tried :: |e.needle| >= MIN_WIDTH && e.needle != e.want)
    && (forall e | e in c.made :: Splice(parent, e).Some?)
  }

  lemma TryOneSane(env: Env, parent: Bytes, c: Cmp, e: Edit)
    requires Sane(parent, c) && c.spent < MAX_CANDIDATES
    ensures Sane(parent, TryOne(env, parent, c, e))
  {
  }

  lemma TryOneCost(env: Env, parent: Bytes, c: Cmp, e: Edit)
    ensures var d := TryOne(env, parent, c, e);
      && c.stats.execs <= d.stats.execs <= c.stats.execs + Cost(env)
      && d.stats.cmpExecs - c.stats.cmpExecs == d.spent - c.spent
  {
    match Splice(parent, e)
    case None =>
    case Some(input) =>
      var s := c.stats.(asked := c.stats.asked + 1);
      match env.tape(c.stats.asked)
      case Candidate(_, v) => EvaluatedCost(env, s.(cmpExecs := s.cmpExecs + 1), input, v);
      case _ =>
  }

  lemma {:induction false} TryAllSane(env: Env, parent: Bytes, c: Cmp, es: seq<Edit>)
    requires Sane(parent, c)
    ensures Sane(parent, TryAll(env, parent, c, es))
    decreases |es|
  {
    if es != [] && c.end == Finished && c.spent < MAX_CANDIDATES {
      TryOneSane(env, parent, c, es[0]);
      TryAllSane(env, parent, TryOne(env, parent, c, es[0]), es[1..]);
    }
  }

  lemma {:induction false} TryAllCost(env: Env, parent: Bytes, c: Cmp, es: seq<Edit>)
    ensures var d := TryAll(env, parent, c, es);
      && c.stats.execs <= d.stats.execs <= c.stats.execs + |es| * Cost(env)
      && d.stats.cmpExecs - c.stats.cmpExecs == d.spent - c.spent
    decreases |es|
  {
    if es != [] && c.end == Finished && c.spent < MAX_CANDIDATES {
      TryOneCost(env, parent, c, es[0]);
      TryAllCost(env, parent, TryOne(env, parent, c, es[0]), es[1..]);
      OneMore(|es[1..]|, Cost(env));
    }
  }

  /** The budget is looked at once per comparison, and one comparison has at most twenty edits. */
  function CmpLimit(env: Env): int {
    env.maxExecs - 1 + 20 * Cost(env)
  }

  lemma TryAllBound(env: Env, parent: Bytes, c: Cmp, es: seq<Edit>)
    requires env.maxExecs > 0 && !OverBudget(env, c.stats) && |es| <= 20
    ensures c.stats.execs <= TryAll(env, parent, c, es).stats.execs <= CmpLimit(env)
  {
    TryAllCost(env, parent, c, es);
    AtMost(|es|, Cost(env));
  }

  lemma OneMore(n: nat, cost: nat)
    ensures (n + 1) * cost == n * cost + cost
  {
  }

  lemma AtMost(n: nat, cost: nat)
    requires n <= 20
    ensures n * cost <= 20 * cost
  {
  }

  lemma {:induction false} TryRecordsSane(env: Env, parent: Bytes, c: Cmp, rs: seq<Record>)
    requires Sane(parent, c)
    ensures var d := TryRecords(env, parent, c, rs);
      && Sane(parent, d)
      && c.stats.execs <= d.stats.execs
      && d.stats.cmpExecs - c.stats.cmpExecs == d.spent - c.spent
    decreases |rs|
  {
    if rs != [] && c.end == Finished {
      var c1 := c.(stats := c.stats.(asked := c.stats.asked + 1));
      if !env.tape(c.stats.asked).Stop? && c.spent < MAX_CANDIDATES && !OverBudget(env, c.stats) {
        var es := Substitutions(rs[0]);
        TryAllSane(env, parent, c1, es);
        TryAllCost(env, parent, c1, es);
        TryRecordsSane(env, parent, TryAll(env, parent, c1, es), rs[1..]);
        assert TryRecords(env, parent, c, rs) == TryRecords(env, parent, TryAll(env, parent, c1, es), rs[1..]);
      }
    }
  }

  lemma {:induction false} TryRecordsBound(env: Env, parent: Bytes, c: Cmp, rs: seq<Record>)
    requires env.maxExecs > 0
    ensures var t := TryRecords(env, parent, c, rs).stats.execs; t <= c.stats.execs || t <= CmpLimit(env)
    decreases |rs|
  {
    if rs != [] && c.end == Finished {
      var c1 := c.(stats := c.stats.(asked := c.stats.asked + 1));
      if !env.tape(c.stats.asked).Stop? && c.spent < MAX_CANDIDATES && !OverBudget(env, c.stats) {
        AtMostTwenty(rs[0]);
        TryAllBound(env, parent, c1, Substitutions(rs[0]));
        TryRecordsBound(env, parent, TryAll(env, parent, c1, Substitutions(rs[0])), rs[1..]);
      }
    }
  }

  /** One parent, with or without an execution budget: at most 96 candidates, no edit made twice, each aimed
      at bytes the parent has, and each counted. With a budget, at most one comparison goes past it. */
  lemma CmpStageBound(env: Env, s: Stats, r: Round)
    ensures var c := CmpStage(env, s, r);
      && Sane(r.parent, c)
      && s.execs <= c.stats.execs
      && c.stats.cmpExecs - s.cmpExecs == c.spent + (if r.parent == [] then 0 else 1)
      && (env.maxExecs > 0 ==> c.stats.execs <= s.execs + 1 || c.stats.execs <= CmpLimit(env))
  {
    if r.parent != [] && !r.parentFails {
      var c := Cmp(ParentRun(s), {}, 0, [], Finished);
      TryRecordsSane(env, r.parent, c, Bounded(r.records));
      if env.maxExecs > 0 {
        TryRecordsBound(env, r.parent, c, Bounded(r.records));
      }
    }
  }

  // ----- The loop -----

  /** Every stage in turn on one seed. */
  function OneRound(env: Env, s: Stats, r: Round): (Stats, End) {
    if !env.cmp then Havoc(env, s, r.energy)
    else
      var c := CmpStage(env, s, r);
      if c.end != Finished then (c.stats, c.end) else Havoc(env, c.stats, r.energy)
  }

  function Run(env: Env, s: Stats, k: nat, n: nat): Stats
    requires k <= n
    decreases n - k
  {
    if k == n then s
    else
      var s1 := s.(asked := s.asked + 1);
      if env.tape(s.asked).Stop? || OverBudget(env, s) then s1
      else
        var (t, end) := OneRound(env, s1, env.rounds(k));
        if end != Finished then t else Run(env, t, k + 1, n)
  }

  function Limit(env: Env): int {
    if env.cmp then CmpLimit(env) else env.maxExecs - 1 + Cost(env)
  }

  lemma RoundBound(env: Env, s: Stats, r: Round)
    requires env.maxExecs > 0 && !OverBudget(env, s)
    ensures OneRound(env, s, r).0.execs <= Limit(env)
  {
    if env.cmp {
      var c := CmpStage(env, s, r);
      CmpStageBound(env, s, r);
      HavocBound(env, c.stats, r.energy);
    } else {
      HavocBound(env, s, r.energy);
    }
  }

  /** Whatever happens, a run ends within the limit, unless it was already past it. */
  lemma {:induction false} RunBound(env: Env, s: Stats, k: nat, n: nat)
    requires env.maxExecs > 0 && k <= n
    ensures var t := Run(env, s, k, n).execs; t <= s.execs || t <= Limit(env)
    decreases n - k
  {
    if k < n {
      var s1 := s.(asked := s.asked + 1);
      if !env.tape(s.asked).Stop? && !OverBudget(env, s) {
        var (t, end) := OneRound(env, s1, env.rounds(k));
        RoundBound(env, s1, env.rounds(k));
        if end == Finished {
          RunBound(env, t, k + 1, n);
        }
      }
    }
  }

  // ----- The engine -----

  class Engine {
    const env: Env
    var execs: nat
    var trimExecs: nat
    var cmpExecs: nat
    var asked: nat

    constructor (env: Env)
      ensures this.env == env && View() == Stats(0, 0, 0, 0)
    {
      this.env := env;
      execs, trimExecs, cmpExecs, asked := 0, 0, 0, 0;
    }

    function View(): Stats
      reads this
    {
      Stats(execs, trimExecs, cmpExecs, asked)
    }

    method Ask() returns (a: Answer)
      modifies this`asked
      ensures a == env.tape(old(asked)) && asked == old(asked) + 1
    {
      a := env.tape(asked);
      asked := asked + 1;
    }

    method Evaluate(input: Bytes, v: Verdict) returns (end: End)
      modifies this`execs, this`trimExecs
      ensures View() == Evaluated(env, old(View()), input, v) && end == Outcome(env, v)
    {
      execs := execs + 1;
      if v.error {
        return Failed;
      }
      if v.interesting {
        var t := new Trim.Engine(v.run, env.trimBudget, env.covered);
        var _ := t.Trim(input, v.reached);
        execs := execs + t.execs;
        trimExecs := trimExecs + t.trimExecs;
      }
      return if v.finding && env.stopOnFirst then Found else Finished;
    }

    method HavocRun(energy: nat) returns (end: End)
      modifies this
      ensures (View(), end) == Havoc(env, old(View()), energy)
    {
      for k := 0 to energy
        invariant Havoc(env, View(), energy - k) == Havoc(env, old(View()), energy)
      {
        var over := OverBudget(env, View());
        var a := Ask();
        if a.Stop? || over {
          return Finished;
        }
        if a.Candidate? {
          end := Evaluate(a.encoded, a.v);
          if end != Finished {
            return end;
          }
        }
      }
      return Finished;
    }

    method CmpRun(r: Round) returns (end: End, ghost done: Cmp)
      modifies this
      ensures done == CmpStage(env, old(View()), r) && View() == done.stats && end == done.end
    {
      if r.parent == [] {
        return Finished, Cmp(View(), {}, 0, [], Finished);
      }
      execs := execs + 1;
      cmpExecs := cmpExecs + 1;
      if r.parentFails {
        return Finished, Cmp(View(), {}, 0, [], Finished);
      }
      end, done := Compare(r.parent, Bounded(r.records));
    }

    /** The comparisons of one parent in turn. */
    method Compare(parent: Bytes, records: seq<Record>) returns (end: End, ghost done: Cmp)
      modifies this
      ensures done == TryRecords(env, parent, Cmp(old(View()), {}, 0, [], Finished), records)
      ensures View() == done.stats && end == done.end
    {
      var tried: set<Edit>, spent: nat, made: seq<Edit> := {}, 0, [];
      end := Finished;
      done := Cmp(View(), tried, spent, made, end);
      ghost var start := done;
      for i := 0 to |records|
        invariant end == Finished && done == Cmp(View(), tried, spent, made, end)
        invariant TryRecords(env, parent, done, records[i..]) == TryRecords(env, parent, start, records)
      {
        assert records[i..][1..] == records[i + 1..];
        var over := OverBudget(env, View());
        var a := Ask();
        if a.Stop? || spent >= MAX_CANDIDATES || over {
          done := Cmp(View(), tried, spent, made, Finished);
          return;
        }
        tried, spent, made, end := Substitute(parent, records[i], tried, spent, made);
        done := Cmp(View(), tried, spent, made, end);
        if end != Finished {
          return;
        }
      }
    }

    /** The edits of one comparison. */
    method Substitute(parent: Bytes, r: Record, tried: set<Edit>, spent: nat, made: seq<Edit>)
      returns (tried': set<Edit>, spent': nat, made': seq<Edit>, end: End)
      modifies this
      ensures Cmp(View(), tried', spent', made', end)
           == TryAll(env, parent, Cmp(old(View()), tried, spent, made, Finished), Substitutions(r))
    {
      tried', spent', made', end := tried, spent, made, Finished;
      var subs := Enumerate(r);
      ghost var start := Cmp(View(), tried, spent, made, Finished);
      for i := 0 to |subs|
        invariant end == Finished
        invariant TryAll(env, parent, Cmp(View(), tried', spent', made', end), subs[i..])
               == TryAll(env, parent, start, subs)
      {
        assert subs[i..][1..] == subs[i + 1..];
        if spent' >= MAX_CANDIDATES {
          return;
        }
        tried', spent', made', end := TrySub(parent, subs[i], tried', spent', made');
        if end != Finished {
          return;
        }
      }
    }

    method TrySub(parent: Bytes, e: Edit, tried: set<Edit>, spent: nat, made: seq<Edit>)
      returns (tried': set<Edit>, spent': nat, made': seq<Edit>, end: End)
      modifies this
      ensures Cmp(View(), tried', spent', made', end)
           == TryOne(env, parent, Cmp(old(View()), tried, spent, made, Finished), e)
    {
      tried', spent', made', end := tried, spent, made, Finished;
      if |e.needle| < MIN_WIDTH || e.needle == e.want || e in tried {
        return;
      }
      tried' := tried + {e};
      var input := Splice(parent, e);
      if input.None? {
        return;
      }
      var a := Ask();
      if a.Candidate? {
        spent', made' := spent + 1, made + [e];
        cmpExecs := cmpExecs + 1;
        end := Evaluate(input.value, a.v);
      }
    }

    /** Followed for `rounds` turns of the loop. */
    method RunFor(rounds: nat)
      modifies this
      ensures View() == Run(env, old(View()), 0, rounds)
      ensures env.maxExecs > 0 ==> execs <= old(execs) || execs <= Limit(env)
    {
      if env.maxExecs > 0 {
        RunBound(env, View(), 0, rounds);
      }
      for k := 0 to rounds
        invariant Run(env, View(), k, rounds) == Run(env, old(View()), 0, rounds)
      {
        var over := OverBudget(env, View());
        var a := Ask();
        if a.Stop? || over {
          return;
        }
        var r := env.rounds(k);
        var end := Finished;
        if env.cmp {
          ghost var done;
          end, done := CmpRun(r);
        }
        if end == Finished {
          end := HavocRun(r.energy);
        }
        if end != Finished {
          return;
        }
      }
    }
  }
}
