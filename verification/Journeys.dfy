/**
 What each step of corpus sync does to digests, broadcasts and outboxes, and what a report comes to.
 */
module Journeys {
  import opened CorpusSync
  import opened Words

  // ----- One step -----

  /** A report: every digest in it is seen from then on, and the new ones are being saved under their reporter. */
  lemma ReportStep(x: World, worker: int, ds: seq<Digest>)
    requires Good(x)
    ensures var y := Step(x, Report(worker, ds));
      && (forall d :: d in y.seen <==> d in x.seen || d in ds)
      && (forall d | d in ds && d !in x.seen ::
            && d in y.first && y.first[d] == worker
            && |y.flights| == |x.flights| + 1 && d in y.flights[|x.flights|].news
            && y.flights[|x.flights|].worker == worker && y.flights[|x.flights|].fate == Saving)
      && (forall d | d in x.first :: d in y.first && y.first[d] == x.first[d])
      && y.pending == x.pending && y.taken == x.taken && y.casts == x.casts && y.boxes == x.boxes
  {
    FreshIs(ds, x.seen);
    if Fresh(ds, x.seen) == [] {
      forall d | d in ds
        ensures d in x.seen
      {
        assert d !in Fresh(ds, x.seen);
      }
    }
  }

  /** A save that succeeds queues what was saved under its reporter; one that fails queues nothing. */
  lemma SaveStep(x: World, f: nat, ok: bool)
    requires Good(x) && Enabled(x, SaveEnds(f, ok))
    ensures var y, fl := Step(x, SaveEnds(f, ok)), x.flights[f];
      && |y.flights| == |x.flights| && y.flights[f] == Flight(fl.worker, fl.news, if ok then Saved else Failed)
      && (forall g | 0 <= g < |x.flights| && g != f :: y.flights[g] == x.flights[g])
      && y.pending.Keys == x.pending.Keys + (if ok then {fl.worker} else {})
      && (forall w | w in y.pending :: y.pending[w] ==
            (if w in x.pending then x.pending[w] else []) + if ok && w == fl.worker then fl.news else [])
      && y.seen == x.seen && y.taken == x.taken && y.casts == x.casts && y.boxes == x.boxes
  {
    var y := Step(x, SaveEnds(f, ok));
    if !ok {
      forall w | w in x.pending
        ensures x.pending[w] == x.pending[w] + []
      {
      }
    }
  }

  /** A flush takes the whole queue, each reporter's part under its reporter. */
  lemma TakeStep(x: World)
    requires Good(x)
    ensures var y := Step(x, Take);
      && y.pending == map[] && |y.taken| == |x.taken| + 1 && y.taken[|x.taken|] == x.pending
      && (forall k | 0 <= k < |x.taken| :: y.taken[k] == x.taken[k])
      && y.seen == x.seen && y.flights == x.flights && y.casts == x.casts && y.boxes == x.boxes
  {
  }

  /** One part of it becomes a broadcast to every worker but its reporter; an empty one to nobody. */
  lemma SpreadStep(x: World, k: nat, from: int, order: seq<int>)
    requires Good(x) && Enabled(x, Spread(k, from, order))
    ensures var y := Step(x, Spread(k, from, order)); var m := y.casts[|x.casts|];
      && |y.casts| == |x.casts| + 1 && (forall c | 0 <= c < |x.casts| :: y.casts[c] == x.casts[c])
      && m.except == from && m.entries == x.taken[k][from] && m.done == []
      && (m.entries == [] ==> m.todo == [])
      && (m.entries != [] ==> forall w :: w in m.todo <==> w in x.boxes && w != from)
      && y.taken == x.taken[k := x.taken[k] - {from}]
      && y.seen == x.seen && y.flights == x.flights && y.pending == x.pending && y.boxes == x.boxes
  {
    OthersAre(order, from);
  }

  /** A command goes to every worker but one, and carries no entries. */
  lemma CommandStep(x: World, except: int, order: seq<int>)
    requires Good(x) && Enabled(x, Command(except, order))
    ensures var y := Step(x, Command(except, order)); var m := y.casts[|x.casts|];
      && |y.casts| == |x.casts| + 1 && (forall c | 0 <= c < |x.casts| :: y.casts[c] == x.casts[c])
      && m.entries == [] && m.done == [] && (forall w :: w in m.todo <==> w in x.boxes && w != except)
      && y.(casts := x.casts) == x
  {
    OthersAre(order, except);
  }

  /** A send offers the broadcast to its next worker, whose outbox takes it if it holds fewer than 64, and counts it
      otherwise; no other outbox changes. */
  lemma SendStep(x: World, c: nat)
    requires Good(x) && Enabled(x, Send(c))
    ensures var w := x.casts[c].todo[0];
      && w in x.boxes && Step(x, Send(c)).boxes.Keys == x.boxes.Keys
      && (forall v | v in x.boxes && v != w :: Step(x, Send(c)).boxes[v] == x.boxes[v])
      && Step(x, Send(c)).casts == x.casts[c := x.casts[c].(todo := x.casts[c].todo[1..], done := x.casts[c].done + [w])]
      && var b, d := x.boxes[w], Step(x, Send(c)).boxes[w];
         if |b.outbox| < 64 then d.outbox == b.outbox + [c] && d.dropped == b.dropped && d.drained == b.drained
         else d.outbox == b.outbox && d.dropped == b.dropped + 1 && d.drained == b.drained
  {
    NextRecipient(x.casts[c], x.boxes.Keys);
  }

  /** An outbox is drained from the front. */
  lemma DrainStep(x: World, w: int)
    requires Good(x) && Enabled(x, Drain(w))
    ensures var y := Step(x, Drain(w)); var b, d := x.boxes[w], y.boxes[w];
      && d.drained + d.outbox == b.drained + b.outbox && |d.drained| == |b.drained| + 1 && d.dropped == b.dropped
      && y.boxes.Keys == x.boxes.Keys && (forall v | v in x.boxes && v != w :: y.boxes[v] == x.boxes[v])
      && y.(boxes := x.boxes) == x
  {
    var b := x.boxes[w];
    assert b.outbox == [b.outbox[0]] + b.outbox[1..];
  }

  // ----- Runs -----

  lemma SeenStep(x: World, a: Action, d: Digest)
    requires Good(x) && Enabled(x, a) && d in x.seen
    ensures var y := Step(x, a); d in y.seen && d in x.first && d in y.first && y.first[d] == x.first[d]
  {
    if a.Report? { ReportStep(x, a.worker, a.ds); }
  }

  lemma {:induction false} SeenStays(x: World, actions: seq<Action>, d: Digest)
    requires Good(x) && d in x.seen
    ensures var y := Run(x, actions); d in y.seen && d in x.first && d in y.first && y.first[d] == x.first[d]
    decreases |actions|
  {
    if actions != [] {
      if Enabled(x, actions[0]) {
        StepLocated(x, actions[0]);
        StepCounted(x, actions[0]);
        SeenStep(x, actions[0], d);
        SeenStays(Step(x, actions[0]), actions[1..], d);
      } else {
        SeenStays(x, actions[1..], d);
      }
    }
  }

  /** Whether some save of the digest has failed, or will with these outcomes. */
  predicate Doomed(x: World, d: Digest, saves: nat -> bool) {
    exists f | 0 <= f < |x.flights| :: d in x.flights[f].news &&
      (x.flights[f].fate == Failed || (x.flights[f].fate == Saving && !saves(f)))
  }

  lemma {:induction false} NotDoomed(x: World, actions: seq<Action>, d: Digest, saves: nat -> bool)
    requires Good(x) && !Doomed(x, d, saves) && forall a | a in actions :: Ongoing(a, saves)
    ensures !Doomed(Run(x, actions), d, saves)
    decreases |actions|
  {
    if actions != [] {
      if Enabled(x, actions[0]) {
        var y := Step(x, actions[0]);
        StepLocated(x, actions[0]);
        StepCounted(x, actions[0]);
        StepNotDoomed(x, actions[0], d, saves);
        NotDoomed(y, actions[1..], d, saves);
      } else {
        NotDoomed(x, actions[1..], d, saves);
      }
    }
  }

  lemma StepNotDoomed(x: World, a: Action, d: Digest, saves: nat -> bool)
    requires Good(x) && Enabled(x, a) && !Doomed(x, d, saves) && Ongoing(a, saves)
    ensures !Doomed(Step(x, a), d, saves)
  {
    match a
    case SaveEnds(f, ok) =>
      SaveStep(x, f, ok);
      forall g | 0 <= g < |x.flights|
        ensures !(d in Step(x, a).flights[g].news && Step(x, a).flights[g].fate == Failed)
        ensures !(d in Step(x, a).flights[g].news && Step(x, a).flights[g].fate == Saving && !saves(g))
      {
        assert d in x.flights[g].news ==> x.flights[g].fate != Failed && (x.flights[g].fate == Saving ==> saves(g));
      }
    case Take => TakeStep(x);
    case Spread(k, from, order) => SpreadStep(x, k, from, order);
    case Send(c) => SendStep(x, c);
  }

  /** A digest that a worker reports for the first time, and whose save succeeds, can always come to be offered,
      once, to every other worker, by steps that the campaign takes by itself. */
  lemma ReportedIsOffered(x: World, worker: int, ds: seq<Digest>, d: Digest, w: int, saves: nat -> bool)
      returns (actions: seq<Action>)
    requires Good(x) && d in ds && d !in x.seen && w in x.boxes && w != worker && saves(|x.flights|)
    ensures (forall a | a in actions :: Ongoing(a, saves))
    ensures Good(Step(x, Report(worker, ds)))
    ensures var y := Run(Step(x, Report(worker, ds)), actions);
      exists c | 0 <= c < |y.casts| :: d in y.casts[c].entries && w in y.boxes && OfferedOnce(y, c, w)
  {
    var a := Report(worker, ds);
    StepLocated(x, a);
    StepCounted(x, a);
    ReportStep(x, worker, ds);
    var z := Step(x, a);
    NewIsNotDoomed(x, worker, ds, d, saves);
    actions := QuietIsReached(z, saves);
    var y := Run(z, actions);
    NotDoomed(z, actions, d, saves);
    SeenStays(z, actions, d);
    NothingIsForgotten(y, d, w);
    if Stuck(y, d) {
      StuckIsDoomed(y, d, saves);
    }
  }

  lemma StuckIsDoomed(x: World, d: Digest, saves: nat -> bool)
    requires Good(x) && Stuck(x, d)
    ensures Doomed(x, d, saves)
  {
    assert At(x, x.place[d]) == Some(d);
  }

  lemma NewIsNotDoomed(x: World, worker: int, ds: seq<Digest>, d: Digest, saves: nat -> bool)
    requires Good(x) && d in ds && d !in x.seen && saves(|x.flights|)
    ensures !Doomed(Step(x, Report(worker, ds)), d, saves)
  {
    var y := Step(x, Report(worker, ds));
    ReportStep(x, worker, ds);
    ReportFlights(x, worker, ds);
    forall f | 0 <= f < |x.flights| && (x.flights[f].fate == Failed || x.flights[f].fate == Saving)
      ensures d !in x.flights[f].news
    {
      forall i | 0 <= i < |x.flights[f].news|
        ensures x.flights[f].news[i] != d
      {
        assert At(x, AtFlight(f, i)).Some?;
      }
    }
  }

  lemma ReportFlights(x: World, worker: int, ds: seq<Digest>)
    requires Good(x)
    ensures var y := Step(x, Report(worker, ds));
      && |x.flights| <= |y.flights| <= |x.flights| + 1
      && (forall f | 0 <= f < |x.flights| :: y.flights[f] == x.flights[f])
      && (|y.flights| > |x.flights| ==> y.flights[|x.flights|].fate == Saving)
  {
  }

  // ----- One flush -----

  /** What a flush has for a worker: a message for every reporter but the worker itself, in the order of the visit. */
  function ForWorker(id: int, pending: map<int, seq<Digest>>, froms: seq<int>): seq<Message>
    requires forall f | f in froms :: f in pending
    decreases |froms|
  {
    if froms == [] then []
    else (if froms[0] == id then [] else [Message(froms[0], pending[froms[0]])]) + ForWorker(id, pending, froms[1..])
  }

  lemma {:induction false} ForWorkerLast(id: int, pending: map<int, seq<Digest>>, froms: seq<int>)
    requires froms != [] && forall f | f in froms :: f in pending
    ensures var n := |froms| - 1; var f := froms[n];
      ForWorker(id, pending, froms)
        == ForWorker(id, pending, froms[..n]) + if f == id then [] else [Message(f, pending[f])]
    decreases |froms|
  {
    if |froms| > 1 {
      ForWorkerLast(id, pending, froms[1..]);
      assert froms[1..][..|froms| - 2] == froms[..|froms| - 1][1..];
    }
  }

  /** What room there is in an outbox for n messages. */
  function Room(b: Box<Message>, n: nat): nat {
    if |b.outbox| >= 64 then 0 else if n <= 64 - |b.outbox| then n else 64 - |b.outbox|
  }

  /** A flush fills a worker's outbox with what is for it as far as 64 messages, and counts the rest as dropped. */
  lemma {:induction false} FlushFills(b: Box<Message>, id: int, pending: map<int, seq<Digest>>, froms: seq<int>)
    requires forall f | f in froms :: f in pending
    ensures var told := ForWorker(id, pending, froms); var k := Room(b, |told|);
      HeardAll(b, id, pending, froms)
        == Box(b.outbox + told[..k], b.dropped + |told| - k, b.drained, b.lost + told[k..])
    decreases |froms|
  {
    if froms != [] {
      var n := |froms| - 1;
      FlushFills(b, id, pending, froms[..n]);
      ForWorkerLast(id, pending, froms);
      var before, told := ForWorker(id, pending, froms[..n]), ForWorker(id, pending, froms);
      if froms[n] != id {
        OneMore(b, before, Message(froms[n], pending[froms[n]]));
      }
    }
  }

  lemma OneMore(b: Box<Message>, told: seq<Message>, m: Message)
    ensures var k, told' := Room(b, |told|), told + [m]; var k' := Room(b, |told'|);
      Receive(Box(b.outbox + told[..k], b.dropped + |told| - k, b.drained, b.lost + told[k..]), m)
        == Box(b.outbox + told'[..k'], b.dropped + |told'| - k', b.drained, b.lost + told'[k'..])
  {
    var k, told' := Room(b, |told|), told + [m];
    if k == |told| && |b.outbox| + k < 64 {
      assert told'[..k + 1] == told[..k] + [m];
    } else {
      assert told'[..k] == told[..k] && told'[k..] == told[k..] + [m];
    }
  }
}
