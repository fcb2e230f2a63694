/**
 The life of one event on a subscription: which step takes it where, what a run can do to events of
 each kind, and in which order they are received.
 */
module Lives {
  import opened Bus

  // ---- One step ----

  /** Where an event is after a step, by its kind and by where it was. */
  function After(x: World, a: Action, t: nat): Place
    requires t < |x.place| == |x.offered| && Enabled(x, a)
  {
    var was, kind := x.place[t], x.offered[t].kind;
    var open, room := !x.w.closed, |x.w.ch.queue| < x.w.ch.depth;
    match a
    case Publish(k, _) =>
      if was == Pending && k == kind && open && x.w.coalesce && (kind == Metrics || kind == Coverage)
      then Superseded(|x.place|) else was
    case StartSend(u) =>
      if u != t then was
      else if kind == Finding || kind == Campaign then Trying
      else if !open then Discarded
      else if room then InQueue else Lost
    case TryAgain(u) =>
      if u != t then was
      else if !open then Discarded
      else if room then InQueue else Failed
    case Decide(u, giveUp) => if u != t then was else if giveUp then Lost else Trying
    case Fire => if was == Pending && open then InHand else was
    case Receive => if x.w.ch.queue[0].tag == t then Received else was
    case Cancel(_) => was
  }

  lemma LifeStep(x: World, a: Action, t: nat)
    requires Good(x) && Enabled(x, a) && t < |x.place|
    ensures var y := Step(x, a); t < |y.place| == |y.offered| && y.offered[t] == x.offered[t] && y.place[t] == After(x, a, t)
  {
    match a
    case Publish(kind, num) => PublishLife(x, kind, num, t);
    case StartSend(_) => SendLife(x, a, t);
    case TryAgain(_) => SendLife(x, a, t);
    case Decide(_, _) => SendLife(x, a, t);
    case Fire => OtherLife(x, a, t);
    case Receive => OtherLife(x, a, t);
    case Cancel(_) => OtherLife(x, a, t);
  }

  lemma SendLife(x: World, a: Action, t: nat)
    requires Sane(x) && Enabled(x, a) && t < |x.place| == |x.offered| && (a.StartSend? || a.TryAgain? || a.Decide?)
    ensures var y := Step(x, a);
      && |y.place| == |x.place| && y.offered == x.offered && y.place[t] == After(x, a, t) && y.received == x.received
      && y.w.ch.queue == x.w.ch.queue + if !a.Decide? && After(x, a, a.t) == InQueue then [x.offered[a.t]] else []
  {
    match a
    case StartSend(u) => StartLife(x, u, t);
    case TryAgain(u) => TryLife(x, u, t);
    case Decide(_, _) =>
  }

  lemma StartLife(x: World, u: nat, t: nat)
    requires Sane(x) && At(x, u, InHand) && t < |x.place|
    ensures var y, a := AfterStartSend(x, u), StartSend(u);
      && |y.place| == |x.place| && y.offered == x.offered && y.place[t] == After(x, a, t) && y.received == x.received
      && y.w.ch.queue == x.w.ch.queue + if After(x, a, u) == InQueue then [x.offered[u]] else []
  {
  }

  lemma TryLife(x: World, u: nat, t: nat)
    requires Sane(x) && At(x, u, Trying) && t < |x.place|
    ensures var y, a := AfterTryAgain(x, u), TryAgain(u);
      && |y.place| == |x.place| && y.offered == x.offered && y.place[t] == After(x, a, t) && y.received == x.received
      && y.w.ch.queue == x.w.ch.queue + if After(x, a, u) == InQueue then [x.offered[u]] else []
  {
  }

  lemma OtherLife(x: World, a: Action, t: nat)
    requires Good(x) && Enabled(x, a) && t < |x.place| && (a.Fire? || a.Receive? || a.Cancel?)
    ensures var y := Step(x, a); t < |y.place| == |y.offered| && y.offered[t] == x.offered[t] && y.place[t] == After(x, a, t)
  {
  }

  lemma PublishLife(x: World, kind: Kind, num: nat, t: nat)
    requires Good(x) && t < |x.place|
    ensures var y := AfterPublish(x, kind, num);
      t < |y.place| == |y.offered| && y.offered[t] == x.offered[t] && y.place[t] == After(x, Publish(kind, num), t)
  {
  }

  /** Where an event begins: held for a while if its kind is coalesced, on its way otherwise. */
  lemma Born(x: World, kind: Kind, num: nat)
    requires Good(x)
    ensures var y, t := Step(x, Publish(kind, num)), |x.place|;
      && |y.place| == |y.offered| == t + 1 && y.offered[t].kind == kind && y.offered[t].num == num
      && y.place[t] == if x.w.closed then Discarded
                       else if x.w.coalesce && (kind == Metrics || kind == Coverage) then Pending
                       else InHand
  {
  }

  /** Events are received in the order in which they were queued. */
  lemma FirstInFirstOut(x: World, a: Action)
    requires Good(x) && Enabled(x, a)
    ensures var y := Step(x, a);
      y.received + y.w.ch.queue == x.received + x.w.ch.queue +
        if (a.StartSend? || a.TryAgain?) && After(x, a, a.t) == InQueue then [x.offered[a.t]] else []
  {
    var y := Step(x, a);
    match a
    case StartSend(t) =>
      SendLife(x, a, t);
      Longer(x.received, x.w.ch.queue, y.w.ch.queue, x.offered[t]);
    case TryAgain(t) =>
      SendLife(x, a, t);
      Longer(x.received, x.w.ch.queue, y.w.ch.queue, x.offered[t]);
    case _ => OthersKeepOrder(x, a);
  }

  lemma OthersKeepOrder(x: World, a: Action)
    requires Good(x) && Enabled(x, a) && !a.StartSend? && !a.TryAgain?
    ensures var y := Step(x, a); y.received + y.w.ch.queue == x.received + x.w.ch.queue + []
  {
    match a
    case Receive => Regroup(x.received, x.w.ch.queue);
    case _ =>
  }

  lemma Regroup(received: seq<Event>, queue: seq<Event>)
    requires queue != []
    ensures (received + [queue[0]]) + queue[1..] == received + queue + []
  {
  }

  lemma Longer(received: seq<Event>, queue: seq<Event>, after: seq<Event>, e: Event)
    ensures after == queue + [e] ==> received + after == received + queue + [e]
    ensures after == queue + [] ==> received + after == received + queue + []
  {
  }

  // ---- Runs ----

  function Start(depth: nat, coalesce: bool): World {
    Initial(depth, coalesce)
  }

  /** The step of a run: where the event was before it, if it had been published. */
  lemma LastStep(x0: World, actions: seq<Action>, t: nat) returns (x: World, y: World, a: Action, before: seq<Action>)
    requires Good(x0) && actions != []
    ensures before == actions[..|actions| - 1] && a == actions[|actions| - 1]
    ensures x == Run(x0, before) && y == Run(x0, actions) && Good(x) && Good(y)
    ensures y == if Enabled(x, a) then Step(x, a) else x
    ensures t < |y.place| && Enabled(x, a) ==>
      if t < |x.place| then y.offered[t] == x.offered[t] && y.place[t] == After(x, a, t)
      else a.Publish? && t == |x.place| && y.offered[t].kind == a.kind && y.place[t] in {Discarded, Pending, InHand}
  {
    before, a := actions[..|actions| - 1], actions[|actions| - 1];
    assert actions == before + [a];
    x, y := Run(x0, before), Run(x0, actions);
    RunKeeps(x0, before);
    RunKeeps(x0, actions);
    RunNext(x0, before, a);
    if t < |y.place| && Enabled(x, a) {
      if t < |x.place| {
        LifeStep(x, a, t);
      } else {
        NotYet(x, a, t);
      }
    }
  }

  lemma NotYet(x: World, a: Action, t: nat)
    requires Good(x) && Enabled(x, a) && |x.place| <= t < |Step(x, a).place|
    ensures var y := Step(x, a);
      a.Publish? && t == |x.place| && |y.offered| == |y.place| && y.offered[t].kind == a.kind
      && y.place[t] in {Discarded, Pending, InHand}
  {
    if a.Publish? { Born(x, a.kind, a.num); } else { OnlyPublishAdds(x, a); }
  }

  lemma OnlyPublishAdds(x: World, a: Action)
    requires Enabled(x, a) && !a.Publish?
    ensures |Step(x, a).place| == |x.place|
  {
  }

  /** An event that has just failed did so at an attempt that found the queue full, with the subscription open. */
  lemma {:induction false} FailedWhenFull(depth: nat, coalesce: bool, actions: seq<Action>, t: nat) returns (i: nat)
    requires var x := Run(Start(depth, coalesce), actions); t < |x.place| && x.place[t] == Failed
    ensures i < |actions| && actions[i] == TryAgain(t) && FullAt(Start(depth, coalesce), actions, i)
    decreases |actions|
  {
    StartGood(depth, coalesce);
    var x, y, a, before := LastStep(Start(depth, coalesce), actions, t);
    if Enabled(x, a) && t < |x.place| && x.place[t] != Failed {
      i := |before|;
    } else {
      i := FailedWhenFull(depth, coalesce, before, t);
      assert actions[..i] == before[..i];
    }
  }

  /** Before action i of a run the subscription was open and its queue full. */
  ghost predicate FullAt(x0: World, actions: seq<Action>, i: nat)
    requires i <= |actions|
  {
    var x := Run(x0, actions[..i]);
    !x.w.closed && |x.w.ch.queue| >= x.w.ch.depth
  }

  lemma StartGood(depth: nat, coalesce: bool)
    ensures Good(Start(depth, coalesce))
  {
    EveryInterleaving(depth, coalesce, []);
  }

  /** A finding, or an event about a campaign, is given up only at its deadline, after an attempt that found
      the queue full. */
  lemma {:induction false} GivenUpOnlyLate(depth: nat, coalesce: bool, actions: seq<Action>, t: nat) returns (i: nat, j: nat)
    requires var x := Run(Start(depth, coalesce), actions);
      t < |x.place| == |x.offered| && x.place[t] == Lost && (x.offered[t].kind == Finding || x.offered[t].kind == Campaign)
    ensures i < j < |actions| && actions[i] == TryAgain(t) && actions[j] == Decide(t, true)
    ensures FullAt(Start(depth, coalesce), actions, i)
    decreases |actions|
  {
    StartGood(depth, coalesce);
    var x, y, a, before := LastStep(Start(depth, coalesce), actions, t);
    if Enabled(x, a) && t < |x.place| && x.place[t] == Failed {
      i := FailedWhenFull(depth, coalesce, before, t);
      j := |before|;
    } else {
      i, j := GivenUpOnlyLate(depth, coalesce, before, t);
    }
    assert actions[..i] == before[..i];
  }

  /** Events of other kinds than metrics and coverage are never held back, and never superseded. */
  lemma {:induction false} NeverSuperseded(depth: nat, coalesce: bool, actions: seq<Action>, t: nat)
    requires var x := Run(Start(depth, coalesce), actions);
      t < |x.place| == |x.offered| && x.offered[t].kind != Metrics && x.offered[t].kind != Coverage
    ensures var p := Run(Start(depth, coalesce), actions).place[t]; p != Pending && !p.Superseded?
    decreases |actions|
  {
    StartGood(depth, coalesce);
    var x0 := Start(depth, coalesce);
    if actions != [] {
      var x, y, a, before := LastStep(x0, actions, t);
      if t < |x.place| {
        NeverSuperseded(depth, coalesce, before, t);
      } else {
        Born(x, a.kind, a.num);
      }
    }
  }

  /** And only findings and events about a campaign are tried again. */
  lemma {:induction false} NeverRetried(depth: nat, coalesce: bool, actions: seq<Action>, t: nat)
    requires var x := Run(Start(depth, coalesce), actions);
      t < |x.place| == |x.offered| && x.offered[t].kind != Finding && x.offered[t].kind != Campaign
    ensures var p := Run(Start(depth, coalesce), actions).place[t]; p != Trying && p != Failed
    decreases |actions|
  {
    StartGood(depth, coalesce);
    var x0 := Start(depth, coalesce);
    if actions != [] {
      var x, y, a, before := LastStep(x0, actions, t);
      if t < |x.place| {
        NeverRetried(depth, coalesce, before, t);
      }
    }
  }

  // ---- After the close ----

  /** Close can always be called, and closes. */
  lemma CancelCloses(x: World, stopped: bool)
    requires Good(x)
    ensures Enabled(x, Cancel(stopped))
    ensures var y := Step(x, Cancel(stopped));
      y.w.closed && y.w.ch.closed && y.w.ch.queue == x.w.ch.queue && y.place == x.place && y.w.dropped == x.w.dropped
  {
  }

  /** What the checks under the lock are for: once closed, the channel's own operations would panic. */
  lemma ChecksAreNeeded(x: World, e: Event)
    requires Good(x) && x.w.closed
    ensures TrySendRegion(x.w, e).1 == Panic && CloseRegion(x.w.(closed := false)).1 == Panic
    ensures SendRegion(x.w, e) == (x.w, Closed) && AttemptRegion(x.w, e) == (x.w, Closed)
    ensures CloseRegion(x.w) == (x.w, Closed) && FlushRegion(x.w) == (x.w, Closed) && DeliverRegion(x.w, e) == (x.w, Closed)
  {
  }

  /** From then on nothing more is queued, what is published is discarded, and what was queued can still be read. */
  lemma {:induction false} ClosedForGood(x: World, actions: seq<Action>)
    requires Good(x) && x.w.closed
    ensures var y := Run(x, actions);
      && y.w.closed && y.received + y.w.ch.queue == x.received + x.w.ch.queue
      && |x.place| <= |y.place| && forall t | |x.place| <= t < |y.place| :: y.place[t] == Discarded
    decreases |actions|
  {
    if actions != [] {
      if Enabled(x, actions[0]) {
        var y := Step(x, actions[0]);
        StepGood(x, actions[0]);
        ClosedStep(x, actions[0]);
        ClosedForGood(y, actions[1..]);
        if |x.place| < |y.place| {
          DiscardedStays(y, actions[1..], |x.place|);
        }
      } else {
        ClosedForGood(x, actions[1..]);
      }
    }
  }

  lemma ClosedStep(x: World, a: Action)
    requires Good(x) && x.w.closed && Enabled(x, a)
    ensures var y := Step(x, a);
      && y.w.closed && y.received + y.w.ch.queue == x.received + x.w.ch.queue
      && |x.place| <= |y.place| <= |x.place| + 1 && (|x.place| < |y.place| ==> y.place[|x.place|] == Discarded)
  {
    FirstInFirstOut(x, a);
    StaysClosed(x, a);
    if a.Publish? { Born(x, a.kind, a.num); } else { OnlyPublishAdds(x, a); }
  }

  lemma StaysClosed(x: World, a: Action)
    requires x.w.closed && Enabled(x, a)
    ensures Step(x, a).w.closed
  {
  }

  lemma {:induction false} DiscardedStays(x: World, actions: seq<Action>, t: nat)
    requires Good(x) && t < |x.place| && x.place[t] == Discarded
    ensures var y := Run(x, actions); t < |y.place| && y.place[t] == Discarded
    decreases |actions|
  {
    if actions != [] {
      if Enabled(x, actions[0]) {
        LifeStep(x, actions[0], t);
        StepGood(x, actions[0]);
        if actions[0].Receive? { ReceiveStep(x); }
        DiscardedStays(Step(x, actions[0]), actions[1..], t);
      } else {
        DiscardedStays(x, actions[1..], t);
      }
    }
  }

  // ---- An event that is tried again does arrive, if it is read in time ----

  lemma {:induction false} ReadAll(x: World) returns (actions: seq<Action>)
    requires Good(x)
    ensures |actions| == |x.w.ch.queue| && forall a | a in actions :: a == Receive
    ensures var y := Run(x, actions);
      && Good(y) && y.w.ch.queue == [] && y.w.ch.depth == x.w.ch.depth && y.w.closed == x.w.closed && |y.place| == |x.place|
      && forall t | 0 <= t < |x.place| :: y.place[t] == if x.place[t] == InQueue then Received else x.place[t]
    decreases |x.w.ch.queue|
  {
    actions := [];
    if x.w.ch.queue == [] {
      NothingQueued(x);
    } else {
      var y := Step(x, Receive);
      StepGood(x, Receive);
      ReceiveStep(x);
      var rest := ReadAll(y);
      actions := [Receive] + rest;
      assert actions[1..] == rest;
    }
  }

  lemma NothingQueued(x: World)
    requires Good(x) && x.w.ch.queue == []
    ensures forall t | 0 <= t < |x.place| :: x.place[t] != InQueue
  {
  }

  lemma ReceiveStep(x: World)
    requires Good(x) && x.w.ch.queue != []
    ensures Enabled(x, Receive)
    ensures var y, u := Step(x, Receive), x.w.ch.queue[0].tag;
      && y.w.ch.queue == x.w.ch.queue[1..] && y.w.ch.depth == x.w.ch.depth && y.w.closed == x.w.closed
      && u < |x.place| && x.place[u] == InQueue && y.place == x.place[u := Received]
  {
  }

  lemma RunMore(x: World, first: seq<Action>, second: seq<Action>)
    ensures Run(x, first + second) == Run(Run(x, first), second)
    decreases |first|
  {
    if first == [] {
      assert first + second == second;
    } else {
      assert (first + second)[1..] == first[1..] + second;
      RunMore(if Enabled(x, first[0]) then Step(x, first[0]) else x, first[1..], second);
    }
  }

  /** From any state in which the subscription is open: if the reader empties the queue, the next attempt
      queues the event, and the reader then receives it. */
  lemma ArrivesIfRead(x: World, t: nat) returns (drained: seq<Action>)
    requires Good(x) && !x.w.closed && x.w.ch.depth > 0 && t < |x.place| && x.place[t] == Trying
    ensures forall a | a in drained :: a == Receive
    ensures var y := Run(x, drained + [TryAgain(t), Receive]); t < |y.place| && y.place[t] == Received
  {
    drained := ReadAll(x);
    var y := Run(x, drained);
    RunMore(x, drained, [TryAgain(t), Receive]);
    LifeStep(y, TryAgain(t), t);
    var z := Step(y, TryAgain(t));
    StepGood(y, TryAgain(t));
    FirstInFirstOut(y, TryAgain(t));
    assert [TryAgain(t), Receive][1..] == [Receive];
    OnlyOne(y, z, t);
    LifeStep(z, Receive, t);
    assert Run(z, [Receive]) == Run(Step(z, Receive), []);
  }

  lemma OnlyOne(y: World, z: World, t: nat)
    requires Good(y) && At(y, t, Trying) && !y.w.closed && y.w.ch.queue == [] && y.w.ch.depth > 0
    requires z == Step(y, TryAgain(t)) && Good(z)
    ensures z.w.ch.queue == [y.offered[t]] && Enabled(z, Receive) && z.w.ch.queue[0].tag == t
  {
  }

  // ----- Faults and the timer -----

  /** What would count as a panic, which no run has: a send on a closed channel, and closing one again. */
  lemma Panics(x: World, t: nat, stopped: bool)
    ensures At(x, t, InHand) ==>
      (AfterStartSend(x, t).panicked <==>
         x.panicked || (x.offered[t].kind != Finding && x.offered[t].kind != Campaign && !x.w.closed && x.w.ch.closed))
    ensures At(x, t, Trying) ==> (AfterTryAgain(x, t).panicked <==> x.panicked || (!x.w.closed && x.w.ch.closed))
    ensures AfterCancel(x, stopped).panicked <==> x.panicked || (!x.w.closed && x.w.ch.closed)
  {
  }

  /** Closing in time stops the one flush the timer was set for; too late, or without a timer, it stops none. */
  lemma TimerStopped(x: World, stopped: bool)
    requires !x.w.closed && !x.w.ch.closed
    ensures AfterCancel(x, stopped).flushes == if stopped && x.w.timer && x.flushes >= 1 then x.flushes - 1 else x.flushes
    ensures var y := AfterCancel(x, stopped); AfterCancel(y, true) == y
  {
  }
}
