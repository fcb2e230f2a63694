/**
 How a call ends: answered with the message that was read for it, refused when the connection failed
 first, or given up by its caller.
 */
module Answers {
  import opened CallTable
  import opened Words

  // ---- One step ----

  /** Where a call stands after a step. */
  function After(x: World, a: Action, id: nat): Caller
    requires id in x.callers && Enabled(x, a)
  {
    if a == Forget(id) then GaveUp
    else if a == Collect(id) then
      match x.chans[id].buf
      case Some(m) => Answered(m)
      case None => Refused
    else x.callers[id]
  }

  lemma CallStep(x: World, a: Action, id: nat)
    requires Good(x) && Enabled(x, a) && id in x.callers
    ensures id in Step(x, a).callers && Step(x, a).callers[id] == After(x, a, id)
  {
  }

  /** A call ends as refused only by finding its channel closed and empty. */
  lemma RefusedByClose(x: World, id: nat)
    requires Good(x) && Enabled(x, Collect(id)) && After(x, Collect(id), id) == Refused
    ensures x.chans[id].closed && x.chans[id].buf == None
  {
  }

  // ---- A reply that was read reaches its caller ----

  /** A reply to a call still in the table: read, handed over and collected, it is the call's answer. */
  lemma ReplyArrives(x: World, m: Message)
    requires Good(x) && x.reader == Reading && m.id > 0 && m.id in x.t.pending
    ensures var y := Run(x, [Read(m), Hand, Collect(m.id)]);
      m.id in y.callers && y.callers[m.id] == Answered(m) && m.id !in y.t.pending && y.reader == Reading
  {
    var id: nat := m.id;
    var x1 := Step(x, Read(m));
    StepGood(x, Read(m));
    assert x1.reader == Holding(m) && Fresh(x1, id);
    var x2 := Step(x1, Hand);
    StepGood(x1, Hand);
    assert x2.chans[id] == Chan(Some(m), false) && x2.callers[id] == Waiting;
    RunThree(x, Read(m), Hand, Collect(id));
  }

  lemma RunThree(x: World, a: Action, b: Action, c: Action)
    requires Enabled(x, a) && Enabled(Step(x, a), b) && Enabled(Step(Step(x, a), b), c)
    ensures Run(x, [a, b, c]) == Step(Step(Step(x, a), b), c)
  {
    RunFirst(x, a, [b, c]);
    RunFirst(Step(x, a), b, [c]);
    RunFirst(Step(Step(x, a), b), c, []);
    assert [a] + [b, c] == [a, b, c] && [b] + [c] == [b, c] && [c] + [] == [c];
  }

  /** A message for nobody who waits, a late reply or an event, changes nothing. */
  lemma StrayIsDropped(x: World, m: Message)
    requires x.reader == Reading && m.id != 0 && (m.id < 0 || m.id !in x.t.pending)
    ensures Step(x, Read(m)) == x
  {
  }

  /** The reply m is in the call's channel, or was its answer, or came too late for a caller that gave up. */
  predicate Handed(x: World, m: Message) {
    && m.id > 0 && m.id in x.callers && m.id in x.chans
    && match x.callers[m.id]
       case Waiting => x.chans[m.id].buf == Some(m)
       case Answered(r) => r == m
       case Refused => false
       case GaveUp => true
  }

  lemma HandDelivers(x: World)
    requires Good(x) && x.reader.Holding?
    ensures Handed(Step(x, Hand), x.reader.m)
  {
  }

  lemma HandedStep(x: World, a: Action, m: Message)
    requires Good(x) && Enabled(x, a) && Handed(x, m)
    ensures Handed(Step(x, a), m)
  {
  }

  lemma {:induction false} HandedStays(x: World, actions: seq<Action>, m: Message)
    requires Good(x) && Handed(x, m)
    ensures Handed(Run(x, actions), m)
    decreases |actions|
  {
    if actions != [] {
      if Enabled(x, actions[0]) {
        StepGood(x, actions[0]);
        HandedStep(x, actions[0], m);
        HandedStays(Step(x, actions[0]), actions[1..], m);
      } else {
        HandedStays(x, actions[1..], m);
      }
    }
  }

  // ---- Over runs ----

  /** Action i of a run hands over a reply to a call. */
  predicate HandsAt(actions: seq<Action>, i: nat, m: Message) {
    && i < |actions| && actions[i] == Hand
    && Run(Initial(), actions[..i]).reader == Holding(m)
  }

  /** A call handed its reply is never refused, whatever happens later. */
  lemma NeverRefused(actions: seq<Action>, i: nat, m: Message)
    requires HandsAt(actions, i, m)
    ensures Handed(Run(Initial(), actions), m)
  {
    var x := Run(Initial(), actions[..i]);
    RunGood(Initial(), actions[..i]);
    HandDelivers(x);
    StepGood(x, Hand);
    HandedStays(Step(x, Hand), actions[i + 1..], m);
    assert actions == actions[..i] + ([Hand] + actions[i + 1..]);
    RunMore(Initial(), actions[..i], [Hand] + actions[i + 1..]);
    RunFirst(x, Hand, actions[i + 1..]);
  }

  /** So a call is refused only if no reply was handed to it, and its channel was closed. */
  lemma RefusedExactly(actions: seq<Action>, id: nat)
    requires var x := Run(Initial(), actions); id in x.callers && x.callers[id] == Refused
    ensures var x := Run(Initial(), actions); id in x.chans && x.chans[id].closed && x.t.closed
    ensures forall i, m | HandsAt(actions, i, m) :: m.id != id
  {
    RefusedClosed(actions, id);
    forall i, m | HandsAt(actions, i, m)
      ensures m.id != id
    {
      NeverRefused(actions, i, m);
    }
  }

  lemma RunLast(actions: seq<Action>) returns (x: World, y: World, a: Action, before: seq<Action>)
    requires actions != []
    ensures before == actions[..|actions| - 1] && a == actions[|actions| - 1]
    ensures x == Run(Initial(), before) && y == Run(Initial(), actions) && Good(x) && Good(y)
    ensures y == if Enabled(x, a) then Step(x, a) else x
  {
    before, a := actions[..|actions| - 1], actions[|actions| - 1];
    x, y := Run(Initial(), before), Run(Initial(), actions);
    assert actions == before + [a];
    RunGood(Initial(), before);
    RunGood(Initial(), actions);
    RunMore(Initial(), before, [a]);
    assert Run(x, [a]) == Run(if Enabled(x, a) then Step(x, a) else x, [a][1..]);
  }

  lemma {:induction false} RefusedClosed(actions: seq<Action>, id: nat)
    requires var x := Run(Initial(), actions); id in x.callers && x.callers[id] == Refused
    ensures var x := Run(Initial(), actions); id in x.chans && x.chans[id].closed && x.t.closed
    decreases |actions|
  {
    var x, y, a, before := RunLast(actions);
    if id in x.callers && x.callers[id] == Refused {
      RefusedClosed(before, id);
      if Enabled(x, a) { StaysClosed(x, a, id); }
    } else {
      NewlyRefused(actions, x, y, a, id, before);
    }
  }

  lemma StaysClosed(x: World, a: Action, id: nat)
    requires Good(x) && Enabled(x, a) && id in x.chans && x.chans[id].closed && x.t.closed
    ensures var y := Step(x, a); id in y.chans && y.chans[id].closed && y.t.closed
  {
  }

  lemma NewlyRefused(actions: seq<Action>, x: World, y: World, a: Action, id: nat, before: seq<Action>)
    requires Good(x) && Enabled(x, a) && y == Step(x, a) && x == Run(Initial(), before)
    requires id in y.callers && y.callers[id] == Refused && (id in x.callers ==> x.callers[id] != Refused)
    ensures id in y.chans && y.chans[id].closed && y.t.closed
  {
    if id in x.callers {
      CallStep(x, a, id);
      ClosedTable(before, id);
    }
  }

  /** Channels are closed only once the table is. */
  lemma {:induction false} ClosedTable(actions: seq<Action>, id: nat)
    ensures var x := Run(Initial(), actions); id in x.chans && x.chans[id].closed ==> x.t.closed
    decreases |actions|
  {
    if actions != [] {
      var x, y, a, before := RunLast(actions);
      ClosedTable(before, id);
      if Enabled(x, a) { ClosedStep(x, a, id); }
    }
  }

  lemma ClosedStep(x: World, a: Action, id: nat)
    requires Good(x) && Enabled(x, a) && (id in x.chans && x.chans[id].closed ==> x.t.closed)
    ensures var y := Step(x, a); id in y.chans && y.chans[id].closed ==> y.t.closed
  {
  }

  /** And an answer is a message that was handed to the call: read for it and carrying its number. */
  lemma {:induction false} AnswerWasHanded(actions: seq<Action>, id: nat, m: Message) returns (i: nat)
    requires var x := Run(Initial(), actions);
      id in x.callers && (x.callers[id] == Answered(m) || (id in x.chans && x.chans[id].buf == Some(m)))
    ensures HandsAt(actions, i, m) && m.id == id
    decreases |actions|
  {
    var x, y, a, before := RunLast(actions);
    if id in x.callers && (x.callers[id] == Answered(m) || (id in x.chans && x.chans[id].buf == Some(m))) {
      i := AnswerWasHanded(before, id, m);
      assert before[..i] == actions[..i];
    } else {
      NewlyHanded(x, a, id, m);
      i := |before|;
    }
  }

  lemma NewlyHanded(x: World, a: Action, id: nat, m: Message)
    requires Good(x) && Enabled(x, a) && id in Step(x, a).callers
    requires !(id in x.callers && (x.callers[id] == Answered(m) || (id in x.chans && x.chans[id].buf == Some(m))))
    requires var y := Step(x, a); y.callers[id] == Answered(m) || (id in y.chans && y.chans[id].buf == Some(m))
    ensures a == Hand && x.reader == Holding(m) && m.id == id
  {
  }

  // ---- From the call to its answer ----

  /** A connection starts open, with nothing called and no error. */
  lemma OpenAtFirst()
    ensures var x := Initial();
      !x.t.closed && x.t.err == None && x.t.pending == {} && x.callers == map[] && x.reader == Reading && !x.blocked && !x.panicked
  {
  }

  /** On an open connection a call takes a number no call had, and nothing else changes. */
  lemma CallStarts(x: World)
    requires Good(x) && !x.t.closed
    ensures var y, id := Step(x, Register), x.t.nextID + 1;
      id !in x.callers && y == World(Table(id, x.t.pending + {id}, false, x.t.err), x.chans[id := Chan(None, false)],
                                     x.reader, x.callers[id := Waiting], x.blocked, x.panicked)
  {
  }

  /** Whoever calls on an open connection whose reader is free is answered by the reply with its number. */
  lemma CallIsAnswered(x: World, body: int)
    requires Good(x) && !x.t.closed && x.reader == Reading
    ensures var id := x.t.nextID + 1;
      var y := Run(x, [Register] + [Read(Message(id, body)), Hand, Collect(id)]);
      id in y.callers && y.callers[id] == Answered(Message(id, body))
  {
    var id := x.t.nextID + 1;
    var rest := [Read(Message(id, body)), Hand, Collect(id)];
    CallStarts(x);
    StepGood(x, Register);
    ReplyArrives(Step(x, Register), Message(id, body));
    RunFirst(x, Register, rest);
  }

  /** Closing the connection leaves the calls that wait as they are; only no call is taken on any more. */
  lemma ClosingStops(x: World, actions: seq<Action>)
    requires Good(x)
    ensures Enabled(x, CloseConn)
    ensures var y := Step(x, CloseConn); y == x.(t := y.t) && y.t.pending == x.t.pending && y.t.err == x.t.err
    ensures Run(Step(x, CloseConn), actions).callers.Keys == x.callers.Keys
  {
    NoneTakenOn(Step(x, CloseConn), actions);
  }

  lemma {:induction false} NoneTakenOn(x: World, actions: seq<Action>)
    requires x.t.closed
    ensures Run(x, actions).t.closed && Run(x, actions).callers.Keys == x.callers.Keys
    decreases |actions|
  {
    if actions != [] {
      if Enabled(x, actions[0]) { NoneTakenOnStep(x, actions[0]); }
      NoneTakenOn(if Enabled(x, actions[0]) then Step(x, actions[0]) else x, actions[1..]);
    }
  }

  lemma NoneTakenOnStep(x: World, a: Action)
    requires x.t.closed && Enabled(x, a)
    ensures Step(x, a).t.closed && Step(x, a).callers.Keys == x.callers.Keys
  {
  }

  /** The error the connection reports is the first that broke it, whatever happens later. */
  lemma {:induction false} FirstErrorKept(x: World, err: int, actions: seq<Action>)
    requires x.reader == Reading || x.t.err == Some(err)
    requires x.t.err == None || x.t.err == Some(err)
    ensures Run(if x.t.err == None then Step(x, Break(err)) else x, actions).t.err == Some(err)
    decreases |actions|
  {
    var y := if x.t.err == None then Step(x, Break(err)) else x;
    if actions != [] {
      FirstErrorKept(if Enabled(y, actions[0]) then Step(y, actions[0]) else y, err, actions[1..]);
    }
  }

  /** What counts as a fault: using a closed or unknown channel panics, a full one blocks the reader. */
  lemma Faults(x: World, m: Message, id: nat)
    ensures Sent(x, m).panicked <==> x.panicked || m.id < 0 || m.id !in x.chans || x.chans[m.id].closed
    ensures Sent(x, m).blocked
      <==> x.blocked || (m.id >= 0 && m.id in x.chans && !x.chans[m.id].closed && x.chans[m.id].buf != None)
    ensures Shut(x, id).panicked <==> x.panicked || id !in x.chans || x.chans[id].closed
  {
  }
}
