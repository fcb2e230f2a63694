/**
 Request and reply over one DevTools connection: many callers, one reader.

 Each locked region, and each channel operation outside the lock, is one action. The table is the
 connection's own state; `World` adds the reply channels, the reader, and how far each call has got.
 The reply channel of a call is named by the call's id.
 */
module CallTable {
  import opened Words

  /** A protocol message; a command or an event carries id 0. */
  datatype Message = Message(id: int, body: int)

  datatype Table = Table(nextID: nat, pending: set<nat>, closed: bool, err: Option<int>)

  // ---- The locked regions ----

  /** `Call` registers itself, or is told the connection is gone. */
  function RegisterRegion(t: Table): (Table, Option<nat>) {
    if t.closed then (t, None)
    else (t.(nextID := t.nextID + 1, pending := t.pending + {t.nextID + 1}), Some(t.nextID + 1))
  }

  /** The reader takes the call a reply answers out of the table. */
  function TakeRegion(t: Table, m: Message): (Table, Option<nat>) {
    if m.id > 0 && m.id in t.pending then (t.(pending := t.pending - {m.id}), Some(m.id)) else (t, None)
  }

  function ForgetRegion(t: Table, id: nat): Table {
    t.(pending := t.pending - {id})
  }

  /** `fail` takes every pending call and closes the table. */
  function FailRegion(t: Table, err: int): (Table, set<nat>) {
    (t.(pending := {}, closed := true, err := if t.err.None? then Some(err) else t.err), t.pending)
  }

  function CloseRegion(t: Table): Table {
    t.(closed := true)
  }

  // ---- The world ----

  /** A reply channel: capacity one. */
  datatype Chan = Chan(buf: Option<Message>, closed: bool)

  /** Reading: about to read a message. Holding: about to send one to the call it answers. Failing:
      about to close the channels of the calls that were pending. */
  datatype Reader = Reading | Holding(m: Message) | Failing(left: set<nat>) | Stopped

  datatype Caller = Waiting | Answered(m: Message) | Refused | GaveUp

  /** blocked: a reader's send found its channel full. panicked: a send or close of a closed channel. */
  datatype World = World(t: Table, chans: map<nat, Chan>, reader: Reader, callers: map<nat, Caller>, blocked: bool, panicked: bool)

  datatype Action =
    | Register
    | Forget(id: nat)
    | Collect(id: nat)
    | Read(m: Message)
    | Hand
    | Break(err: int)
    | CloseOne(id: nat)
    | CloseConn

  function Initial(): World {
    World(Table(0, {}, false, None), map[], Reading, map[], false, false)
  }

  predicate Enabled(x: World, a: Action) {
    match a
    case Register => true
    case Forget(id) => id in x.callers && x.callers[id] == Waiting
    case Collect(id) => id in x.callers && x.callers[id] == Waiting && id in x.chans && (x.chans[id].buf.Some? || x.chans[id].closed)
    case Read(m) => x.reader == Reading && m.id != 0
    case Hand => x.reader.Holding?
    case Break(_) => x.reader == Reading
    case CloseOne(id) => x.reader.Failing? && id in x.reader.left
    case CloseConn => true
  }

  /** A channel send by the reader. */
  function Sent(x: World, m: Message): World {
    if m.id < 0 || m.id !in x.chans then x.(panicked := true)
    else
      var c := x.chans[m.id];
      if c.closed then x.(panicked := true)
      else if c.buf.Some? then x.(blocked := true)
      else x.(chans := x.chans[m.id as nat := c.(buf := Some(m))])
  }

  function Shut(x: World, id: nat): World {
    if id !in x.chans || x.chans[id].closed then x.(panicked := true)
    else x.(chans := x.chans[id := x.chans[id].(closed := true)])
  }

  function Step(x: World, a: Action): World
    requires Enabled(x, a)
  {
    match a
    case Register =>
      var (t, id) := RegisterRegion(x.t);
      if id.None? then x
      else x.(t := t, chans := x.chans[id.value := Chan(None, false)], callers := x.callers[id.value := Waiting])
    case Forget(id) => x.(t := ForgetRegion(x.t, id), callers := x.callers[id := GaveUp])
    case Collect(id) =>
      var c := x.chans[id];
      x.(callers := x.callers[id := if c.buf.Some? then Answered(c.buf.value) else Refused],
         chans := x.chans[id := c.(buf := None)])
    case Read(m) =>
      var (t, id) := TakeRegion(x.t, m);
      x.(t := t, reader := if id.Some? then Holding(m) else Reading)
    case Hand => Sent(x, x.reader.m).(reader := Reading)
    case Break(err) =>
      var (t, left) := FailRegion(x.t, err);
      x.(t := t, reader := if left == {} then Stopped else Failing(left))
    case CloseOne(id) =>
      var left := x.reader.left - {id};
      Shut(x, id).(reader := if left == {} then Stopped else Failing(left))
    case CloseConn => x.(t := CloseRegion(x.t))
  }

  function Run(x: World, actions: seq<Action>): World
    decreases |actions|
  {
    if actions == [] then x
    else Run(if Enabled(x, actions[0]) then Step(x, actions[0]) else x, actions[1..])
  }

  // ---- The invariant ----

  predicate Fresh(x: World, id: nat) {
    id in x.chans && x.chans[id] == Chan(None, false)
  }

  /** The call's channel is in the reader's care: a reply or a close is still to come. */
  predicate InCare(x: World, id: nat) {
    match x.reader
    case Holding(m) => m.id == id
    case Failing(left) => id in left
    case _ => false
  }

  /** Whether the call's caller has something to wake it, now or later. */
  predicate Wakeable(x: World, id: nat) {
    id in x.t.pending || InCare(x, id) || (id in x.chans && (x.chans[id].buf.Some? || x.chans[id].closed))
  }

  predicate Good(x: World) {
    && !x.blocked && !x.panicked
    && x.chans.Keys == x.callers.Keys
    && (forall id | id in x.callers :: 1 <= id <= x.t.nextID)
    && (forall id | 1 <= id <= x.t.nextID :: id in x.callers)
    && (forall id | id in x.t.pending :: Fresh(x, id) && !InCare(x, id) && x.callers[id] == Waiting)
    && (x.reader.Holding? ==> x.reader.m.id >= 1 && Fresh(x, x.reader.m.id) && x.callers[x.reader.m.id] in {Waiting, GaveUp})
    && (x.reader.Failing? ==> x.reader.left != {} && forall id | id in x.reader.left :: Fresh(x, id))
    && (x.reader.Failing? || x.reader.Stopped? ==> x.t.pending == {} && x.t.closed && x.t.err.Some?)
    && (forall id | id in x.chans && x.chans[id].buf.Some? :: x.chans[id].buf.value.id == id)
    && (forall id | id in x.callers && x.callers[id].Answered? :: x.callers[id].m.id == id)
    && (forall id | id in x.callers && x.callers[id] == Waiting :: Wakeable(x, id))
  }

  lemma ReaderStepGood(x: World, a: Action)
    requires Good(x) && Enabled(x, a) && (a.Read? || a.Hand? || a.Break? || a.CloseOne?)
    ensures Good(Step(x, a))
  {
  }

  lemma RegisterGood(x: World)
    requires Good(x)
    ensures Good(Step(x, Register))
  {
  }

  lemma CallerStepGood(x: World, a: Action)
    requires Good(x) && Enabled(x, a) && (a.Forget? || a.Collect? || a.CloseConn?)
    ensures Good(Step(x, a))
  {
  }

  lemma StepGood(x: World, a: Action)
    requires Good(x) && Enabled(x, a)
    ensures Good(Step(x, a))
  {
    match a
    case Register => RegisterGood(x);
    case Forget(_) => CallerStepGood(x, a);
    case Collect(_) => CallerStepGood(x, a);
    case CloseConn => CallerStepGood(x, a);
    case _ => ReaderStepGood(x, a);
  }

  /** Calls are only ever added, what a call came to does not change, and a closed table admits none. */
  predicate Later(x: World, y: World) {
    && x.callers.Keys <= y.callers.Keys
    && (forall id | id in x.callers && x.callers[id] != Waiting :: y.callers[id] == x.callers[id])
    && (x.t.closed ==> y.t.closed && y.callers.Keys == x.callers.Keys)
  }

  /** A new call's number has never been used. */
  lemma StepSettles(x: World, a: Action)
    requires Good(x) && Enabled(x, a)
    ensures Later(x, Step(x, a))
    ensures forall id | id in Step(x, a).callers && id !in x.callers ::
      a == Register && id == x.t.nextID + 1 && Step(x, a).callers[id] == Waiting
  {
  }

  lemma LaterStill(x: World, y: World, z: World)
    requires Later(x, y) && Later(y, z)
    ensures Later(x, z)
  {
  }

  lemma {:induction false} RunGood(x: World, actions: seq<Action>)
    requires Good(x)
    ensures Good(Run(x, actions))
    decreases |actions|
  {
    if actions != [] {
      if Enabled(x, actions[0]) { StepGood(x, actions[0]); }
      RunGood(if Enabled(x, actions[0]) then Step(x, actions[0]) else x, actions[1..]);
    }
  }

  /** In every interleaving the reader neither blocks nor panics, and an answered call holds the reply
      that carries its number. */
  lemma EveryInterleaving(actions: seq<Action>)
    ensures var x := Run(Initial(), actions);
      && Good(x) && !x.blocked && !x.panicked
      && forall id | id in x.callers && x.callers[id].Answered? :: x.callers[id].m.id == id
  {
    RunGood(Initial(), actions);
  }

  /** Whatever happens later, a call that has been answered, refused or given up stays so, and a
      closed connection admits no further call. */
  lemma {:induction false} OutcomesAreFinal(x: World, actions: seq<Action>)
    requires Good(x)
    ensures Later(x, Run(x, actions))
    decreases |actions|
  {
    if actions != [] {
      if Enabled(x, actions[0]) {
        var y := Step(x, actions[0]);
        StepGood(x, actions[0]);
        StepSettles(x, actions[0]);
        OutcomesAreFinal(y, actions[1..]);
        LaterStill(x, y, Run(y, actions[1..]));
      } else {
        OutcomesAreFinal(x, actions[1..]);
      }
    }
  }

  /** Once `fail` has run its course the table is empty for good, and every caller still waiting has a
      reply or a closed channel to wake it. */
  lemma NobodyIsLeftWaiting(actions: seq<Action>)
    ensures var x := Run(Initial(), actions);
      x.reader == Stopped ==>
        && x.t.pending == {} && x.t.closed && x.t.err.Some?
        && forall id | id in x.callers && x.callers[id] == Waiting :: Enabled(x, Collect(id))
  {
    RunGood(Initial(), actions);
  }

  // ---- Failure does run its course ----

  lemma {:induction false} RunMore(x: World, first: seq<Action>, second: seq<Action>)
    ensures Run(x, first + second) == Run(Run(x, first), second)
    decreases |first|
  {
    if first == [] {
      assert first + second == second;
    } else {
      assert (first + second)[1..] == first[1..] + second;
      RunMore(if Enabled(x, first[0]) then Step(x, first[0]) else x, first[1..], second);
    }
  }

  lemma RunFirst(x: World, a: Action, rest: seq<Action>)
    requires Enabled(x, a)
    ensures Run(x, [a] + rest) == Run(Step(x, a), rest)
  {
    assert ([a] + rest)[1..] == rest;
  }

  /** A reader that is closing channels stops after as many closes as are left. */
  lemma {:induction false} ClosingEnds(x: World) returns (actions: seq<Action>)
    requires Good(x) && x.reader.Failing?
    ensures |actions| == |x.reader.left| && forall a | a in actions :: a.CloseOne?
    ensures Run(x, actions).reader == Stopped
    decreases |x.reader.left|
  {
    var id :| id in x.reader.left;
    var a := CloseOne(id);
    var y := Step(x, a);
    ReaderStepGood(x, a);
    assert |x.reader.left - {id}| == |x.reader.left| - 1;
    var rest := [];
    if y.reader.Failing? {
      rest := ClosingEnds(y);
    } else {
      assert x.reader.left - {id} == {};
    }
    actions := [a] + rest;
    RunFirst(x, a, rest);
  }

  /** What the reader does by itself, once the socket breaks. */
  predicate ByReader(a: Action) {
    a.Hand? || a.Break? || a.CloseOne?
  }

  /** From any world of a run, a socket that breaks brings the reader to its end, whatever it was at. */
  lemma {:induction false} ReaderStops(x: World, err: int) returns (actions: seq<Action>)
    requires Good(x)
    ensures (forall a | a in actions :: ByReader(a)) && Run(x, actions).reader == Stopped
    decreases if x.reader.Holding? then 2 else if x.reader.Reading? then 1 else 0
  {
    match x.reader
    case Stopped => actions := [];
    case Failing(_) => actions := ClosingEnds(x);
    case Reading =>
      var a := Break(err);
      ReaderStepGood(x, a);
      var rest := ReaderStops(Step(x, a), err);
      actions := [a] + rest;
      RunFirst(x, a, rest);
    case Holding(_) =>
      ReaderStepGood(x, Hand);
      var rest := ReaderStops(Step(x, Hand), err);
      actions := [Hand] + rest;
      RunFirst(x, Hand, rest);
  }

  function WaitingIn(x: World): set<nat> {
    set id | id in x.callers && x.callers[id] == Waiting
  }

  /** After that, as many collects as there are callers waiting leave none waiting. */
  lemma {:induction false} EveryoneCollects(x: World) returns (actions: seq<Action>)
    requires Good(x) && x.reader == Stopped
    ensures |actions| == |WaitingIn(x)| && forall a | a in actions :: a.Collect?
    ensures WaitingIn(Run(x, actions)) == {}
    decreases |WaitingIn(x)|
  {
    if WaitingIn(x) == {} {
      actions := [];
    } else {
      var id :| id in WaitingIn(x);
      var a := Collect(id);
      assert Wakeable(x, id);
      CallerStepGood(x, a);
      var y := Step(x, a);
      assert WaitingIn(y) == WaitingIn(x) - {id};
      var rest := EveryoneCollects(y);
      actions := [a] + rest;
      RunFirst(x, a, rest);
    }
  }

  /** So from any world of a run a broken socket can leave nobody waiting, by steps of the reader and then
      of the callers themselves. */
  lemma NobodyNeedWait(x: World, err: int) returns (reader: seq<Action>, collects: seq<Action>)
    requires Good(x)
    ensures (forall a | a in reader :: ByReader(a)) && (forall a | a in collects :: a.Collect?)
    ensures var y := Run(x, reader + collects); WaitingIn(y) == {} && y.t.closed && y.t.pending == {}
  {
    reader := ReaderStops(x, err);
    RunGood(x, reader);
    collects := EveryoneCollects(Run(x, reader));
    RunMore(x, reader, collects);
    ClosedStays(Run(x, reader), collects);
  }

  lemma {:induction false} ClosedStays(x: World, actions: seq<Action>)
    requires Good(x) && x.reader == Stopped
    ensures var y := Run(x, actions); y.t.closed && y.t.pending == {}
    decreases |actions|
  {
    if actions != [] {
      if Enabled(x, actions[0]) {
        StepGood(x, actions[0]);
        ClosedStays(Step(x, actions[0]), actions[1..]);
      } else {
        ClosedStays(x, actions[1..]);
      }
    }
  }

  // ---- The connection ----

  class Conn {
    var nextID: nat
    var pending: set<nat>
    var closed: bool
    var err: Option<int>

    constructor ()
      ensures View() == Initial().t
    {
      nextID, pending, closed, err := 0, {}, false, None;
    }

    function View(): Table
      reads this
    {
      Table(nextID, pending, closed, err)
    }

    /** None: the connection is closed. */
    method Register() returns (id: Option<nat>)
      modifies this
      ensures (View(), id) == RegisterRegion(old(View()))
      ensures id.Some? ==> id.value in pending && id.value > old(nextID)
    {
      if closed { return None; }
      nextID := nextID + 1;
      pending := pending + {nextID};
      return Some(nextID);
    }

    method Take(m: Message) returns (id: Option<nat>)
      modifies this`pending
      ensures (View(), id) == TakeRegion(old(View()), m)
      ensures id.Some? ==> id.value == m.id && m.id in old(pending) && m.id !in pending
      ensures id.None? ==> pending == old(pending)
    {
      if m.id <= 0 || m.id !in pending { return None; }
      pending := pending - {m.id};
      return Some(m.id);
    }

    method Forget(id: nat)
      modifies this`pending
      ensures View() == ForgetRegion(old(View()), id)
      ensures id !in pending && pending <= old(pending)
    {
      pending := pending - {id};
    }

    method Fail(e: int) returns (woken: set<nat>)
      modifies this
      ensures (View(), woken) == FailRegion(old(View()), e)
      ensures closed && pending == {} && woken == old(pending) && err == if old(err).Some? then old(err) else Some(e)
    {
      if err.None? { err := Some(e); }
      woken := pending;
      pending := {};
      closed := true;
    }

    /** Whether the socket is to be closed: only the first Close does it. */
    method Close() returns (first: bool)
      modifies this`closed
      ensures View() == CloseRegion(old(View())) && first == !old(closed)
      ensures closed && pending == old(pending)
    {
      first := !closed;
      closed := true;
    }
  }
}
