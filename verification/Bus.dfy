/**
 One subscription of the lossy event bus.

 Each region that runs under the subscription's lock, and each step taken outside it, is one
 action; an interleaving of publishers, timers, senders, the reader and Close is any sequence of
 actions. `Wire` is the subscription's own state; `World` adds, for every event it was offered,
 the place the event is in.
 */
module Bus {

  datatype Kind = Metrics | Coverage | Corpus | Finding | Triage | Worker | Campaign | Log

  /** num: the bus's sequence number. tag: the how-manieth event this subscription was offered. */
  datatype Event = Event(kind: Kind, num: nat, tag: nat)

  predicate Coalescable(k: Kind) {
    k == Metrics || k == Coverage
  }

  predicate Undroppable(k: Kind) {
    k == Finding || k == Campaign
  }

  /** A bounded channel. */
  datatype Chan = Chan(queue: seq<Event>, depth: nat, closed: bool)

  /** coalesce: the interval is positive. timer: whether the timer field is set. */
  datatype Wire = Wire(ch: Chan, pending: map<Kind, Event>, dropped: nat, closed: bool, coalesce: bool, timer: bool)

  // ---- The regions ----

  /** What became of the event, or of the region. */
  datatype Outcome = Closed | Held | HeldAndArmed | ToSend | Flushed | Queued | Full | Done | Panic

  /** The locked part of `deliver`. */
  function DeliverRegion(w: Wire, e: Event): (Wire, Outcome) {
    if w.closed then (w, Closed)
    else if Coalescable(e.kind) && w.coalesce then
      var arm := e.kind !in w.pending && !w.timer;
      (w.(pending := w.pending[e.kind := e], timer := w.timer || arm), if arm then HeldAndArmed else Held)
    else (w, ToSend)
  }

  /** The locked part of `flush`, which takes every pending event with it. */
  function FlushRegion(w: Wire): (Wire, Outcome) {
    if w.closed then (w, Closed) else (w.(pending := map[], timer := false), Flushed)
  }

  /** A non-blocking channel send. On a closed channel it panics. */
  function TrySendRegion(w: Wire, e: Event): (Wire, Outcome) {
    if w.ch.closed then (w, Panic)
    else if |w.ch.queue| < w.ch.depth then (w.(ch := w.ch.(queue := w.ch.queue + [e])), Queued)
    else (w, Full)
  }

  /** `send` of an ordinary event: what does not fit is counted. */
  function SendRegion(w: Wire, e: Event): (Wire, Outcome) {
    if w.closed then (w, Closed)
    else
      var (v, o) := TrySendRegion(w, e);
      if o == Full then (v.(dropped := v.dropped + 1), Full) else (v, o)
  }

  /** One attempt of `sendUndroppable`. */
  function AttemptRegion(w: Wire, e: Event): (Wire, Outcome) {
    if w.closed then (w, Closed) else TrySendRegion(w, e)
  }

  /** The locked part of `Close`. Closing a closed channel panics. */
  function CloseRegion(w: Wire): (Wire, Outcome) {
    if w.closed then (w, Closed)
    else if w.ch.closed then (w, Panic)
    else (w.(closed := true, ch := w.ch.(closed := true)), Done)
  }

  // ---- Every place an event can be ----

  /** InHand: between an unlock and its send. Trying: an undroppable event about to be attempted.
      Failed: one that found the queue full and is about to look at its deadline. Superseded: by a
      later event of its kind. Lost: given up and counted. Discarded: because of the close. */
  datatype Place =
    | InQueue | Received | Pending | InHand | Trying | Failed
    | Superseded(next: nat) | Lost | Discarded

  /** flushes: timer callbacks set and not yet run. place[t] is where offered[t] is. */
  datatype World = World(w: Wire, flushes: nat, offered: seq<Event>, place: seq<Place>, received: seq<Event>, panicked: bool)

  datatype Action =
    | Publish(kind: Kind, num: nat)
    | StartSend(t: nat)
    | TryAgain(t: nat)
    | Decide(t: nat, giveUp: bool)
    | Fire
    | Receive
    | Cancel(stopped: bool)

  function Initial(depth: nat, coalesce: bool): World {
    World(Wire(Chan([], depth, false), map[], 0, false, coalesce, false), 0, [], [], [], false)
  }

  predicate At(x: World, t: nat, p: Place) {
    t < |x.place| == |x.offered| && x.place[t] == p
  }

  /** Whether the goroutine that would take the step exists. */
  predicate Enabled(x: World, a: Action) {
    match a
    case Publish(_, _) => |x.place| == |x.offered|
    case StartSend(t) => At(x, t, InHand)
    case TryAgain(t) => At(x, t, Trying)
    case Decide(t, _) => At(x, t, Failed)
    case Fire => x.flushes > 0
    case Receive => x.w.ch.queue != [] && x.w.ch.queue[0].tag < |x.place|
    case Cancel(_) => true
  }

  function AfterPublish(x: World, kind: Kind, num: nat): World
    requires |x.place| == |x.offered|
  {
    var e := Event(kind, num, |x.offered|);
    var (w, o) := DeliverRegion(x.w, e);
    var y := x.(w := w, offered := x.offered + [e]);
    match o
    case Closed => y.(place := x.place + [Discarded])
    case ToSend => y.(place := x.place + [InHand])
    case _ =>
      var old_ := if kind in x.w.pending && x.w.pending[kind].tag < |x.place|
        then x.place[x.w.pending[kind].tag := Superseded(e.tag)] else x.place;
      y.(place := old_ + [Pending], flushes := x.flushes + if o == HeldAndArmed then 1 else 0)
  }

  /** Where an event is once its send has been tried. */
  function Settle(x: World, w: Wire, t: nat, o: Outcome, full: Place): World
    requires t < |x.place|
  {
    match o
    case Closed => x.(w := w, place := x.place[t := Discarded])
    case Queued => x.(w := w, place := x.place[t := InQueue])
    case Full => x.(w := w, place := x.place[t := full])
    case _ => x.(w := w, panicked := true)
  }

  function AfterStartSend(x: World, t: nat): World
    requires At(x, t, InHand)
  {
    if Undroppable(x.offered[t].kind) then x.(place := x.place[t := Trying])
    else var (w, o) := SendRegion(x.w, x.offered[t]); Settle(x, w, t, o, Lost)
  }

  function AfterTryAgain(x: World, t: nat): World
    requires At(x, t, Trying)
  {
    var (w, o) := AttemptRegion(x.w, x.offered[t]);
    Settle(x, w, t, o, Failed)
  }

  /** The deadline is looked at, and `dropped` added to, outside the lock. */
  function AfterDecide(x: World, t: nat, giveUp: bool): World
    requires At(x, t, Failed)
  {
    if giveUp then x.(place := x.place[t := Lost], w := x.w.(dropped := x.w.dropped + 1))
    else x.(place := x.place[t := Trying])
  }

  function Taken(place: seq<Place>): (r: seq<Place>)
    ensures |r| == |place|
    ensures forall t | 0 <= t < |r| :: r[t] == if place[t] == Pending then InHand else place[t]
  {
    seq(|place|, t requires 0 <= t < |place| => if place[t] == Pending then InHand else place[t])
  }

  function AfterFire(x: World): World
    requires x.flushes > 0
  {
    var (w, o) := FlushRegion(x.w);
    x.(w := w, flushes := x.flushes - 1, place := if o == Flushed then Taken(x.place) else x.place)
  }

  function AfterReceive(x: World): World
    requires x.w.ch.queue != [] && x.w.ch.queue[0].tag < |x.place|
  {
    var q := x.w.ch.queue;
    x.(w := x.w.(ch := x.w.ch.(queue := q[1..])), received := x.received + [q[0]], place := x.place[q[0].tag := Received])
  }

  /** stopped: whether stopping the timer was in time. */
  function AfterCancel(x: World, stopped: bool): World {
    var (w, o) := CloseRegion(x.w);
    var cancelled := if o == Done && x.w.timer && stopped && x.flushes > 0 then 1 else 0;
    x.(w := w, flushes := x.flushes - cancelled, panicked := x.panicked || o == Panic)
  }

  function Step(x: World, a: Action): World
    requires Enabled(x, a)
  {
    match a
    case Publish(kind, num) => AfterPublish(x, kind, num)
    case StartSend(t) => AfterStartSend(x, t)
    case TryAgain(t) => AfterTryAgain(x, t)
    case Decide(t, giveUp) => AfterDecide(x, t, giveUp)
    case Fire => AfterFire(x)
    case Receive => AfterReceive(x)
    case Cancel(stopped) => AfterCancel(x, stopped)
  }

  /** Any interleaving; a step that nobody can take is passed over. */
  function Run(x: World, actions: seq<Action>): World
    decreases |actions|
  {
    if actions == [] then x
    else Run(if Enabled(x, actions[0]) then Step(x, actions[0]) else x, actions[1..])
  }

  // ---- The invariants ----

  function CountLost(place: seq<Place>): nat {
    if place == [] then 0 else (if place[0] == Lost then 1 else 0) + CountLost(place[1..])
  }

  /** Everything in `s` was offered, is there once, and is where `place` says. */
  predicate Holds(x: World, s: seq<Event>, p: Place) {
    && |x.place| == |x.offered|
    && (forall i | 0 <= i < |s| :: At(x, s[i].tag, p) && x.offered[s[i].tag] == s[i])
    && (forall i, j | 0 <= i < j < |s| :: s[i].tag != s[j].tag)
    && (forall t | 0 <= t < |x.place| && x.place[t] == p :: x.offered[t] in s)
  }

  predicate PendingAt(x: World, k: Kind)
    requires k in x.w.pending
  {
    var e := x.w.pending[k];
    e.kind == k && Coalescable(k) && At(x, e.tag, Pending) && x.offered[e.tag] == e
  }

  /** What the pending map holds is what is pending. */
  predicate HoldsPending(x: World) {
    && |x.place| == |x.offered|
    && (forall k | k in x.w.pending :: PendingAt(x, k))
    && (forall t | 0 <= t < |x.place| && x.place[t] == Pending ::
          x.offered[t].kind in x.w.pending && x.w.pending[x.offered[t].kind] == x.offered[t])
  }

  /** Each offered event is in exactly one place, and the queue, the pending map, what the reader has
      received and the dropped count are what those places say. */
  predicate Accounted(x: World) {
    && |x.place| == |x.offered|
    && (forall t | 0 <= t < |x.offered| :: x.offered[t].tag == t)
    && Holds(x, x.w.ch.queue, InQueue)
    && Holds(x, x.received, Received)
    && HoldsPending(x)
    && x.w.dropped == CountLost(x.place)
  }

  /** Events are superseded by later ones of their kind only, and only undroppable ones are retried. */
  predicate Reasoned(x: World) {
    |x.place| == |x.offered| && forall t | 0 <= t < |x.place| :: Reason(x, t)
  }

  predicate Reason(x: World, t: nat)
    requires t < |x.place| == |x.offered|
  {
    var k := x.offered[t].kind;
    match x.place[t]
    case Superseded(next) => t < next < |x.offered| && x.offered[next].kind == k && Coalescable(k)
    case Trying => Undroppable(k)
    case Failed => Undroppable(k)
    case Discarded => x.w.closed
    case _ => true
  }

  /** No event delivered after a pending one is of its kind, unless it came after the close. */
  predicate Newest(x: World) {
    |x.place| == |x.offered| && forall t, u | 0 <= t < u < |x.place| ::
      x.place[t] == Pending && x.offered[t].kind == x.offered[u].kind ==> x.place[u] == Discarded
  }

  /** No panic; the queue is bounded; while open, the timer is set exactly when an event is pending,
      and then exactly one flush is to come. */
  predicate Sane(x: World) {
    && !x.panicked
    && (x.w.ch.closed <==> x.w.closed)
    && |x.w.ch.queue| <= x.w.ch.depth
    && (x.w.coalesce || x.w.pending == map[])
    && (!x.w.closed ==> (x.w.timer <==> x.w.pending != map[]))
    && (!x.w.closed ==> x.flushes == if x.w.timer then 1 else 0)
  }

  lemma {:induction false} CountLostUpdate(place: seq<Place>, t: nat, p: Place)
    requires t < |place|
    ensures CountLost(place[t := p]) + (if place[t] == Lost then 1 else 0) == CountLost(place) + if p == Lost then 1 else 0
  {
    if t == 0 {
      assert place[t := p][1..] == place[1..];
    } else {
      assert place[t := p][1..] == place[1..][t - 1 := p];
      CountLostUpdate(place[1..], t - 1, p);
    }
  }

  lemma {:induction false} CountLostAppend(place: seq<Place>, p: Place)
    ensures CountLost(place + [p]) == CountLost(place) + if p == Lost then 1 else 0
  {
    if place != [] {
      assert (place + [p])[1..] == place[1..] + [p];
      CountLostAppend(place[1..], p);
    }
  }

  lemma {:induction false} CountLostTaken(place: seq<Place>)
    ensures CountLost(Taken(place)) == CountLost(place)
  {
    if place != [] {
      assert Taken(place)[1..] == Taken(place[1..]);
      CountLostTaken(place[1..]);
    }
  }

  /** An event in some goroutine's hand. */
  predicate Loose(p: Place) {
    p == InHand || p == Trying || p == Failed
  }

  /** A loose event becomes loose again, is lost, or is discarded. */
  lemma MoveKeeps(x: World, y: World, t: nat, p: Place)
    requires Accounted(x) && t < |x.place| && Loose(x.place[t]) && (Loose(p) || p == Lost || p == Discarded)
    requires y.place == x.place[t := p] && y.offered == x.offered && y.received == x.received
    requires y.w.ch == x.w.ch && y.w.pending == x.w.pending
    requires y.w.dropped == x.w.dropped + if p == Lost then 1 else 0
    ensures Accounted(y)
  {
    CountLostUpdate(x.place, t, p);
  }

  /** A loose event enters the queue. */
  lemma EnqueueKeeps(x: World, y: World, t: nat)
    requires Accounted(x) && t < |x.place| && Loose(x.place[t])
    requires y.place == x.place[t := InQueue] && y.offered == x.offered && y.received == x.received
    requires y.w == x.w.(ch := x.w.ch.(queue := x.w.ch.queue + [x.offered[t]]))
    ensures Accounted(y)
  {
    CountLostUpdate(x.place, t, InQueue);
    HoldsFrame(x, y, x.received, Received);
    EnqueueHolds(x, y, x.w.ch.queue, t);
  }

  lemma EnqueueHolds(x: World, y: World, q: seq<Event>, t: nat)
    requires Holds(x, q, InQueue) && t < |x.place| && x.place[t] != InQueue && x.offered[t].tag == t
    requires y.place == x.place[t := InQueue] && y.offered == x.offered
    ensures Holds(y, q + [x.offered[t]], InQueue)
  {
    var q' := q + [x.offered[t]];
    forall u | 0 <= u < |y.place| && y.place[u] == InQueue ensures y.offered[u] in q' {
      if u == t { assert q'[|q|] == y.offered[u]; }
      else { assert y.offered[u] in q; }
    }
  }

  /** Events that neither enter nor leave place p do not disturb what holds it. */
  lemma HoldsFrame(x: World, y: World, s: seq<Event>, p: Place)
    requires Holds(x, s, p) && |x.place| == |x.offered| <= |y.place| == |y.offered|
    requires x.offered <= y.offered
    requires forall t | 0 <= t < |x.place| :: x.place[t] == p <==> y.place[t] == p
    requires forall t | |x.place| <= t < |y.place| :: y.place[t] != p
    ensures Holds(y, s, p)
  {
    forall t | 0 <= t < |y.place| && y.place[t] == p ensures y.offered[t] in s {
      assert x.offered[t] in s;
    }
  }

  lemma ReceiveKeeps(x: World)
    requires Accounted(x) && Enabled(x, Receive)
    ensures Accounted(AfterReceive(x))
  {
    var y, q := AfterReceive(x), x.w.ch.queue;
    CountLostUpdate(x.place, q[0].tag, Received);
    assert Holds(y, q[1..], InQueue) by { DequeueHolds(x, y, q); }
    assert Holds(y, y.received, Received) by { ReceivedHolds(x, y, q[0]); }
  }

  lemma DequeueHolds(x: World, y: World, q: seq<Event>)
    requires Holds(x, q, InQueue) && q != [] && y.place == x.place[q[0].tag := Received] && y.offered == x.offered
    requires forall t | 0 <= t < |x.offered| :: x.offered[t].tag == t
    ensures Holds(y, q[1..], InQueue)
  {
    forall u | 0 <= u < |y.place| && y.place[u] == InQueue ensures y.offered[u] in q[1..] {
      assert x.offered[u] in q && x.offered[u] != q[0];
    }
  }

  lemma ReceivedHolds(x: World, y: World, e: Event)
    requires Holds(x, x.received, Received) && At(x, e.tag, InQueue) && x.offered[e.tag] == e
    requires y.place == x.place[e.tag := Received] && y.offered == x.offered && y.received == x.received + [e]
    ensures Holds(y, y.received, Received)
  {
    forall u | 0 <= u < |y.place| && y.place[u] == Received ensures y.offered[u] in y.received {
      if u == e.tag { assert y.received[|x.received|] == y.offered[u]; }
      else { assert x.offered[u] in x.received; }
    }
  }

  lemma FireKeeps(x: World)
    requires Accounted(x) && Enabled(x, Fire)
    ensures Accounted(AfterFire(x))
  {
    CountLostTaken(x.place);
  }

  lemma PublishCounts(x: World, kind: Kind, num: nat)
    requires Accounted(x)
    ensures AfterPublish(x, kind, num).w.dropped == CountLost(AfterPublish(x, kind, num).place)
  {
    var e := Event(kind, num, |x.offered|);
    var (w, o) := DeliverRegion(x.w, e);
    if o == Closed || o == ToSend {
      CountLostAppend(x.place, if o == Closed then Discarded else InHand);
    } else if kind in x.w.pending {
      var t := x.w.pending[kind].tag;
      CountLostUpdate(x.place, t, Superseded(e.tag));
      CountLostAppend(x.place[t := Superseded(e.tag)], Pending);
    } else {
      CountLostAppend(x.place, Pending);
    }
  }

  /** Publishing moves one event at most, from pending to superseded, and appends one. */
  lemma PublishPlaces(x: World, kind: Kind, num: nat)
    requires HoldsPending(x)
    ensures var y := AfterPublish(x, kind, num);
      && |y.place| == |y.offered| == |x.place| + 1 && x.offered <= y.offered
      && y.place[|x.place|] in {Discarded, InHand, Pending}
      && forall t | 0 <= t < |x.place| :: y.place[t] == x.place[t] ||
           (x.place[t] == Pending && y.place[t] == Superseded(|x.place|) && x.offered[t].kind == kind && Coalescable(kind))
  {
  }

  lemma PublishLosesNothing(x: World, kind: Kind, num: nat, t: nat)
    requires HoldsPending(x) && t < |x.place|
    ensures var y := AfterPublish(x, kind, num); t < |y.place| && (y.place[t] == x.place[t] || y.place[t].Superseded?)
  {
    PublishPlaces(x, kind, num);
  }

  lemma PublishHoldsPending(x: World, kind: Kind, num: nat)
    requires HoldsPending(x) && forall t | 0 <= t < |x.offered| :: x.offered[t].tag == t
    ensures HoldsPending(AfterPublish(x, kind, num))
  {
    var y := AfterPublish(x, kind, num);
    var e := Event(kind, num, |x.offered|);
    PublishPlaces(x, kind, num);
    if !x.w.closed && Coalescable(kind) && x.w.coalesce {
      assert y.w.pending == x.w.pending[kind := e] && y.place[e.tag] == Pending;
      forall t | 0 <= t < |y.place| && y.place[t] == Pending
        ensures y.offered[t].kind in y.w.pending && y.w.pending[y.offered[t].kind] == y.offered[t]
      {
        assert t < |x.place| ==> x.place[t] == Pending;
      }
      forall k | k in y.w.pending ensures PendingAt(y, k) {
        if k != kind { assert PendingAt(x, k); }
      }
    } else {
      forall k | k in y.w.pending ensures PendingAt(y, k) {
        assert PendingAt(x, k);
      }
    }
  }

  lemma PublishHolds(x: World, kind: Kind, num: nat, s: seq<Event>, p: Place)
    requires HoldsPending(x) && Holds(x, s, p) && (p == InQueue || p == Received)
    ensures Holds(AfterPublish(x, kind, num), s, p)
  {
    PublishPlaces(x, kind, num);
    HoldsFrame(x, AfterPublish(x, kind, num), s, p);
  }

  lemma PublishKeepsRest(x: World, kind: Kind, num: nat)
    requires |x.place| == |x.offered| && forall t | 0 <= t < |x.offered| :: x.offered[t].tag == t
    ensures var y := AfterPublish(x, kind, num);
      && y.w.ch.queue == x.w.ch.queue && y.received == x.received && |y.place| == |y.offered|
      && forall t | 0 <= t < |y.offered| :: y.offered[t].tag == t
  {
  }

  lemma PublishKeeps(x: World, kind: Kind, num: nat)
    requires Accounted(x)
    ensures Accounted(AfterPublish(x, kind, num))
  {
    PublishKeepsRest(x, kind, num);
    PublishCounts(x, kind, num);
    PublishHoldsPending(x, kind, num);
    PublishHolds(x, kind, num, x.w.ch.queue, InQueue);
    PublishHolds(x, kind, num, x.received, Received);
  }

  lemma SettleKeeps(x: World, t: nat, o: Outcome, full: Place, w: Wire)
    requires Accounted(x) && t < |x.place| && Loose(x.place[t]) && (Loose(full) || full == Lost)
    requires (w, o) == if full == Lost then SendRegion(x.w, x.offered[t]) else AttemptRegion(x.w, x.offered[t])
    requires x.w.ch.closed <==> x.w.closed
    ensures Accounted(Settle(x, w, t, o, full))
  {
    if o == Queued {
      EnqueueKeeps(x, Settle(x, w, t, o, full), t);
    } else {
      MoveKeeps(x, Settle(x, w, t, o, full), t, if o == Full then full else Discarded);
    }
  }

  lemma StepAccounted(x: World, a: Action)
    requires Enabled(x, a) && Accounted(x) && Sane(x)
    ensures Accounted(Step(x, a))
  {
    match a
    case Publish(kind, num) => PublishKeeps(x, kind, num);
    case StartSend(t) =>
      if Undroppable(x.offered[t].kind) {
        MoveKeeps(x, Step(x, a), t, Trying);
      } else {
        var (w, o) := SendRegion(x.w, x.offered[t]);
        SettleKeeps(x, t, o, Lost, w);
      }
    case TryAgain(t) =>
      var (w, o) := AttemptRegion(x.w, x.offered[t]);
      SettleKeeps(x, t, o, Failed, w);
    case Decide(t, giveUp) => MoveKeeps(x, Step(x, a), t, if giveUp then Lost else Trying);
    case Fire => FireKeeps(x);
    case Receive => ReceiveKeeps(x);
    case Cancel(_) =>
  }

  lemma PublishReasoned(x: World, kind: Kind, num: nat)
    requires HoldsPending(x) && Reasoned(x)
    ensures Reasoned(AfterPublish(x, kind, num))
  {
    var y := AfterPublish(x, kind, num);
    PublishPlaces(x, kind, num);
    forall t | 0 <= t < |y.place| ensures Reason(y, t) {
      if t < |x.place| { assert Reason(x, t); }
    }
  }

  /** What a step other than publishing can do to an event. */
  predicate Moved(x: World, a: Action, w: Wire, t: nat, p: Place, q: Place)
    requires t < |x.offered|
  {
    var overflow := !x.w.closed && |x.w.ch.queue| >= x.w.ch.depth;
    match (p, q)
    case (Pending, InHand) => true
    case (InQueue, Received) => true
    case (InHand, InQueue) => true
    case (InHand, Trying) => Undroppable(x.offered[t].kind)
    case (InHand, Lost) => overflow && a == StartSend(t)
    case (InHand, Discarded) => w.closed
    case (Trying, InQueue) => true
    case (Trying, Failed) => overflow && a == TryAgain(t)
    case (Trying, Discarded) => w.closed
    case (Failed, Trying) => true
    case (Failed, Lost) => a == Decide(t, true)
    case _ => p == q
  }

  ghost predicate AllMoved(x: World, a: Action, y: World) {
    && y.offered == x.offered && |y.place| == |x.place| == |x.offered| && (x.w.closed ==> y.w.closed)
    && forall t | 0 <= t < |x.place| :: Moved(x, a, y.w, t, x.place[t], y.place[t])
  }

  lemma OneMoved(x: World, a: Action, y: World, u: nat)
    requires y.offered == x.offered && |x.place| == |x.offered| && (x.w.closed ==> y.w.closed) && u < |x.place|
    requires |y.place| == |x.place| && y.place == x.place[u := y.place[u]] && Moved(x, a, y.w, u, x.place[u], y.place[u])
    ensures AllMoved(x, a, y)
  {
    forall t | 0 <= t < |x.place| ensures Moved(x, a, y.w, t, x.place[t], y.place[t]) {}
  }

  lemma SendMoves(x: World, t: nat)
    requires Enabled(x, StartSend(t))
    ensures AllMoved(x, StartSend(t), AfterStartSend(x, t))
  {
    OneMoved(x, StartSend(t), AfterStartSend(x, t), t);
  }

  lemma AttemptMoves(x: World, t: nat)
    requires Enabled(x, TryAgain(t))
    ensures AllMoved(x, TryAgain(t), AfterTryAgain(x, t))
  {
    OneMoved(x, TryAgain(t), AfterTryAgain(x, t), t);
  }

  lemma StepMoves(x: World, a: Action)
    requires Enabled(x, a) && !a.Publish? && Holds(x, x.w.ch.queue, InQueue)
    ensures AllMoved(x, a, Step(x, a))
  {
    match a
    case StartSend(u) => SendMoves(x, u);
    case TryAgain(u) => AttemptMoves(x, u);
    case Decide(u, _) => OneMoved(x, a, Step(x, a), u);
    case Receive => OneMoved(x, a, Step(x, a), x.w.ch.queue[0].tag);
    case _ =>
  }

  lemma PublishNewest(x: World, kind: Kind, num: nat)
    requires Accounted(x) && Newest(x) && Sane(x)
    ensures Newest(AfterPublish(x, kind, num))
  {
    var y, n := AfterPublish(x, kind, num), |x.place|;
    PublishPlaces(x, kind, num);
    forall t, u | 0 <= t < u < |y.place| && y.place[t] == Pending && y.offered[t].kind == y.offered[u].kind
      ensures y.place[u] == Discarded
    {
      if t < n && u == n { assert x.place[t] == Pending ==> kind in x.w.pending; }
    }
  }

  lemma MovesKeepNewest(x: World, a: Action, y: World)
    requires AllMoved(x, a, y) && Newest(x)
    ensures Newest(y)
  {
    forall t, u | 0 <= t < u < |y.place| && y.place[t] == Pending && y.offered[t].kind == y.offered[u].kind
      ensures y.place[u] == Discarded
    {
      assert Moved(x, a, y.w, t, x.place[t], y.place[t]) && Moved(x, a, y.w, u, x.place[u], y.place[u]);
    }
  }

  lemma MovesKeepReasons(x: World, a: Action, y: World)
    requires AllMoved(x, a, y) && Reasoned(x)
    ensures Reasoned(y)
  {
    forall t | 0 <= t < |y.place| ensures Reason(y, t) {
      assert Reason(x, t) && Moved(x, a, y.w, t, x.place[t], y.place[t]);
    }
  }

  lemma StepReasoned(x: World, a: Action)
    requires Enabled(x, a) && Accounted(x) && Reasoned(x) && Newest(x) && Sane(x)
    ensures Reasoned(Step(x, a)) && Newest(Step(x, a))
  {
    if a.Publish? {
      PublishReasoned(x, a.kind, a.num);
      PublishNewest(x, a.kind, a.num);
    } else {
      StepMoves(x, a);
      MovesKeepReasons(x, a, Step(x, a));
      MovesKeepNewest(x, a, Step(x, a));
    }
  }

  lemma StepSane(x: World, a: Action)
    requires Enabled(x, a) && Sane(x)
    ensures Sane(Step(x, a))
  {
    match a
    case Publish(kind, num) =>
      var (w, o) := DeliverRegion(x.w, Event(kind, num, |x.offered|));
      assert o == Held || o == HeldAndArmed ==> kind in w.pending;
    case _ =>
  }

  ghost predicate Good(x: World) {
    Accounted(x) && Reasoned(x) && Newest(x) && Sane(x)
  }

  lemma {:induction false} RunKeeps(x: World, actions: seq<Action>)
    requires Good(x)
    ensures Good(Run(x, actions))
    decreases |actions|
  {
    if actions != [] {
      var y := if Enabled(x, actions[0]) then Step(x, actions[0]) else x;
      if Enabled(x, actions[0]) {
        StepAccounted(x, actions[0]);
        StepReasoned(x, actions[0]);
        StepSane(x, actions[0]);
      }
      RunKeeps(y, actions[1..]);
    }
  }

  /** Every interleaving keeps the accounts, gives its reasons, and never panics. */
  lemma EveryInterleaving(depth: nat, coalesce: bool, actions: seq<Action>)
    ensures Good(Run(Initial(depth, coalesce), actions))
  {
    RunKeeps(Initial(depth, coalesce), actions);
  }

  /** An event is given up only for a queue that was full while the subscription was open: the step
      that loses it or, for an undroppable one, the attempt just before its deadline. */
  lemma LossIsOverflow(x: World, a: Action, y: World, t: nat)
    requires Enabled(x, a) && Accounted(x) && y == Step(x, a) && t < |x.place| && t < |y.place|
    requires y.place[t] != x.place[t] && (y.place[t] == Lost || y.place[t] == Failed)
    ensures (x.place[t] == Failed && a == Decide(t, true)) || Overflows(x, a, t)
  {
    if a.Publish? {
      PublishLosesNothing(x, a.kind, a.num, t);
    } else {
      StepMoves(x, a);
      assert Moved(x, a, y.w, t, x.place[t], y.place[t]);
    }
  }

  /** An attempt to send event t that finds the queue full while the subscription is open. */
  predicate Overflows(x: World, a: Action, t: nat) {
    !x.w.closed && |x.w.ch.queue| >= x.w.ch.depth && (a == StartSend(t) || a == TryAgain(t)) && Enabled(x, a)
  }

  lemma {:induction false} RunNext(x: World, actions: seq<Action>, a: Action)
    ensures var y := Run(x, actions); Run(x, actions + [a]) == if Enabled(y, a) then Step(y, a) else y
    decreases |actions|
  {
    if actions == [] {
      assert [] + [a] == [a];
    } else {
      assert (actions + [a])[1..] == actions[1..] + [a];
      RunNext(if Enabled(x, actions[0]) then Step(x, actions[0]) else x, actions[1..], a);
    }
  }

  ghost predicate OverflowedAt(x: World, actions: seq<Action>, t: nat, i: nat)
    requires i < |actions|
  {
    Overflows(Run(x, actions[..i]), actions[i], t)
  }

  predicate GivenUp(x: World, t: nat) {
    t < |x.place| && (x.place[t] == Lost || x.place[t] == Failed)
  }

  lemma LossStep(x: World, a: Action, t: nat)
    requires Enabled(x, a) && Accounted(x) && GivenUp(Step(x, a), t)
    ensures Overflows(x, a, t) || GivenUp(x, t)
  {
    if a.Publish? {
      PublishPlaces(x, a.kind, a.num);
    } else {
      StepMoves(x, a);
      if Step(x, a).place[t] != x.place[t] {
        LossIsOverflow(x, a, Step(x, a), t);
      }
    }
  }

  /** Over a run, whatever was lost had, at some moment of it, found the queue full. */
  lemma {:induction false} EveryLossOverflowed(depth: nat, coalesce: bool, actions: seq<Action>, t: nat) returns (i: nat)
    requires GivenUp(Run(Initial(depth, coalesce), actions), t)
    ensures i < |actions| && OverflowedAt(Initial(depth, coalesce), actions, t, i)
    decreases |actions|
  {
    var x0 := Initial(depth, coalesce);
    var n := |actions| - 1;
    var before, a := actions[..n], actions[n];
    assert actions == before + [a];
    RunNext(x0, before, a);
    EveryInterleaving(depth, coalesce, before);
    if Enabled(Run(x0, before), a) {
      LossStep(Run(x0, before), a, t);
    }
    if Overflows(Run(x0, before), a, t) {
      i := n;
    } else {
      i := EveryLossOverflowed(depth, coalesce, before, t);
      assert actions[..i] == before[..i];
    }
  }

  // ---- Which event stays pending ----

  /** No event delivered of the kind has a higher number than the pending one. */
  predicate HighestPends(x: World, k: Kind)
    requires k in x.w.pending
  {
    forall t | 0 <= t < |x.offered| && x.offered[t].kind == k :: x.offered[t].num <= x.w.pending[k].num
  }

  /** Holding an event leaves the highest pending exactly when its number is not below those before it. */
  lemma PublishHighest(x: World, kind: Kind, num: nat)
    requires |x.place| == |x.offered| && !x.w.closed && x.w.coalesce && Coalescable(kind)
    ensures var y := AfterPublish(x, kind, num);
      kind in y.w.pending &&
      (HighestPends(y, kind) <==> forall t | 0 <= t < |x.offered| && x.offered[t].kind == kind :: x.offered[t].num <= num)
  {
    var y := AfterPublish(x, kind, num);
    assert y.offered == x.offered + [Event(kind, num, |x.offered|)];
    assert forall t | 0 <= t < |x.offered| :: y.offered[t] == x.offered[t];
  }

  /** What a run publishes, in order. */
  function Published(actions: seq<Action>): seq<(Kind, nat)> {
    if actions == [] then []
    else PublishedBy(actions[0]) + Published(actions[1..])
  }

  function Numbers(events: seq<Event>): (r: seq<(Kind, nat)>)
    ensures |r| == |events| && forall t | 0 <= t < |r| :: r[t] == (events[t].kind, events[t].num)
  {
    seq(|events|, t requires 0 <= t < |events| => (events[t].kind, events[t].num))
  }

  function PublishedBy(a: Action): seq<(Kind, nat)> {
    if a.Publish? then [(a.kind, a.num)] else []
  }

  lemma StepOffers(x: World, a: Action)
    requires Accounted(x) && Enabled(x, a)
    ensures Numbers(Step(x, a).offered) == Numbers(x.offered) + PublishedBy(a)
  {
    if a.Publish? {
      assert Step(x, a).offered == x.offered + [Event(a.kind, a.num, |x.offered|)];
    } else {
      StepMoves(x, a);
    }
  }

  lemma StepGood(x: World, a: Action)
    requires Good(x) && Enabled(x, a)
    ensures Good(Step(x, a))
  {
    StepAccounted(x, a);
    StepReasoned(x, a);
    StepSane(x, a);
  }

  /** One action of a run, possible or not. */
  function StepOrNot(x: World, a: Action): World {
    if Enabled(x, a) then Step(x, a) else x
  }

  lemma StepOrNotOffers(x: World, a: Action)
    requires Good(x)
    ensures Good(StepOrNot(x, a)) && Numbers(StepOrNot(x, a).offered) == Numbers(x.offered) + PublishedBy(a)
  {
    if Enabled(x, a) {
      StepGood(x, a);
      StepOffers(x, a);
    }
  }

  lemma {:induction false} OfferedArePublished(x: World, actions: seq<Action>)
    requires Good(x)
    ensures Numbers(Run(x, actions).offered) == Numbers(x.offered) + Published(actions)
    decreases |actions|
  {
    if actions != [] {
      var y := StepOrNot(x, actions[0]);
      StepOrNotOffers(x, actions[0]);
      OfferedArePublished(y, actions[1..]);
      Regroup(Numbers(x.offered), PublishedBy(actions[0]), Published(actions[1..]));
    }
  }

  lemma Regroup<T>(a: seq<T>, b: seq<T>, c: seq<T>)
    ensures (a + b) + c == a + (b + c)
  {
  }

  /** The last number published of a kind is not below any published before it. */
  predicate LastIsHighest(ps: seq<(Kind, nat)>, k: Kind) {
    forall t | 0 <= t < |ps| && ps[t].0 == k && (forall u | t < u < |ps| :: ps[u].0 != k) ::
      forall u | 0 <= u < t && ps[u].0 == k :: ps[u].1 <= ps[t].1
  }

  predicate InOrder(ps: seq<(Kind, nat)>, k: Kind) {
    forall t, u | 0 <= u < t < |ps| && ps[t].0 == k && ps[u].0 == k :: ps[u].1 <= ps[t].1
  }

  /** In every reachable state the pending event of a kind is the last one delivered. */
  lemma PendingIsLast(x: World, k: Kind)
    requires Good(x) && !x.w.closed && k in x.w.pending
    ensures var t := x.w.pending[k].tag;
      && t < |x.offered| && x.offered[t] == x.w.pending[k] && x.offered[t].kind == k
      && forall u | t < u < |x.offered| :: x.offered[u].kind != k
  {
    assert PendingAt(x, k);
    var t := x.w.pending[k].tag;
    forall u | t < u < |x.offered|
      ensures x.offered[u].kind != k
    {
      assert x.place[t] == Pending && (x.offered[u].kind == k ==> x.place[u] == Discarded);
      assert Reason(x, u);
    }
  }

  lemma LastDecides(ps: seq<(Kind, nat)>, k: Kind, t: nat)
    requires t < |ps| && ps[t].0 == k && forall u | t < u < |ps| :: ps[u].0 != k
    ensures LastIsHighest(ps, k) <==> forall u | 0 <= u < |ps| && ps[u].0 == k :: ps[u].1 <= ps[t].1
    ensures InOrder(ps, k) ==> LastIsHighest(ps, k)
  {
    if LastIsHighest(ps, k) {
      assert forall u | 0 <= u < t && ps[u].0 == k :: ps[u].1 <= ps[t].1;
    }
    assert forall v | 0 <= v < |ps| && ps[v].0 == k && (forall u | v < u < |ps| :: ps[u].0 != k) :: v == t;
  }

  /** Over every run: the event left pending is the highest numbered of its kind exactly when the last
      one published of that kind is, and so always when they are published in order. */
  lemma HighestPendsExactly(depth: nat, coalesce: bool, actions: seq<Action>, k: Kind)
    requires var x := Run(Initial(depth, coalesce), actions); !x.w.closed && k in x.w.pending
    ensures HighestPends(Run(Initial(depth, coalesce), actions), k) <==> LastIsHighest(Published(actions), k)
    ensures InOrder(Published(actions), k) ==> HighestPends(Run(Initial(depth, coalesce), actions), k)
  {
    OfferedInRun(depth, coalesce, actions);
    HighestPendsIn(Run(Initial(depth, coalesce), actions), Published(actions), k);
  }

  lemma InitialGood(depth: nat, coalesce: bool)
    ensures Good(Initial(depth, coalesce)) && Numbers(Initial(depth, coalesce).offered) == []
  {
  }

  lemma OfferedInRun(depth: nat, coalesce: bool, actions: seq<Action>)
    ensures Good(Run(Initial(depth, coalesce), actions))
    ensures Numbers(Run(Initial(depth, coalesce), actions).offered) == Published(actions)
  {
    InitialGood(depth, coalesce);
    RunKeeps(Initial(depth, coalesce), actions);
    OfferedArePublished(Initial(depth, coalesce), actions);
    assert [] + Published(actions) == Published(actions);
  }

  lemma HighestPendsIn(x: World, ps: seq<(Kind, nat)>, k: Kind)
    requires Good(x) && !x.w.closed && k in x.w.pending && Numbers(x.offered) == ps
    ensures HighestPends(x, k) <==> LastIsHighest(ps, k)
    ensures InOrder(ps, k) ==> HighestPends(x, k)
  {
    PendingIsLast(x, k);
    HighestOf(x, ps, k, x.w.pending[k].tag);
  }

  lemma HighestOf(x: World, ps: seq<(Kind, nat)>, k: Kind, t: nat)
    requires k in x.w.pending && Numbers(x.offered) == ps && t < |x.offered| && x.offered[t] == x.w.pending[k]
    requires x.offered[t].kind == k && forall u | t < u < |x.offered| :: x.offered[u].kind != k
    ensures HighestPends(x, k) <==> LastIsHighest(ps, k)
    ensures InOrder(ps, k) ==> HighestPends(x, k)
  {
    forall u | t < u < |ps|
      ensures ps[u].0 != k
    {
      assert ps[u] == (x.offered[u].kind, x.offered[u].num);
    }
    LastDecides(ps, k, t);
    NumbersDecide(x, ps, k, x.w.pending[k].num);
  }

  lemma NumbersDecide(x: World, ps: seq<(Kind, nat)>, k: Kind, num: nat)
    requires Numbers(x.offered) == ps
    ensures (forall t | 0 <= t < |x.offered| && x.offered[t].kind == k :: x.offered[t].num <= num)
       <==> (forall u | 0 <= u < |ps| && ps[u].0 == k :: ps[u].1 <= num)
  {
    forall t | 0 <= t < |ps|
      ensures ps[t] == (x.offered[t].kind, x.offered[t].num)
    {
    }
  }

  /** "Newest" is by order of delivery. Publish numbers an event before it delivers it, so of two
      concurrent publishers the one with the older number may be the one that stays. */
  lemma OlderNumberMayStay()
    ensures var x := Run(Initial(1, true), [Publish(Metrics, 2), Publish(Metrics, 1)]);
      Metrics in x.w.pending && x.w.pending[Metrics].num == 1 && x.place == [Superseded(1), Pending]
  {
    var x1 := Step(Initial(1, true), Publish(Metrics, 2));
    var x2 := Step(x1, Publish(Metrics, 1));
    assert Run(x1, [Publish(Metrics, 1)]) == Run(x2, []);
    assert [Publish(Metrics, 2), Publish(Metrics, 1)][1..] == [Publish(Metrics, 1)];
  }

  // ---- The subscription ----

  /** A flush under way: what is not pending any more has been handed over. */
  ghost predicate Handing(all: map<Kind, Event>, left: map<Kind, Event>, batch: seq<Event>) {
    && |batch| + |left| == |all|
    && (forall k | k in left :: k in all && left[k] == all[k])
    && (forall k | k in all :: k in left || all[k] in batch)
  }

  lemma HandOne(all: map<Kind, Event>, left: map<Kind, Event>, batch: seq<Event>, k: Kind)
    requires Handing(all, left, batch) && k in left
    ensures Handing(all, left - {k}, batch + [left[k]]) && |left - {k}| < |left|
  {
    assert (left - {k}).Keys == left.Keys - {k} && |(left - {k}).Keys| == |left.Keys| - 1;
    assert (batch + [left[k]])[|batch|] == all[k];
    assert forall j | j in all && j !in left :: all[j] in batch;
  }

  class Subscription {
    var queue: seq<Event>
    const depth: nat
    var chanClosed: bool
    var pending: map<Kind, Event>
    var dropped: nat
    var closed: bool
    const coalesce: bool
    var timer: bool

    constructor (depth: nat, coalesce: bool)
      ensures this.depth == (if depth == 0 then 64 else depth) && this.coalesce == coalesce
      ensures View() == Initial(this.depth, coalesce).w
    {
      this.depth, this.coalesce := if depth == 0 then 64 else depth, coalesce;
      queue, chanClosed, pending, dropped, closed, timer := [], false, map[], 0, false, false;
    }

    function View(): Wire
      reads this
    {
      Wire(Chan(queue, depth, chanClosed), pending, dropped, closed, coalesce, timer)
    }

    method Deliver(e: Event) returns (o: Outcome)
      modifies this
      ensures (View(), o) == DeliverRegion(old(View()), e)
      ensures o == Held || o == HeldAndArmed ==> e.kind in pending && pending[e.kind] == e
      ensures o == HeldAndArmed ==> timer && !old(timer)
    {
      if closed { return Closed; }
      if Coalescable(e.kind) && coalesce {
        var waiting := e.kind in pending;
        pending := pending[e.kind := e];
        if !waiting && !timer {
          timer := true;
          return HeldAndArmed;
        }
        return Held;
      }
      return ToSend;
    }

    /** Hands over every pending event, in some order. */
    method Flush() returns (o: Outcome, batch: seq<Event>)
      modifies this
      ensures (View(), o) == FlushRegion(old(View()))
      ensures o == Closed ==> batch == []
      ensures o != Closed ==> |batch| == |old(pending)|
      ensures o != Closed ==> forall k | k in old(pending) :: old(pending)[k] in batch
    {
      batch := [];
      if closed { return Closed, batch; }
      while pending != map[]
        invariant Handing(old(pending), pending, batch)
        invariant View() == old(View()).(pending := pending)
        decreases |pending|
      {
        var k :| k in pending;
        HandOne(old(pending), pending, batch, k);
        batch := batch + [pending[k]];
        pending := pending - {k};
      }
      timer := false;
      return Flushed, batch;
    }

    method TrySend(e: Event) returns (o: Outcome)
      modifies this`queue
      ensures (View(), o) == TrySendRegion(old(View()), e)
      ensures |old(queue)| <= depth ==> |queue| <= depth
    {
      if chanClosed { return Panic; }
      if |queue| < depth {
        queue := queue + [e];
        return Queued;
      }
      return Full;
    }

    method Send(e: Event) returns (o: Outcome)
      modifies this
      ensures (View(), o) == SendRegion(old(View()), e)
      ensures |old(queue)| <= depth ==> |queue| <= depth
      ensures old(closed) == old(chanClosed) ==> o != Panic
      ensures !old(closed) && o != Panic ==> |queue| + dropped == |old(queue)| + old(dropped) + 1
    {
      if closed { return Closed; }
      o := TrySend(e);
      if o == Full { dropped := dropped + 1; }
    }

    method Attempt(e: Event) returns (o: Outcome)
      modifies this
      ensures (View(), o) == AttemptRegion(old(View()), e)
      ensures |old(queue)| <= depth ==> |queue| <= depth
      ensures old(closed) == old(chanClosed) ==> o != Panic
      ensures dropped == old(dropped)
    {
      if closed { return Closed; }
      o := TrySend(e);
    }

    method Close() returns (o: Outcome)
      modifies this
      ensures (View(), o) == CloseRegion(old(View()))
      ensures old(closed) == old(chanClosed) ==> closed && chanClosed && o != Panic
      ensures queue == old(queue) && pending == old(pending)
    {
      if closed { return Closed; }
      if chanClosed { return Panic; }
      closed := true;
      chanClosed := true;
      return Done;
    }
  }
}
