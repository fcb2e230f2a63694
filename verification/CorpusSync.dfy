/**
 Corpus sync: discoveries reported by workers are deduplicated, saved, queued, and broadcast to the
 workers that did not make them, through outboxes that count what does not fit.

 Each locked region, each save and each send is one action. The worker set is fixed; the order in
 which a broadcast visits it is arbitrary.
 */
module CorpusSync {
  import opened Words

  type Digest = nat

  const OUTBOX_DEPTH := 64

  /** One worker's queue. `drained` and `lost` are its history: what was taken out and what was dropped. */
  datatype Box<M> = Box(outbox: seq<M>, dropped: nat, drained: seq<M>, lost: seq<M>)

  // ----- The regions -----

  /** The entries not seen before, each once, in the order reported. */
  function Fresh(ds: seq<Digest>, seen: set<Digest>): seq<Digest> {
    if ds == [] then []
    else
      var f, d := Fresh(ds[..|ds| - 1], seen), ds[|ds| - 1];
      if d in seen || d in f then f else f + [d]
  }

  /** `Send` after the lookup: queued if there is room, counted if there is not. */
  function Receive<M>(b: Box<M>, m: M): Box<M> {
    if |b.outbox| < OUTBOX_DEPTH then b.(outbox := b.outbox + [m])
    else b.(dropped := b.dropped + 1, lost := b.lost + [m])
  }

  function Queued(pending: map<int, seq<Digest>>, worker: int, news: seq<Digest>): map<int, seq<Digest>> {
    pending[worker := (if worker in pending then pending[worker] else []) + news]
  }

  /** The recipients of a broadcast that visits the workers in this order. */
  function Others(order: seq<int>, except: int): seq<int> {
    if order == [] then []
    else
      var ids, id := Others(order[..|order| - 1], except), order[|order| - 1];
      if id == except then ids else ids + [id]
  }

  // ----- The world -----

  datatype Fate = Saving | Saved | Failed

  /** One report between the two locked regions of `onCorpus`. */
  datatype Flight = Flight(worker: int, news: seq<Digest>, fate: Fate)

  /** One broadcast: who is still to be sent it, and who has been. */
  datatype Cast = Cast(except: int, entries: seq<Digest>, todo: seq<int>, done: seq<int>)

  datatype Place =
    | AtFlight(f: nat, i: nat)
    | AtPending(w: int, i: nat)
    | AtTaken(k: nat, w: int, i: nat)
    | AtCast(c: nat, i: nat)

  /** `place` and `first` are history: where each seen digest is, and who reported it first. */
  datatype World = World(
    seen: set<Digest>, flights: seq<Flight>, pending: map<int, seq<Digest>>,
    taken: seq<map<int, seq<Digest>>>, casts: seq<Cast>, boxes: map<int, Box<nat>>,
    place: map<Digest, Place>, first: map<Digest, int>)

  datatype Action =
    | Report(worker: int, ds: seq<Digest>)
    | SaveEnds(f: nat, ok: bool)
    | Take
    | Spread(k: nat, from: int, order: seq<int>)
    | Command(except: int, order: seq<int>)
    | Send(c: nat)
    | Drain(w: int)

  predicate NoDup<T(==)>(s: seq<T>) {
    forall i, j | 0 <= i < j < |s| :: s[i] != s[j]
  }

  /** An order in which a broadcast may visit the workers. */
  ghost predicate Visits(order: seq<int>, workers: set<int>) {
    NoDup(order) && forall w :: w in order <==> w in workers
  }

  ghost predicate Enabled(x: World, a: Action) {
    match a
    case Report(worker, ds) => true
    case SaveEnds(f, ok) => f < |x.flights| && x.flights[f].fate == Saving
    case Take => true
    case Spread(k, from, order) => k < |x.taken| && from in x.taken[k] && Visits(order, x.boxes.Keys)
    case Command(except, order) => Visits(order, x.boxes.Keys)
    case Send(c) => c < |x.casts| && x.casts[c].todo != []
    case Drain(w) => w in x.boxes && x.boxes[w].outbox != []
  }

  function AddFresh(x: World, worker: int, news: seq<Digest>): World {
    var n := |x.flights|;
    x.(seen := x.seen + (set d | d in news),
       flights := x.flights + [Flight(worker, news, Saving)],
       place := map d | d in x.place.Keys + (set d | d in news) :: if d in x.place then x.place[d] else AtFlight(n, IndexIn(news, d)),
       first := map d | d in x.first.Keys + (set d | d in news) :: if d in x.first then x.first[d] else worker)
  }

  function IndexIn(s: seq<Digest>, d: Digest): nat {
    if s == [] || s[0] == d then 0 else 1 + IndexIn(s[1..], d)
  }

  /** Every digest found at `p` is now found at `move(p)`. */
  function Moved(place: map<Digest, Place>, move: Place -> Place): map<Digest, Place> {
    map d | d in place :: move(place[d])
  }

  function SaveMove(x: World, f: nat): Place -> Place
    requires f < |x.flights|
  {
    var w := x.flights[f].worker;
    var n := if w in x.pending then |x.pending[w]| else 0;
    (p: Place) => if p.AtFlight? && p.f == f then AtPending(w, n + p.i) else p
  }

  function TakeMove(x: World): Place -> Place {
    (p: Place) => if p.AtPending? then AtTaken(|x.taken|, p.w, p.i) else p
  }

  function SpreadMove(x: World, k: nat, from: int): Place -> Place {
    (p: Place) => if p.AtTaken? && p.k == k && p.w == from then AtCast(|x.casts|, p.i) else p
  }

  function SaveDone(x: World, f: nat): World
    requires f < |x.flights|
  {
    var fl := x.flights[f];
    x.(flights := x.flights[f := fl.(fate := Saved)],
       pending := Queued(x.pending, fl.worker, fl.news),
       place := Moved(x.place, SaveMove(x, f)))
  }

  function TakeAll(x: World): World {
    x.(taken := x.taken + [x.pending], pending := map[], place := Moved(x.place, TakeMove(x)))
  }

  function Spreads(x: World, k: nat, from: int, order: seq<int>): World
    requires k < |x.taken| && from in x.taken[k]
  {
    x.(taken := x.taken[k := x.taken[k] - {from}],
       casts := x.casts + [Cast(from, x.taken[k][from], if x.taken[k][from] == [] then [] else Others(order, from), [])],
       place := Moved(x.place, SpreadMove(x, k, from)))
  }

  function SendNext(x: World, c: nat): World
    requires c < |x.casts| && x.casts[c].todo != [] && x.casts[c].todo[0] in x.boxes
  {
    var m := x.casts[c];
    var w := m.todo[0];
    x.(casts := x.casts[c := m.(todo := m.todo[1..], done := m.done + [w])],
       boxes := x.boxes[w := Receive(x.boxes[w], c)])
  }

  function Drained(x: World, w: int): World
    requires w in x.boxes && x.boxes[w].outbox != []
  {
    var b := x.boxes[w];
    x.(boxes := x.boxes[w := b.(outbox := b.outbox[1..], drained := b.drained + [b.outbox[0]])])
  }

  ghost function Step(x: World, a: Action): World
    requires Enabled(x, a) && Spoken(x)
  {
    match a
    case Report(worker, ds) =>
      var news := Fresh(ds, x.seen);
      if news == [] then x else AddFresh(x, worker, news)
    case SaveEnds(f, ok) =>
      if ok then SaveDone(x, f) else x.(flights := x.flights[f := x.flights[f].(fate := Failed)])
    case Take => TakeAll(x)
    case Spread(k, from, order) => Spreads(x, k, from, order)
    case Command(except, order) => x.(casts := x.casts + [Cast(except, [], Others(order, except), [])])
    case Send(c) =>
      NextRecipient(x.casts[c], x.boxes.Keys);
      SendNext(x, c)
    case Drain(w) => Drained(x, w)
  }

  // ----- Where each digest is -----

  function At(x: World, p: Place): Option<Digest> {
    match p
    case AtFlight(f, i) =>
      if f < |x.flights| && x.flights[f].fate != Saved && i < |x.flights[f].news| then Some(x.flights[f].news[i]) else None
    case AtPending(w, i) =>
      if w in x.pending && i < |x.pending[w]| then Some(x.pending[w][i]) else None
    case AtTaken(k, w, i) =>
      if k < |x.taken| && w in x.taken[k] && i < |x.taken[k][w]| then Some(x.taken[k][w][i]) else None
    case AtCast(c, i) =>
      if c < |x.casts| && i < |x.casts[c].entries| then Some(x.casts[c].entries[i]) else None
  }

  function ReporterAt(x: World, p: Place): int {
    match p
    case AtFlight(f, i) => if f < |x.flights| then x.flights[f].worker else 0
    case AtPending(w, i) => w
    case AtTaken(k, w, i) => w
    case AtCast(c, i) => if c < |x.casts| then x.casts[c].except else 0
  }

  /** Each seen digest is at exactly one place, under its first reporter, and nothing else is anywhere. */
  ghost predicate Located(x: World) {
    && x.seen == x.place.Keys == x.first.Keys
    && (forall d | d in x.place :: At(x, x.place[d]) == Some(d) && ReporterAt(x, x.place[d]) == x.first[d])
    && (forall p | At(x, p).Some? :: At(x, p).value in x.place && x.place[At(x, p).value] == p)
  }

  // ----- What each worker was offered -----

  /** Each broadcast has been or will be offered to every worker but one, once. */
  ghost predicate Spoken(x: World) {
    forall c | 0 <= c < |x.casts| :: CastOk(x.casts[c], x.boxes.Keys)
  }

  ghost predicate CastOk(m: Cast, workers: set<int>) {
    && NoDup(m.done + m.todo)
    && (forall w | w in m.done + m.todo :: w in workers && w != m.except)
    && (m.entries != [] ==> forall w | w in workers && w != m.except :: w in m.done + m.todo)
  }

  /** Every broadcast offered to a worker was accepted into its outbox or counted as dropped, once. */
  ghost predicate BoxOk(casts: seq<Cast>, w: int, b: Box<nat>) {
    && |b.outbox| <= OUTBOX_DEPTH
    && b.dropped == |b.lost|
    && NoDup(b.drained + b.outbox + b.lost)
    && forall c :: c in b.drained + b.outbox + b.lost <==> 0 <= c < |casts| && w in casts[c].done
  }

  ghost predicate Counted(x: World) {
    forall w | w in x.boxes :: BoxOk(x.casts, w, x.boxes[w])
  }

  ghost predicate Good(x: World) {
    Located(x) && Spoken(x) && Counted(x)
  }

  // ----- The regions' meaning -----

  lemma {:induction false} FreshIs(ds: seq<Digest>, seen: set<Digest>)
    ensures NoDup(Fresh(ds, seen))
    ensures forall d :: d in Fresh(ds, seen) <==> d in ds && d !in seen
    decreases |ds|
  {
    if ds != [] {
      FreshIs(ds[..|ds| - 1], seen);
      assert forall d :: d in ds <==> d in ds[..|ds| - 1] || d == ds[|ds| - 1];
    }
  }

  lemma {:induction false} OthersAre(order: seq<int>, except: int)
    requires NoDup(order)
    ensures NoDup(Others(order, except))
    ensures forall w :: w in Others(order, except) <==> w in order && w != except
    decreases |order|
  {
    if order != [] {
      var front, id := order[..|order| - 1], order[|order| - 1];
      OthersAre(front, except);
      assert forall w :: w in order <==> w in front || w == id;
      assert id !in front;
    }
  }

  lemma {:induction false} IndexInIs(s: seq<Digest>, d: Digest)
    requires d in s
    ensures IndexIn(s, d) < |s| && s[IndexIn(s, d)] == d
    decreases |s|
  {
    if s[0] != d {
      IndexInIs(s[1..], d);
    }
  }

  // ----- Each action keeps the digests located -----

  /** A world whose places are those of another one, moved. */
  lemma Relocated(x: World, y: World, move: Place -> Place, back: Place -> Place)
    requires Located(x)
    requires y.place == Moved(x.place, move) && y.first == x.first && y.seen == x.seen
    requires forall p | At(x, p).Some? :: At(y, move(p)) == At(x, p) && ReporterAt(y, move(p)) == ReporterAt(x, p)
    requires forall q | At(y, q).Some? :: At(x, back(q)) == At(y, q) && move(back(q)) == q
    ensures Located(y)
  {
  }

  /** A world whose digests are those of another one, and some new ones at new places. */
  lemma Extended(x: World, y: World, n: nat, worker: int, news: seq<Digest>)
    requires Located(x) && y.seen == y.place.Keys == y.first.Keys
    requires forall d :: d in y.place <==> d in x.place || d in news
    requires forall d | d in x.place :: y.place[d] == x.place[d] && y.first[d] == x.first[d]
    requires forall i | 0 <= i < |news| ::
      news[i] !in x.place && y.place[news[i]] == AtFlight(n, i) && y.first[news[i]] == worker
    requires forall p :: At(y, p) == if p.AtFlight? && p.f == n && p.i < |news| then Some(news[p.i]) else At(x, p)
    requires forall i :: ReporterAt(y, AtFlight(n, i)) == worker && At(x, AtFlight(n, i)) == None
    requires forall p | At(x, p).Some? :: ReporterAt(y, p) == ReporterAt(x, p)
    ensures Located(y)
  {
  }

  lemma ReportLocated(x: World, worker: int, news: seq<Digest>)
    requires Located(x) && NoDup(news) && forall d | d in news :: d !in x.seen
    ensures Located(AddFresh(x, worker, news))
  {
    var y := AddFresh(x, worker, news);
    forall i | 0 <= i < |news|
      ensures news[i] !in x.place && y.place[news[i]] == AtFlight(|x.flights|, i) && y.first[news[i]] == worker
    {
      IndexInIs(news, news[i]);
    }
    forall p: Place
      ensures At(y, p) == if p.AtFlight? && p.f == |x.flights| && p.i < |news| then Some(news[p.i]) else At(x, p)
      ensures At(x, p).Some? ==> ReporterAt(y, p) == ReporterAt(x, p)
    {
      ReportAt(x, worker, news, p);
    }
    Extended(x, y, |x.flights|, worker, news);
  }

  lemma ReportAt(x: World, worker: int, news: seq<Digest>, p: Place)
    ensures var y := AddFresh(x, worker, news);
      && At(y, p) == (if p.AtFlight? && p.f == |x.flights| && p.i < |news| then Some(news[p.i]) else At(x, p))
      && (At(x, p).Some? ==> ReporterAt(y, p) == ReporterAt(x, p))
  {
  }

  function SaveBack(x: World, f: nat): Place -> Place
    requires f < |x.flights|
  {
    var w := x.flights[f].worker;
    var n := if w in x.pending then |x.pending[w]| else 0;
    (q: Place) => if q.AtPending? && q.w == w && q.i >= n then AtFlight(f, q.i - n) else q
  }

  lemma SaveMoves(x: World, f: nat, p: Place)
    requires f < |x.flights| && x.flights[f].fate == Saving && At(x, p).Some?
    ensures var y, q := SaveDone(x, f), SaveMove(x, f)(p); At(y, q) == At(x, p) && ReporterAt(y, q) == ReporterAt(x, p)
  {
    var y := SaveDone(x, f);
    assert y.flights[f].worker == x.flights[f].worker;
  }

  lemma SaveBacks(x: World, f: nat, q: Place)
    requires f < |x.flights| && x.flights[f].fate == Saving && At(SaveDone(x, f), q).Some?
    ensures var p := SaveBack(x, f)(q); At(x, p) == At(SaveDone(x, f), q) && SaveMove(x, f)(p) == q
  {
  }

  lemma SaveLocated(x: World, f: nat)
    requires Located(x) && f < |x.flights| && x.flights[f].fate == Saving
    ensures Located(SaveDone(x, f))
  {
    var y, move, back := SaveDone(x, f), SaveMove(x, f), SaveBack(x, f);
    forall p | At(x, p).Some?
      ensures At(y, move(p)) == At(x, p) && ReporterAt(y, move(p)) == ReporterAt(x, p)
    {
      SaveMoves(x, f, p);
    }
    forall q | At(y, q).Some?
      ensures At(x, back(q)) == At(y, q) && move(back(q)) == q
    {
      SaveBacks(x, f, q);
    }
    Relocated(x, y, move, back);
  }

  lemma FailedLocated(x: World, f: nat)
    requires Located(x) && f < |x.flights| && x.flights[f].fate == Saving
    ensures Located(x.(flights := x.flights[f := x.flights[f].(fate := Failed)]))
  {
    var y := x.(flights := x.flights[f := x.flights[f].(fate := Failed)]);
    SamePlaces(x, y);
  }

  lemma CommandLocated(x: World, m: Cast)
    requires Located(x) && m.entries == []
    ensures Located(x.(casts := x.casts + [m]))
  {
    SamePlaces(x, x.(casts := x.casts + [m]));
  }

  lemma SendLocated(x: World, c: nat)
    requires Located(x) && c < |x.casts| && x.casts[c].todo != [] && x.casts[c].todo[0] in x.boxes
    ensures Located(SendNext(x, c))
  {
    SamePlaces(x, SendNext(x, c));
  }

  lemma DrainLocated(x: World, w: int)
    requires Located(x) && w in x.boxes && x.boxes[w].outbox != []
    ensures Located(Drained(x, w))
  {
    SamePlaces(x, Drained(x, w));
  }

  lemma SamePlaces(x: World, y: World)
    requires Located(x)
    requires y.place == x.place && y.first == x.first && y.seen == x.seen
    requires forall p :: At(y, p) == At(x, p) && (At(x, p).Some? ==> ReporterAt(y, p) == ReporterAt(x, p))
    ensures Located(y)
  {
  }

  function TakeBack(x: World): Place -> Place {
    (q: Place) => if q.AtTaken? && q.k == |x.taken| then AtPending(q.w, q.i) else q
  }

  lemma TakeMoves(x: World, p: Place)
    requires At(x, p).Some?
    ensures var y, q := TakeAll(x), TakeMove(x)(p); At(y, q) == At(x, p) && ReporterAt(y, q) == ReporterAt(x, p)
  {
  }

  lemma TakeBacks(x: World, q: Place)
    requires At(TakeAll(x), q).Some?
    ensures var p := TakeBack(x)(q); At(x, p) == At(TakeAll(x), q) && TakeMove(x)(p) == q
  {
  }

  lemma TakeLocated(x: World)
    requires Located(x)
    ensures Located(TakeAll(x))
  {
    var y, move, back := TakeAll(x), TakeMove(x), TakeBack(x);
    forall p | At(x, p).Some?
      ensures At(y, move(p)) == At(x, p) && ReporterAt(y, move(p)) == ReporterAt(x, p)
    {
      TakeMoves(x, p);
    }
    forall q | At(y, q).Some?
      ensures At(x, back(q)) == At(y, q) && move(back(q)) == q
    {
      TakeBacks(x, q);
    }
    Relocated(x, y, move, back);
  }

  function SpreadBack(x: World, k: nat, from: int): Place -> Place {
    (q: Place) => if q.AtCast? && q.c == |x.casts| then AtTaken(k, from, q.i) else q
  }

  lemma SpreadMoves(x: World, k: nat, from: int, order: seq<int>, p: Place)
    requires k < |x.taken| && from in x.taken[k] && At(x, p).Some?
    ensures var y, q := Spreads(x, k, from, order), SpreadMove(x, k, from)(p);
      At(y, q) == At(x, p) && ReporterAt(y, q) == ReporterAt(x, p)
  {
  }

  lemma SpreadBacks(x: World, k: nat, from: int, order: seq<int>, q: Place)
    requires k < |x.taken| && from in x.taken[k] && At(Spreads(x, k, from, order), q).Some?
    ensures var p := SpreadBack(x, k, from)(q); At(x, p) == At(Spreads(x, k, from, order), q) && SpreadMove(x, k, from)(p) == q
  {
  }

  lemma SpreadLocated(x: World, k: nat, from: int, order: seq<int>)
    requires Located(x) && k < |x.taken| && from in x.taken[k]
    ensures Located(Spreads(x, k, from, order))
  {
    var y, move, back := Spreads(x, k, from, order), SpreadMove(x, k, from), SpreadBack(x, k, from);
    forall p | At(x, p).Some?
      ensures At(y, move(p)) == At(x, p) && ReporterAt(y, move(p)) == ReporterAt(x, p)
    {
      SpreadMoves(x, k, from, order, p);
    }
    forall q | At(y, q).Some?
      ensures At(x, back(q)) == At(y, q) && move(back(q)) == q
    {
      SpreadBacks(x, k, from, order, q);
    }
    Relocated(x, y, move, back);
  }

  // ----- Each action keeps the offers counted -----

  lemma CastStarts(x: World, m: Cast)
    requires Spoken(x) && Counted(x) && CastOk(m, x.boxes.Keys) && m.done == []
    ensures var y := x.(casts := x.casts + [m]); Spoken(y) && Counted(y)
  {
    var y := x.(casts := x.casts + [m]);
    assert forall c | 0 <= c < |x.casts| :: y.casts[c] == x.casts[c];
    forall w | w in y.boxes
      ensures BoxOk(y.casts, w, y.boxes[w])
    {
      assert BoxOk(x.casts, w, x.boxes[w]);
    }
  }

  lemma Recipients(order: seq<int>, except: int, entries: seq<Digest>, workers: set<int>)
    requires Visits(order, workers)
    ensures CastOk(Cast(except, entries, Others(order, except), []), workers)
  {
    OthersAre(order, except);
    assert [] + Others(order, except) == Others(order, except);
  }

  lemma NextRecipient(m: Cast, workers: set<int>)
    requires CastOk(m, workers) && m.todo != []
    ensures m.todo[0] in workers && m.todo[0] !in m.done
    ensures CastOk(m.(todo := m.todo[1..], done := m.done + [m.todo[0]]), workers)
  {
    assert m.done + m.todo == m.done + [m.todo[0]] + m.todo[1..];
    var all := m.done + m.todo;
    assert all[|m.done|] == m.todo[0];
    assert forall i | 0 <= i < |m.done| :: m.done[i] == all[i];
  }

  lemma ReceiveOk(casts: seq<Cast>, casts': seq<Cast>, w: int, b: Box<nat>, c: nat)
    requires BoxOk(casts, w, b) && c < |casts| == |casts'| && w !in casts[c].done && w in casts'[c].done
    requires forall e | 0 <= e < |casts| && e != c :: casts'[e] == casts[e]
    ensures BoxOk(casts', w, Receive(b, c))
  {
    var all := b.drained + b.outbox + b.lost;
    assert c !in all;
    if |b.outbox| < OUTBOX_DEPTH {
      Inserted(b.drained + b.outbox, b.lost, c);
      assert b.drained + (b.outbox + [c]) == b.drained + b.outbox + [c];
    } else {
      Inserted(all, [], c);
      assert b.drained + b.outbox + (b.lost + [c]) == all + [c] + [];
    }
  }

  lemma Inserted(s: seq<nat>, t: seq<nat>, c: nat)
    requires NoDup(s + t) && c !in s + t
    ensures NoDup(s + [c] + t)
    ensures forall e :: e in s + [c] + t <==> e in s + t || e == c
  {
    var u, v := s + t, s + [c] + t;
    assert forall i | 0 <= i < |v| :: v[i] == if i < |s| then u[i] else if i == |s| then c else u[i - 1];
    assert v[|s|] == c;
    forall i, j | 0 <= i < j < |v|
      ensures v[i] != v[j]
    {
      var i', j' := if i <= |s| then i else i - 1, if j <= |s| then j else j - 1;
      if i == |s| {
        assert v[j] == u[j'];
      } else if j == |s| {
        assert v[i] == u[i'];
      } else {
        assert v[i] == u[i'] && v[j] == u[j'];
      }
    }
    forall e | e in u
      ensures e in v
    {
    }
  }

  lemma SendCounted(x: World, c: nat)
    requires Spoken(x) && Counted(x) && c < |x.casts| && x.casts[c].todo != [] && x.casts[c].todo[0] in x.boxes
    ensures var y := SendNext(x, c); Spoken(y) && Counted(y)
  {
    var y, to := SendNext(x, c), x.casts[c].todo[0];
    NextRecipient(x.casts[c], x.boxes.Keys);
    assert y.boxes.Keys == x.boxes.Keys;
    forall w | w in y.boxes
      ensures BoxOk(y.casts, w, y.boxes[w])
    {
      assert BoxOk(x.casts, w, x.boxes[w]);
      if w == to {
        assert y.casts[c].done[|x.casts[c].done|] == to;
        ReceiveOk(x.casts, y.casts, w, x.boxes[w], c);
      } else {
        assert w in y.casts[c].done <==> w in x.casts[c].done;
      }
    }
  }

  lemma DrainCounted(x: World, w: int)
    requires Spoken(x) && Counted(x) && w in x.boxes && x.boxes[w].outbox != []
    ensures var y := Drained(x, w); Spoken(y) && Counted(y)
  {
    var y, b := Drained(x, w), x.boxes[w];
    assert y.boxes.Keys == x.boxes.Keys;
    assert b.drained + [b.outbox[0]] + b.outbox[1..] == b.drained + b.outbox;
    forall v | v in y.boxes
      ensures BoxOk(y.casts, v, y.boxes[v])
    {
      assert BoxOk(x.casts, v, x.boxes[v]);
    }
  }

  // ----- Every interleaving -----

  lemma StepLocated(x: World, a: Action)
    requires Good(x) && Enabled(x, a)
    ensures Located(Step(x, a))
  {
    match a
    case Report(worker, ds) =>
      FreshIs(ds, x.seen);
      if Fresh(ds, x.seen) != [] {
        ReportLocated(x, worker, Fresh(ds, x.seen));
      }
    case SaveEnds(f, ok) => if ok { SaveLocated(x, f); } else { FailedLocated(x, f); }
    case Take => TakeLocated(x);
    case Spread(k, from, order) => SpreadLocated(x, k, from, order);
    case Command(except, order) => CommandLocated(x, Cast(except, [], Others(order, except), []));
    case Send(c) =>
      NextRecipient(x.casts[c], x.boxes.Keys);
      SendLocated(x, c);
    case Drain(w) => DrainLocated(x, w);
  }

  lemma StepCounted(x: World, a: Action)
    requires Good(x) && Enabled(x, a)
    ensures Spoken(Step(x, a)) && Counted(Step(x, a)) && Step(x, a).boxes.Keys == x.boxes.Keys
  {
    match a
    case Report(worker, ds) =>
    case SaveEnds(f, ok) =>
    case Take =>
    case Spread(k, from, order) =>
      var m := Step(x, a).casts[|x.casts|];
      if m.entries != [] {
        Recipients(order, from, m.entries, x.boxes.Keys);
      }
      CastStarts(x, m);
    case Command(except, order) =>
      Recipients(order, except, [], x.boxes.Keys);
      CastStarts(x, Cast(except, [], Others(order, except), []));
    case Send(c) =>
      NextRecipient(x.casts[c], x.boxes.Keys);
      SendCounted(x, c);
    case Drain(w) => DrainCounted(x, w);
  }

  ghost function Initial(workers: set<int>): World {
    World({}, [], map[], [], [], map w | w in workers :: Box([], 0, [], []), map[], map[])
  }

  /** A run: actions in any order, those not possible where they come being skipped. */
  ghost function Run(x: World, actions: seq<Action>): (y: World)
    requires Good(x)
    ensures Good(y) && y.boxes.Keys == x.boxes.Keys
    decreases |actions|
  {
    if actions == [] then x
    else if Enabled(x, actions[0]) then
      StepLocated(x, actions[0]);
      StepCounted(x, actions[0]);
      Run(Step(x, actions[0]), actions[1..])
    else Run(x, actions[1..])
  }

  lemma InitialGood(workers: set<int>)
    ensures Good(Initial(workers))
  {
  }

  /** Safety over every run. */
  lemma EveryInterleaving(workers: set<int>, actions: seq<Action>)
    ensures Good(Initial(workers))
    ensures var x := Run(Initial(workers), actions);
      && Good(x) && x.boxes.Keys == workers
      && forall p, q | At(x, p).Some? && At(x, p) == At(x, q) :: p == q
  {
    InitialGood(workers);
  }

  /** The worker `w` was offered broadcast `c` exactly once, and it was queued or counted as dropped. */
  ghost predicate OfferedOnce(x: World, c: nat, w: int)
    requires c < |x.casts| && w in x.boxes
  {
    var b := x.boxes[w];
    && (exists j | 0 <= j < |x.casts[c].done| :: x.casts[c].done[j] == w)
    && NoDup(x.casts[c].done)
    && (c in b.drained + b.outbox <==> c !in b.lost)
    && NoDup(b.drained + b.outbox + b.lost)
  }

  /** A digest whose broadcast is over was offered once to every worker but its first reporter, and
      nothing carrying it was or will be offered to that one. */
  lemma OfferedToTheOthers(x: World, c: nat, i: nat, w: int)
    requires Good(x) && c < |x.casts| && i < |x.casts[c].entries| && w in x.boxes
    ensures var d := x.casts[c].entries[i];
      && d in x.first
      && (forall e | 0 <= e < |x.casts| && d in x.casts[e].entries :: e == c)
      && (w == x.first[d] ==> w !in x.casts[c].done + x.casts[c].todo)
      && (w != x.first[d] && x.casts[c].todo == [] ==> OfferedOnce(x, c, w))
  {
    var m, d := x.casts[c], x.casts[c].entries[i];
    assert At(x, AtCast(c, i)) == Some(d);
    forall e | 0 <= e < |x.casts| && d in x.casts[e].entries
      ensures e == c
    {
      var j :| 0 <= j < |x.casts[e].entries| && x.casts[e].entries[j] == d;
      assert At(x, AtCast(e, j)) == Some(d);
    }
    assert CastOk(m, x.boxes.Keys) && BoxOk(x.casts, w, x.boxes[w]);
    if w != x.first[d] && m.todo == [] {
      assert m.done + m.todo == m.done;
      assert w in m.done;
      Apart(x.boxes[w].drained + x.boxes[w].outbox, x.boxes[w].lost, c);
    }
  }

  lemma Apart(s: seq<nat>, t: seq<nat>, c: nat)
    requires NoDup(s + t) && c in s + t
    ensures c in s <==> c !in t
  {
    forall i, j | 0 <= i < |s| && 0 <= j < |t|
      ensures s[i] != t[j]
    {
      assert (s + t)[i] != (s + t)[|s| + j];
    }
  }

  // ----- Counting -----

  function OfferCount(casts: seq<Cast>, w: int): nat {
    if casts == [] then 0
    else OfferCount(casts[..|casts| - 1], w) + if w in casts[|casts| - 1].done then 1 else 0
  }

  function Elems(s: seq<nat>): set<nat> {
    set e | e in s
  }

  lemma {:induction false} CardOfNoDup(s: seq<nat>)
    requires NoDup(s)
    ensures |Elems(s)| == |s|
    decreases |s|
  {
    if s != [] {
      var t, l := s[..|s| - 1], s[|s| - 1];
      CardOfNoDup(t);
      assert s == t + [l] && forall i | 0 <= i < |t| :: s[i] != s[|t|];
      assert l !in t;
      assert Elems(s) == Elems(t) + {l};
    }
  }

  lemma {:induction false} CardOfOffers(casts: seq<Cast>, w: int)
    ensures |set c | 0 <= c < |casts| && w in casts[c].done| == OfferCount(casts, w)
    decreases |casts|
  {
    if casts != [] {
      var front, n := casts[..|casts| - 1], |casts| - 1;
      CardOfOffers(front, w);
      var s := set c | 0 <= c < |front| && w in front[c].done;
      assert (set c | 0 <= c < |casts| && w in casts[c].done) == if w in casts[n].done then s + {n} else s;
    }
  }

  /** Conservation: what was offered to a worker is what it was given, what waits, and what was counted. */
  lemma OfferedIsAcceptedPlusDropped(x: World, w: int)
    requires Good(x) && w in x.boxes
    ensures var b := x.boxes[w]; OfferCount(x.casts, w) == |b.drained| + |b.outbox| + b.dropped
  {
    var b := x.boxes[w];
    var all := b.drained + b.outbox + b.lost;
    assert BoxOk(x.casts, w, b);
    CardOfNoDup(all);
    CardOfOffers(x.casts, w);
    assert Elems(all) == (set c | 0 <= c < |x.casts| && w in x.casts[c].done);
  }

  // ----- What becomes of a digest -----

  predicate Stuck(x: World, d: Digest) {
    && d in x.place && x.place[d].AtFlight?
    && x.place[d].f < |x.flights| && x.flights[x.place[d].f].fate == Failed
  }

  lemma StuckStep(x: World, a: Action, d: Digest)
    requires Good(x) && Enabled(x, a) && Stuck(x, d)
    ensures Stuck(Step(x, a), d)
  {
  }

  /** After a failed save the digest stays seen, so no later report of it is ever queued or offered. */
  lemma {:induction false} FailedSaveIsFinal(x: World, actions: seq<Action>, d: Digest)
    requires Good(x) && Stuck(x, d)
    ensures var y := Run(x, actions);
      && Stuck(y, d) && d in y.seen
      && forall c | 0 <= c < |y.casts| :: d !in y.casts[c].entries
    decreases |actions|
  {
    if actions == [] {
      forall c | 0 <= c < |x.casts|
        ensures d !in x.casts[c].entries
      {
        forall i | 0 <= i < |x.casts[c].entries|
          ensures x.casts[c].entries[i] != d
        {
          assert At(x, AtCast(c, i)).Some?;
        }
      }
    } else if Enabled(x, actions[0]) {
      StepLocated(x, actions[0]);
      StepCounted(x, actions[0]);
      StuckStep(x, actions[0], d);
      FailedSaveIsFinal(Step(x, actions[0]), actions[1..], d);
    } else {
      FailedSaveIsFinal(x, actions[1..], d);
    }
  }

  /** Nothing left to save, to flush or to send. */
  predicate Quiet(x: World) {
    && (forall f | 0 <= f < |x.flights| :: x.flights[f].fate != Saving)
    && x.pending == map[]
    && (forall k | 0 <= k < |x.taken| :: x.taken[k] == map[])
    && (forall c | 0 <= c < |x.casts| :: x.casts[c].todo == [])
  }

  /** Once all is quiet, every digest ever reported either failed to save or has been offered to all others. */
  lemma NothingIsForgotten(x: World, d: Digest, w: int)
    requires Good(x) && Quiet(x) && d in x.seen && w in x.boxes && w != x.first[d]
    ensures Stuck(x, d) || exists c | 0 <= c < |x.casts| :: d in x.casts[c].entries && OfferedOnce(x, c, w)
  {
    var p := x.place[d];
    assert At(x, p) == Some(d);
    if p.AtCast? {
      OfferedToTheOthers(x, p.c, p.i, w);
    }
  }

  // ----- Quiet is always within reach -----

  function Total(ns: seq<nat>): nat {
    if ns == [] then 0 else Total(ns[..|ns| - 1]) + ns[|ns| - 1]
  }

  lemma {:induction false} TotalUpdated(ns: seq<nat>, k: nat, n: nat)
    requires k < |ns|
    ensures Total(ns[k := n]) + ns[k] == Total(ns) + n
    decreases |ns|
  {
    var front := ns[..|ns| - 1];
    if k == |ns| - 1 {
      assert ns[k := n][..k] == front;
    } else {
      TotalUpdated(front, k, n);
      assert ns[k := n][..|ns| - 1] == front[k := n];
    }
  }

  function Saves(flights: seq<Flight>): seq<nat> {
    seq(|flights|, i requires 0 <= i < |flights| => if flights[i].fate == Saving then 1 else 0)
  }

  function Parts(taken: seq<map<int, seq<Digest>>>): seq<nat> {
    seq(|taken|, i requires 0 <= i < |taken| => |taken[i]|)
  }

  function Sends(casts: seq<Cast>): seq<nat> {
    seq(|casts|, i requires 0 <= i < |casts| => |casts[i].todo|)
  }

  /** What is left to do: saves, parts of the queue, parts of what was taken, sends. */
  datatype Work = Work(saves: nat, queued: nat, parts: nat, sends: nat)

  function Left(x: World): Work {
    Work(Total(Saves(x.flights)), |x.pending|, Total(Parts(x.taken)), Total(Sends(x.casts)))
  }

  predicate Less(v: Work, w: Work) {
    if v.saves != w.saves then v.saves < w.saves
    else if v.queued != w.queued then v.queued < w.queued
    else if v.parts != w.parts then v.parts < w.parts
    else v.sends < w.sends
  }

  lemma SaveIsWork(x: World, f: nat, ok: bool)
    requires Good(x) && Enabled(x, SaveEnds(f, ok))
    ensures Less(Left(Step(x, SaveEnds(f, ok))), Left(x))
  {
    var y := Step(x, SaveEnds(f, ok));
    assert Saves(y.flights) == Saves(x.flights)[f := 0];
    TotalUpdated(Saves(x.flights), f, 0);
  }

  lemma TakeIsWork(x: World)
    requires Good(x) && x.pending != map[]
    ensures Less(Left(Step(x, Take)), Left(x))
  {
    assert x.pending.Keys != {};
  }

  lemma SpreadIsWork(x: World, k: nat, from: int, order: seq<int>)
    requires Good(x) && Enabled(x, Spread(k, from, order))
    ensures Less(Left(Step(x, Spread(k, from, order))), Left(x))
  {
    var y := Step(x, Spread(k, from, order));
    OneKeyLess(x.taken[k], from);
    assert Parts(y.taken) == Parts(x.taken)[k := |x.taken[k]| - 1];
    TotalUpdated(Parts(x.taken), k, |x.taken[k]| - 1);
  }

  lemma OneKeyLess(m: map<int, seq<Digest>>, k: int)
    requires k in m
    ensures |m - {k}| == |m| - 1
  {
    assert (m - {k}).Keys == m.Keys - {k};
    assert |(m - {k}).Keys| == |m.Keys| - 1;
  }

  lemma SendIsWork(x: World, c: nat)
    requires Good(x) && Enabled(x, Send(c))
    ensures Less(Left(Step(x, Send(c))), Left(x))
  {
    NextRecipient(x.casts[c], x.boxes.Keys);
    var y := Step(x, Send(c));
    assert Sends(y.casts) == Sends(x.casts)[c := |x.casts[c].todo| - 1];
    TotalUpdated(Sends(x.casts), c, |x.casts[c].todo| - 1);
  }

  lemma {:induction false} SomeOrder(workers: set<int>) returns (order: seq<int>)
    ensures Visits(order, workers)
    decreases workers
  {
    order := [];
    if w :| w in workers {
      var front := SomeOrder(workers - {w});
      order := front + [w];
    }
  }

  /** What the campaign does by itself; `saves` is what becomes of each report's save. */
  predicate Ongoing(a: Action, saves: nat -> bool) {
    a.Take? || a.Spread? || a.Send? || (a.SaveEnds? && a.ok == saves(a.f))
  }

  /** While there is anything left to do, some of it can be done. */
  lemma SomethingToDo(x: World, saves: nat -> bool) returns (a: Action)
    requires Good(x) && !Quiet(x)
    ensures Ongoing(a, saves) && Enabled(x, a) && Less(Left(Step(x, a)), Left(x))
  {
    if f: nat :| f < |x.flights| && x.flights[f].fate == Saving {
      a := SaveEnds(f, saves(f));
      SaveIsWork(x, f, saves(f));
    } else if x.pending != map[] {
      a := Take;
      TakeIsWork(x);
    } else if k: nat, from: int :| k < |x.taken| && from in x.taken[k] {
      var order := SomeOrder(x.boxes.Keys);
      a := Spread(k, from, order);
      SpreadIsWork(x, k, from, order);
    } else {
      forall k: nat | k < |x.taken|
        ensures x.taken[k] == map[]
      {
        assert forall w: int :: w !in x.taken[k];
      }
      var c: nat :| c < |x.casts| && x.casts[c].todo != [];
      a := Send(c);
      SendIsWork(x, c);
    }
  }

  /** From any state of a run, and whatever becomes of the saves, finitely many steps that the campaign takes
      by itself leave nothing to save, to flush or to send. */
  lemma {:induction false} QuietIsReached(x: World, saves: nat -> bool) returns (actions: seq<Action>)
    requires Good(x)
    ensures (forall a | a in actions :: Ongoing(a, saves)) && Quiet(Run(x, actions))
    decreases Left(x).saves, Left(x).queued, Left(x).parts, Left(x).sends
  {
    actions := [];
    if !Quiet(x) {
      var a := SomethingToDo(x, saves);
      StepLocated(x, a);
      StepCounted(x, a);
      var rest := QuietIsReached(Step(x, a), saves);
      actions := [a] + rest;
      assert actions[1..] == rest;
    }
  }

  // ----- The campaign and its supervisor -----

  datatype Message = Message(from: int, entries: seq<Digest>)

  class Supervisor {
    var workers: map<int, Box<Message>>

    constructor (ids: set<int>)
      ensures workers.Keys == ids && forall id | id in ids :: workers[id] == Box([], 0, [], [])
    {
      workers := map id | id in ids :: Box([], 0, [], []);
    }

    /** Whether there is such a worker. */
    method Send(id: int, m: Message) returns (known: bool)
      modifies this
      ensures known == (id in old(workers))
      ensures workers == if known then old(workers)[id := Receive(old(workers)[id], m)] else old(workers)
    {
      if id !in workers {
        return false;
      }
      var w := workers[id];
      if |w.outbox| < OUTBOX_DEPTH {
        workers := workers[id := w.(outbox := w.outbox + [m])];
      } else {
        workers := workers[id := w.(dropped := w.dropped + 1, lost := w.lost + [m])];
      }
      return true;
    }

    /** `order` is the order in which the worker table happens to be visited. */
    method Broadcast(m: Message, except: int, order: seq<int>)
      requires Visits(order, workers.Keys)
      modifies this
      ensures workers.Keys == old(workers).Keys
      ensures forall id | id in workers ::
        workers[id] == if id == except then old(workers)[id] else Receive(old(workers)[id], m)
    {
      var ids := [];
      for i := 0 to |order|
        invariant ids == Others(order[..i], except)
      {
        assert order[..i + 1][..i] == order[..i];
        if order[i] != except {
          ids := ids + [order[i]];
        }
      }
      assert order[..|order|] == order;
      OthersAre(order, except);
      for i := 0 to |ids|
        invariant workers.Keys == old(workers).Keys
        invariant forall id | id in workers ::
          workers[id] == if id in ids[..i] then Receive(old(workers)[id], m) else old(workers)[id]
      {
        assert ids[i] in ids && ids[i] !in ids[..i];
        assert forall id :: id in ids[..i + 1] <==> id in ids[..i] || id == ids[i];
        var _ := Send(ids[i], m);
      }
      assert ids[..|ids|] == ids;
    }
  }

  /** A worker's box after one flush that visited the reporters in the order `froms`. */
  function HeardAll(b: Box<Message>, id: int, pending: map<int, seq<Digest>>, froms: seq<int>): Box<Message>
    requires forall f | f in froms :: f in pending
  {
    if froms == [] then b
    else
      var f, before := froms[|froms| - 1], HeardAll(b, id, pending, froms[..|froms| - 1]);
      if id == f then before else Receive(before, Message(f, pending[f]))
  }

  class Campaign {
    var seen: set<Digest>
    var pendingSync: map<int, seq<Digest>>
    const sup: Supervisor

    constructor (sup: Supervisor)
      ensures seen == {} && pendingSync == map[] && this.sup == sup
    {
      this.sup := sup;
      seen, pendingSync := {}, map[];
    }

    /** The first locked region of `onCorpus`. */
    method Admit(entries: seq<Digest>) returns (news: seq<Digest>)
      modifies this`seen
      ensures news == Fresh(entries, old(seen)) && seen == old(seen) + (set d | d in entries)
    {
      news := [];
      for i := 0 to |entries|
        invariant news == Fresh(entries[..i], old(seen))
        invariant seen == old(seen) + (set d | d in entries[..i])
      {
        FreshIs(entries[..i], old(seen));
        assert entries[..i + 1][..i] == entries[..i];
        assert forall d :: d in entries[..i + 1] <==> d in entries[..i] || d == entries[i];
        if entries[i] !in seen {
          seen := seen + {entries[i]};
          news := news + [entries[i]];
        }
      }
      assert entries[..|entries|] == entries;
    }

    /** `onCorpus`, with the outcome of the save. */
    method OnCorpus(worker: int, entries: seq<Digest>, saves: bool)
      modifies this
      ensures seen == old(seen) + (set d | d in entries)
      ensures var news := Fresh(entries, old(seen));
        pendingSync == if news != [] && saves then Queued(old(pendingSync), worker, news) else old(pendingSync)
    {
      if |entries| == 0 {
        return;
      }
      var news := Admit(entries);
      if |news| == 0 || !saves {
        return;
      }
      pendingSync := pendingSync[worker := (if worker in pendingSync then pendingSync[worker] else []) + news];
    }

    /** `order` is how the pending map happens to be visited, and `visits` the worker table each time. */
    method FlushSync(order: seq<int>, visits: int -> seq<int>) returns (ghost froms: seq<int>)
      requires Visits(order, pendingSync.Keys) && forall f :: Visits(visits(f), sup.workers.Keys)
      modifies this`pendingSync, sup
      ensures pendingSync == map[]
      ensures NoDup(froms) && forall f :: f in froms <==> f in old(pendingSync) && old(pendingSync)[f] != []
      ensures sup.workers.Keys == old(sup.workers).Keys
      ensures forall id | id in sup.workers ::
        sup.workers[id] == HeardAll(old(sup.workers)[id], id, old(pendingSync), froms)
    {
      var pending := pendingSync;
      pendingSync := map[];
      froms := [];
      for i := 0 to |order|
        invariant pendingSync == map[]
        invariant NoDup(froms) && forall f :: f in froms <==> f in order[..i] && pending[f] != []
        invariant sup.workers.Keys == old(sup.workers).Keys
        invariant forall id | id in sup.workers :: sup.workers[id] == HeardAll(old(sup.workers)[id], id, pending, froms)
      {
        var from := order[i];
        assert from in order && from !in order[..i];
        assert forall f :: f in order[..i + 1] <==> f in order[..i] || f == from;
        if pending[from] != [] {
          sup.Broadcast(Message(from, pending[from]), from, visits(from));
          assert (froms + [from])[..|froms|] == froms;
          froms := froms + [from];
        }
      }
      assert order[..|order|] == order;
    }
  }
}
