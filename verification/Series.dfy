/**
 The metrics series: four levels of ever coarser history, against what each level should hold.

 A time is two readings in nanoseconds: the one that times are compared by, and the wall clock's; the
 zero time is `None`. The clock is a parameter, and both readings may go backwards between any two adds.
 */
module Series {
  import opened Words

  const LOWEST := -0x8000_0000_0000_0000

  type Instant = t: int | LOWEST <= t < -LOWEST

  datatype Time = Time(at: Instant, wall: Instant)

  /** A snapshot: its time and the numbers it carries, which nothing here looks into. */
  datatype Snapshot = Snapshot(at: Instant, wall: Instant, numbers: int)

  const LEVELS := 4
  const PER_LEVEL := 120
  const SECOND := 1_000_000_000

  type Level = l: nat | l < LEVELS

  function Interval(l: Level): (d: int)
    ensures d >= SECOND
  {
    if l == 0 then SECOND else if l == 1 then 15 * SECOND else if l == 2 then 300 * SECOND else 3600 * SECOND
  }

  // ----- What the levels should hold -----

  function Last(s: seq<Snapshot>): Option<Instant> {
    if s == [] then None else Some(s[|s| - 1].at)
  }

  /** Whether a point far enough after the last one is due. */
  predicate DueAfter(last: Option<Instant>, at: Instant, d: int) {
    last.Some? ==> at - last.value >= d
  }

  /** Greedy thinning: a snapshot stays when it is at least `d` after the one that last stayed. */
  function Thin(h: seq<Snapshot>, d: int): seq<Snapshot> {
    if h == [] then []
    else
      var kept, s := Thin(h[..|h| - 1], d), h[|h| - 1];
      if DueAfter(Last(kept), s.at, d) then kept + [s] else kept
  }

  /** Everything a level ever accepts: it thins what the finer level accepts. */
  function Kept(h: seq<Snapshot>, l: Level): seq<Snapshot> {
    Thin(if l == 0 then h else Kept(h, l - 1), Interval(l))
  }

  function Newest(h: seq<Snapshot>): int {
    if h == [] then LOWEST
    else
      var n, at := Newest(h[..|h| - 1]), h[|h| - 1].at;
      if at > n then at else n
  }

  function Cutoff(retention: int, now: int): int {
    if retention <= 0 then LOWEST else now - retention
  }

  function Stale(s: seq<Snapshot>, cutoff: int): (n: nat)
    ensures n <= |s|
    ensures forall i | 0 <= i < n :: s[i].at < cutoff
    ensures n < |s| ==> s[n].at >= cutoff
  {
    if s != [] && s[0].at < cutoff then 1 + Stale(s[1..], cutoff) else 0
  }

  function Expired(s: seq<Snapshot>, cutoff: int): seq<Snapshot> {
    s[Stale(s, cutoff)..]
  }

  function Trimmed(s: seq<Snapshot>): seq<Snapshot> {
    if |s| > PER_LEVEL then s[|s| - PER_LEVEL..] else s
  }

  /** The most recent of what a level accepted, as far back as its size and the retention allow. */
  function Window(s: seq<Snapshot>, cutoff: int): seq<Snapshot> {
    Trimmed(Expired(s, cutoff))
  }

  /** Increasing by at least `d` from each point to the next. */
  predicate Spaced(s: seq<Snapshot>, d: int) {
    forall i, j | 0 <= i < j < |s| :: s[j].at - s[i].at >= d
  }

  lemma {:induction false} ThinSpaced(h: seq<Snapshot>, d: int)
    requires d > 0
    ensures Spaced(Thin(h, d), d)
    decreases |h|
  {
    if h != [] {
      ThinSpaced(h[..|h| - 1], d);
    }
  }

  lemma KeptSpaced(h: seq<Snapshot>, l: Level)
    ensures Spaced(Kept(h, l), Interval(l))
  {
    ThinSpaced(if l == 0 then h else Kept(h, l - 1), Interval(l));
  }

  lemma KeptIncreases(h: seq<Snapshot>, l: Level)
    ensures Spaced(Kept(h, l), 1)
  {
    KeptSpaced(h, l);
  }

  lemma ThinNext(h: seq<Snapshot>, s: Snapshot, d: int)
    ensures Thin(h + [s], d) == if DueAfter(Last(Thin(h, d)), s.at, d) then Thin(h, d) + [s] else Thin(h, d)
  {
    assert (h + [s])[..|h|] == h;
  }

  /** Whether a level and every finer one takes the next snapshot. */
  predicate Takes(h: seq<Snapshot>, s: Snapshot, l: Level) {
    (l == 0 || Takes(h, s, l - 1)) && DueAfter(Last(Kept(h, l)), s.at, Interval(l))
  }

  lemma {:induction false} KeptNext(h: seq<Snapshot>, s: Snapshot, l: Level)
    ensures Kept(h + [s], l) == if Takes(h, s, l) then Kept(h, l) + [s] else Kept(h, l)
    decreases l
  {
    if l == 0 {
      ThinNext(h, s, Interval(0));
    } else {
      KeptNext(h, s, l - 1);
      ThinNext(Kept(h, l - 1), s, Interval(l));
    }
  }

  lemma NewestNext(h: seq<Snapshot>, s: Snapshot)
    ensures Newest(h + [s]) == if s.at > Newest(h) then s.at else Newest(h)
  {
    assert (h + [s])[..|h|] == h;
  }

  /** Nothing offered so far is a whole second after the last point of the finest level. */
  lemma {:induction false} NewestIsClose(h: seq<Snapshot>)
    ensures h != [] ==> Kept(h, 0) != [] && Newest(h) < Last(Kept(h, 0)).value + SECOND
    decreases |h|
  {
    if h != [] {
      var g, s := h[..|h| - 1], h[|h| - 1];
      assert h == g + [s];
      NewestIsClose(g);
      KeptNext(g, s, 0);
    }
  }

  /** So a snapshot that any level takes is newer than all before it, however the clock moved. */
  lemma {:induction false} TakenIsNewest(h: seq<Snapshot>, s: Snapshot, l: Level)
    requires Takes(h, s, l)
    ensures h == [] || s.at > Newest(h)
    decreases l
  {
    if l > 0 {
      TakenIsNewest(h, s, l - 1);
    } else {
      NewestIsClose(h);
    }
  }

  // ----- One level over one add -----

  lemma SpacedPrefix(s: seq<Snapshot>, p: Snapshot, d: int)
    requires Spaced(s + [p], d)
    ensures Spaced(s, d)
  {
    forall i, j | 0 <= i < j < |s|
      ensures s[j].at - s[i].at >= d
    {
      assert s[i] == (s + [p])[i] && s[j] == (s + [p])[j];
    }
  }

  /** In increasing order, the window is fixed by where it starts. */
  lemma WindowStart(s: seq<Snapshot>, cutoff: int, j: nat)
    requires Spaced(s, 1) && j <= |s| <= j + PER_LEVEL
    requires forall i | j <= i < |s| :: s[i].at >= cutoff
    requires j == 0 || |s| == j + PER_LEVEL || s[j - 1].at < cutoff
    ensures Window(s, cutoff) == s[j..]
  {
    var n := Stale(s, cutoff);
    if j < |s| {
      var first := s[j];
      assert first.at >= cutoff;
    }
    if |s| == j + PER_LEVEL {
      Drops(s, n, j);
    }
  }

  lemma Drops(s: seq<Snapshot>, n: nat, j: nat)
    requires n <= j <= |s|
    ensures s[n..][j - n..] == s[j..]
  {
  }

  lemma FreshFrom(s: seq<Snapshot>, n: nat, cutoff: int)
    requires Spaced(s, 1) && n < |s| && s[n].at >= cutoff
    ensures forall i | n <= i < |s| :: s[i].at >= cutoff
  {
  }

  /** Where the window of an increasing level starts. */
  lemma StartOfWindow(s: seq<Snapshot>, cutoff: int) returns (j: nat)
    requires Spaced(s, 1)
    ensures j <= |s| <= j + PER_LEVEL && Window(s, cutoff) == s[j..]
    ensures forall i | j <= i < |s| :: s[i].at >= cutoff
    ensures j == 0 || |s| == j + PER_LEVEL || s[j - 1].at < cutoff
  {
    var n := Stale(s, cutoff);
    j := if |s| - n > PER_LEVEL then |s| - PER_LEVEL else n;
    if n < |s| { FreshFrom(s, n, cutoff); }
    if n < j {
      Drops(s, n, j);
      assert Trimmed(s[n..]) == s[n..][j - n..];
    } else {
      assert Trimmed(s[n..]) == s[n..];
    }
  }

  /** Dropping the expired from a run of an increasing level. */
  lemma ExpireFrom(s: seq<Snapshot>, i: nat, cutoff: int) returns (j: nat)
    requires i <= |s|
    ensures i <= j <= |s| && Expired(s[i..], cutoff) == s[j..]
    ensures j < |s| ==> s[j].at >= cutoff
    ensures forall k | i <= k < j :: s[k].at < cutoff
  {
    j := i + Stale(s[i..], cutoff);
    forall k | i <= k < j
      ensures s[k].at < cutoff
    {
      assert s[k] == s[i..][k - i];
    }
  }

  lemma SnocTrimmed(kept: seq<Snapshot>, s: Snapshot, j: nat)
    requires j <= |kept| <= j + PER_LEVEL
    ensures Trimmed(kept[j..] + [s]) == (kept + [s])[if |kept| + 1 > j + PER_LEVEL then j + 1 else j..]
  {
    assert kept[j..] + [s] == (kept + [s])[j..];
  }

  lemma TakenStep(kept: seq<Snapshot>, s: Snapshot, before: int, cutoff: int)
    requires Spaced(kept + [s], 1) && before <= cutoff
    ensures Expired(Trimmed(Window(kept, before) + [s]), cutoff) == Window(kept + [s], cutoff)
  {
    SpacedPrefix(kept, s, 1);
    var all := kept + [s];
    var j := StartOfWindow(kept, before);
    var i := if |kept| + 1 > j + PER_LEVEL then j + 1 else j;
    SnocTrimmed(kept, s, j);
    var m := ExpireFrom(all, i, cutoff);
    WindowStart(all, cutoff, m);
  }

  lemma LeftStep(kept: seq<Snapshot>, before: int, now: int, cutoff: int)
    requires Spaced(kept, 1)
    requires now == cutoff >= before || now <= cutoff == before
    ensures Expired(Window(kept, before), now) == Window(kept, cutoff)
  {
    var j := StartOfWindow(kept, before);
    var m := ExpireFrom(kept, j, now);
    if m < |kept| && cutoff != before { FreshFrom(kept, m, cutoff); }
    assert m > j ==> kept[m - 1].at < cutoff;
    WindowStart(kept, cutoff, m);
  }

  // ----- The series as a whole -----

  /** What the series holds is, level by level, what it should hold after the snapshots `h`. */
  ghost predicate Tracks(buckets: seq<seq<Snapshot>>, lastAt: seq<Option<Instant>>, retention: int, h: seq<Snapshot>) {
    && |buckets| == |lastAt| == LEVELS
    && (forall l: Level :: lastAt[l] == Last(Kept(h, l)))
    && (forall l: Level :: buckets[l] == Window(Kept(h, l), Cutoff(retention, Newest(h))))
  }

  /** A level with the snapshot added, if it takes it, before anything expires. */
  function Offered(h: seq<Snapshot>, s: Snapshot, retention: int, l: Level): seq<Snapshot> {
    var b := Window(Kept(h, l), Cutoff(retention, Newest(h)));
    if Takes(h, s, l) then Trimmed(b + [s]) else b
  }

  lemma LevelStep(h: seq<Snapshot>, s: Snapshot, retention: int, l: Level)
    ensures Window(Kept(h + [s], l), Cutoff(retention, Newest(h + [s])))
         == Expired(Offered(h, s, retention, l), Cutoff(retention, s.at))
  {
    KeptNext(h, s, l);
    NewestNext(h, s);
    KeptIncreases(h, l);
    KeptIncreases(h + [s], l);
    if Takes(h, s, l) {
      TakenIsNewest(h, s, l);
      TakenCase(Kept(h, l), s, retention, Newest(h));
    } else {
      LeftCase(Kept(h, l), s.at, retention, Newest(h));
    }
  }

  lemma TakenCase(kept: seq<Snapshot>, s: Snapshot, retention: int, newest: int)
    requires Spaced(kept + [s], 1) && newest <= s.at
    ensures Expired(Trimmed(Window(kept, Cutoff(retention, newest)) + [s]), Cutoff(retention, s.at))
         == Window(kept + [s], Cutoff(retention, s.at))
  {
    TakenStep(kept, s, Cutoff(retention, newest), Cutoff(retention, s.at));
  }

  lemma LeftCase(kept: seq<Snapshot>, now: Instant, retention: int, newest: int)
    requires Spaced(kept, 1)
    ensures Expired(Window(kept, Cutoff(retention, newest)), Cutoff(retention, now))
         == Window(kept, Cutoff(retention, if now > newest then now else newest))
  {
    LeftStep(kept, Cutoff(retention, newest), Cutoff(retention, now),
             Cutoff(retention, if now > newest then now else newest));
  }

  /** One add, level by level: the first `taken` levels take the snapshot, and then all expire. */
  lemma Advance(h: seq<Snapshot>, s: Snapshot, retention: int, was: seq<seq<Snapshot>>, last: seq<Option<Instant>>,
                taken: nat, buckets: seq<seq<Snapshot>>, lastAt: seq<Option<Instant>>)
    requires Tracks(was, last, retention, h) && taken <= LEVELS == |buckets| == |lastAt|
    requires forall l: Level | l < taken :: DueAfter(last[l], s.at, Interval(l))
    requires taken < LEVELS ==> !DueAfter(last[taken], s.at, Interval(taken))
    requires forall l: Level :: lastAt[l] == if l < taken then Some(s.at) else last[l]
    requires forall l: Level ::
      buckets[l] == Expired(if l < taken then Trimmed(was[l] + [s]) else was[l], Cutoff(retention, s.at))
    ensures Tracks(buckets, lastAt, retention, h + [s])
  {
    forall l: Level
      ensures lastAt[l] == Last(Kept(h + [s], l))
      ensures buckets[l] == Window(Kept(h + [s], l), Cutoff(retention, Newest(h + [s])))
    {
      TakesBelow(h, s, last, taken, l);
      AdvanceLevel(h, s, retention, l, was[l], last[l], buckets[l], lastAt[l]);
    }
  }

  lemma AdvanceLevel(h: seq<Snapshot>, s: Snapshot, retention: int, l: Level,
                     was: seq<Snapshot>, last: Option<Instant>, b: seq<Snapshot>, lastAt: Option<Instant>)
    requires was == Window(Kept(h, l), Cutoff(retention, Newest(h))) && last == Last(Kept(h, l))
    requires lastAt == if Takes(h, s, l) then Some(s.at) else last
    requires b == Expired(if Takes(h, s, l) then Trimmed(was + [s]) else was, Cutoff(retention, s.at))
    ensures lastAt == Last(Kept(h + [s], l))
    ensures b == Window(Kept(h + [s], l), Cutoff(retention, Newest(h + [s])))
  {
    KeptNext(h, s, l);
    LevelStep(h, s, retention, l);
  }

  // ----- What follows for every run -----

  lemma {:induction false} ThinIsPart(h: seq<Snapshot>, d: int)
    ensures forall p | p in Thin(h, d) :: p in h
    decreases |h|
  {
    if h != [] {
      ThinIsPart(h[..|h| - 1], d);
    }
  }

  lemma {:induction false} KeptIsPart(h: seq<Snapshot>, l: Level)
    ensures forall p | p in Kept(h, l) :: p in h && p in Kept(h, 0)
    decreases l
  {
    ThinIsPart(h, Interval(0));
    if l > 0 {
      ThinIsPart(Kept(h, l - 1), Interval(l));
      KeptIsPart(h, l - 1);
    }
  }

  /** Each level is spaced by its interval, bounded, fresh, and holds only snapshots that were added. */
  lemma LevelsHold(buckets: seq<seq<Snapshot>>, lastAt: seq<Option<Instant>>, retention: int, h: seq<Snapshot>, l: Level)
    requires Tracks(buckets, lastAt, retention, h)
    ensures Spaced(buckets[l], Interval(l)) && |buckets[l]| <= PER_LEVEL
    ensures forall p | p in buckets[l] :: p in h && p in Kept(h, l)
    ensures retention > 0 ==> forall p, a | p in buckets[l] && a in h :: p.at >= a.at - retention
  {
    KeptSpaced(h, l);
    KeptIsPart(h, l);
    NewestIsNewest(h);
    WindowHolds(Kept(h, l), Cutoff(retention, Newest(h)), Interval(l));
  }

  lemma WindowHolds(kept: seq<Snapshot>, cutoff: int, d: int)
    requires d >= 1 && Spaced(kept, d)
    ensures var b := Window(kept, cutoff);
      Spaced(b, d) && |b| <= PER_LEVEL && forall p | p in b :: p in kept && p.at >= cutoff
  {
    var j := StartOfWindow(kept, cutoff);
    var b := kept[j..];
    assert forall i | 0 <= i < |b| :: b[i] == kept[j + i];
  }

  lemma {:induction false} NewestIsNewest(h: seq<Snapshot>)
    ensures forall a | a in h :: a.at <= Newest(h)
    decreases |h|
  {
    if h != [] {
      NewestIsNewest(h[..|h| - 1]);
      assert forall a | a in h :: a in h[..|h| - 1] || a == h[|h| - 1];
    }
  }

  /** One instant is one snapshot, across levels. */
  lemma OneInstantOneSnapshot(h: seq<Snapshot>, l: Level, m: Level, p: Snapshot, q: Snapshot)
    requires p in Kept(h, l) && q in Kept(h, m) && p.at == q.at
    ensures p == q
  {
    KeptIsPart(h, l);
    KeptIsPart(h, m);
    KeptIncreases(h, 0);
  }

  // ----- Too soon for a level and due at a coarser one -----

  predicate Due(h: seq<Snapshot>, s: Snapshot, l: Level) {
    DueAfter(Last(Kept(h, l)), s.at, Interval(l))
  }

  lemma {:induction false} KeptFirst(h: seq<Snapshot>, l: Level)
    requires h != []
    ensures Kept(h, l) != []
    decreases l
  {
    var k := if l == 0 then h else Kept(h, l - 1);
    if l > 0 { KeptFirst(h, l - 1); }
    ThinFirst(k, Interval(l));
  }

  lemma {:induction false} ThinFirst(h: seq<Snapshot>, d: int)
    requires h != []
    ensures Thin(h, d) != []
    decreases |h|
  {
    if |h| > 1 { ThinFirst(h[..|h| - 1], d); }
  }

  /** Too soon for a level yet due at a coarser one: exactly the times from the one's next to the
      other's. Such a snapshot is in neither. */
  lemma TooSoonYetDueExactly(h: seq<Snapshot>, s: Snapshot, l: Level, m: Level)
    requires l < m
    ensures h != [] ==> Last(Kept(h, l)).Some? && Last(Kept(h, m)).Some?
    ensures !Due(h, s, l) && Due(h, s, m) <==>
      h != [] && Last(Kept(h, m)).value + Interval(m) <= s.at < Last(Kept(h, l)).value + Interval(l)
    ensures !Due(h, s, l) ==> !Takes(h, s, l) && !Takes(h, s, m)
  {
    if h != [] {
      KeptFirst(h, l);
      KeptFirst(h, m);
    } else {
      NothingKept(l);
    }
    NotTakenAbove(h, s, l, m);
  }

  lemma {:induction false} NothingKept(l: Level)
    ensures Kept([], l) == []
    decreases l
  {
    if l > 0 { NothingKept(l - 1); }
  }

  lemma {:induction false} NotTakenAbove(h: seq<Snapshot>, s: Snapshot, l: Level, m: Level)
    requires l <= m
    ensures Takes(h, s, m) ==> Takes(h, s, l)
    decreases m
  {
    if l < m { NotTakenAbove(h, s, l, m - 1); }
  }

  /** When a level last took a report. */
  function LastTaken(h: seq<Snapshot>, l: Level): Instant
    requires h != []
  {
    KeptFirst(h, l);
    Last(Kept(h, l)).value
  }

  /** How far a level's last point is ahead of a coarser one's. */
  function Lead(h: seq<Snapshot>, l: Level, m: Level): int
    requires h != []
  {
    LastTaken(h, l) - LastTaken(h, m)
  }

  /** Whether some next report would be too soon for a level and due at a coarser one. */
  ghost predicate CanMiss(h: seq<Snapshot>, l: Level, m: Level) {
    exists s: Snapshot :: !Due(h, s, l) && Due(h, s, m)
  }

  /** It would exactly when the finer level's last point is more than the difference of the intervals ahead
      of the coarser one's, as long as there are times after it at all. */
  lemma CanMissExactly(h: seq<Snapshot>, l: Level, m: Level)
    requires l < m
    ensures CanMiss(h, l, m) <==>
      h != [] && Lead(h, l, m) > Interval(m) - Interval(l) && LastTaken(h, m) + Interval(m) < -LOWEST
  {
    if h == [] {
      NothingKept(l);
    } else {
      KeptFirst(h, l);
      KeptFirst(h, m);
      if Lead(h, l, m) > Interval(m) - Interval(l) && LastTaken(h, m) + Interval(m) < -LOWEST {
        var s := Snapshot(LastTaken(h, m) + Interval(m), 0, 0);
        assert !Due(h, s, l) && Due(h, s, m);
      }
    }
  }

  /** Which report brings that about, for adjacent levels: one that the finer level takes and the coarser does
      not, less than the finer interval before the coarser level's next time. */
  lemma LateReport(h: seq<Snapshot>, s: Snapshot, l: Level)
    requires l + 1 < LEVELS && h != []
    ensures Lead(h + [s], l, l + 1) ==
      if !Takes(h, s, l) then Lead(h, l, l + 1)
      else if Due(h, s, l + 1) then 0
      else s.at - LastTaken(h, l + 1)
  {
    KeptFirst(h, l);
    KeptFirst(h, l + 1);
    KeptNext(h, s, l);
    KeptNext(h, s, l + 1);
  }

  lemma {:induction false} ThinLag(h: seq<Snapshot>, d: int)
    requires h != [] && d > 0 && Spaced(h, 1)
    ensures Thin(h, d) != [] && 0 <= h[|h| - 1].at - Last(Thin(h, d)).value < d
    decreases |h|
  {
    if |h| > 1 {
      ThinLag(h[..|h| - 1], d);
      assert h[|h| - 2].at < h[|h| - 1].at;
    }
  }

  /** A coarser level is never a whole interval behind the next finer one. */
  lemma LeadIsShort(h: seq<Snapshot>, l: Level)
    requires l + 1 < LEVELS && h != []
    ensures 0 <= Lead(h, l, l + 1) < Interval(l + 1)
  {
    KeptFirst(h, l);
    KeptIncreases(h, l);
    ThinLag(Kept(h, l), Interval(l + 1));
  }

  lemma {:induction false} MultipleGap(a: nat, b: nat, r: nat)
    requires r > 0 && a < b && Multiple(a, r) && Multiple(b, r)
    ensures b - a >= r && Multiple(b - a, r)
    decreases a
  {
    if a > 0 { MultipleGap(a - r, b - r, r); }
  }

  lemma IntervalsDivide(l: Level)
    requires l + 1 < LEVELS
    ensures Multiple(Interval(l + 1), Interval(l))
  {
    Times(15, Interval(0));
    Times(20, Interval(1));
    Times(12, Interval(2));
  }

  /** A finer level that is whole intervals of its own ahead is never too soon where the coarser is due. */
  lemma OnTheGridNeverMisses(h: seq<Snapshot>, s: Snapshot, l: Level)
    requires l + 1 < LEVELS && (h != [] ==> Lead(h, l, l + 1) >= 0 && Multiple(Lead(h, l, l + 1), Interval(l)))
    ensures Due(h, s, l + 1) ==> Due(h, s, l)
  {
    if h == [] {
      NothingKept(l);
    } else {
      LeadIsShort(h, l);
      IntervalsDivide(l);
      MultipleGap(Lead(h, l, l + 1), Interval(l + 1), Interval(l));
      CanMissExactly(h, l, l + 1);
    }
  }

  /** Reports at whole seconds, whichever and in whatever order, are never too soon for the finest level and
      due at the next, whenever the next report comes. */
  lemma WholeSecondsNeverMiss(h: seq<Snapshot>, s: Snapshot, start: int)
    requires forall p | p in h :: p.at >= start && Multiple(p.at - start, SECOND)
    ensures Due(h, s, 1) ==> Due(h, s, 0)
  {
    if h != [] {
      KeptIsPart(h, 0);
      KeptIsPart(h, 1);
      KeptFirst(h, 0);
      KeptFirst(h, 1);
      LeadIsShort(h, 0);
      var p, q := Kept(h, 0)[|Kept(h, 0)| - 1], Kept(h, 1)[|Kept(h, 1)| - 1];
      assert p in h && q in h;
      if q.at < p.at {
        MultipleGap(q.at - start, p.at - start, SECOND);
      }
    }
    OnTheGridNeverMisses(h, s, 0);
  }

  /** A campaign that reports every second on the second. */
  predicate EverySecond(h: seq<Snapshot>, start: int) {
    forall i | 0 <= i < |h| :: h[i].at == start + i * SECOND
  }

  /** A level's interval in seconds. */
  function Ratio(l: Level): (r: nat)
    ensures Interval(l) == r * SECOND && r >= 1
  {
    if l == 0 then 1 else if l == 1 then 15 else if l == 2 then 300 else 3600
  }

  predicate Multiple(n: nat, r: nat)
    requires r > 0
  {
    n == 0 || (n >= r && Multiple(n - r, r))
  }

  /** The last multiple of r. */
  function Floor(n: nat, r: nat): nat
    requires r > 0
  {
    if n < r then 0 else r + Floor(n - r, r)
  }

  lemma {:induction false} FloorNext(n: nat, r: nat)
    requires n > 0 && r > 0
    ensures n - Floor(n - 1, r) >= r <==> Multiple(n, r)
    ensures Floor(n, r) == if Multiple(n, r) then n else Floor(n - 1, r)
    decreases n
  {
    if n > r {
      FloorNext(n - r, r);
    }
  }

  lemma {:induction false} MultipleOfMultiple(n: nat, r: nat, q: nat)
    requires r > 0 && q > 0 && Multiple(n, r) && Multiple(r, q)
    ensures Multiple(n, q)
    decreases n
  {
    if n > 0 {
      MultipleOfMultiple(n - r, r, q);
      MultipleSum(r, n - r, q);
    }
  }

  lemma {:induction false} MultipleSum(a: nat, b: nat, q: nat)
    requires q > 0 && Multiple(a, q) && Multiple(b, q)
    ensures Multiple(a + b, q)
    decreases a
  {
    if a > 0 { MultipleSum(a - q, b, q); }
  }

  lemma {:induction false} Times(k: nat, r: nat)
    requires r > 0
    ensures Multiple(k * r, r)
  {
    if k > 0 {
      Times(k - 1, r);
      assert k * r - r == (k - 1) * r;
    }
  }

  lemma CoarserDivides(n: nat, l: Level)
    requires l > 0 && Multiple(n, Ratio(l))
    ensures Multiple(n, Ratio(l - 1))
  {
    Times(15, 1);
    Times(20, 15);
    Times(12, 300);
    MultipleOfMultiple(n, Ratio(l), Ratio(l - 1));
  }

  lemma {:induction false} LastEverySecond(h: seq<Snapshot>, start: int, l: Level)
    requires EverySecond(h, start) && h != []
    ensures Last(Kept(h, l)) != None && Last(Kept(h, l)).value == start + Floor(|h| - 1, Ratio(l)) * SECOND
    decreases |h|, 1
  {
    var g, s := h[..|h| - 1], h[|h| - 1];
    assert h == g + [s];
    TakenEverySecond(g, s, start, l);
    KeptNext(g, s, l);
    if g != [] {
      LastEverySecond(g, start, l);
      FloorNext(|g|, Ratio(l));
    } else {
      NothingKept(l);
    }
  }

  lemma {:induction false} TakenEverySecond(h: seq<Snapshot>, s: Snapshot, start: int, l: Level)
    requires EverySecond(h + [s], start)
    ensures Due(h, s, l) <==> Multiple(|h|, Ratio(l))
    ensures Takes(h, s, l) <==> Multiple(|h|, Ratio(l))
    decreases |h| + 1, 0, l
  {
    assert EverySecond(h, start) by {
      assert forall i | 0 <= i < |h| :: h[i] == (h + [s])[i];
    }
    assert s == (h + [s])[|h|];
    if h == [] {
      NothingKept(l);
    } else {
      LastEverySecond(h, start, l);
      FloorNext(|h|, Ratio(l));
    }
    if l > 0 {
      TakenEverySecond(h, s, start, l - 1);
      if Multiple(|h|, Ratio(l)) { CoarserDivides(|h|, l); }
    }
  }

  lemma {:induction false} FloorIs(n: nat, r: nat)
    requires r > 0
    ensures Floor(n, r) <= n && Multiple(Floor(n, r), r)
    decreases n
  {
    if n >= r { FloorIs(n - r, r); }
  }

  lemma {:induction false} MultipleScaled(n: nat, r: nat)
    requires r > 0 && Multiple(n, r)
    ensures Multiple(n * SECOND, r * SECOND)
    decreases n
  {
    if n > 0 { MultipleScaled(n - r, r); }
  }

  /** With such reports every level is whole intervals of its own ahead of the next. */
  lemma LeadEverySecond(h: seq<Snapshot>, start: int, l: Level)
    requires l + 1 < LEVELS && EverySecond(h, start) && h != []
    ensures Lead(h, l, l + 1) >= 0 && Multiple(Lead(h, l, l + 1), Interval(l))
  {
    var a, b := Floor(|h| - 1, Ratio(l + 1)), Floor(|h| - 1, Ratio(l));
    LastEverySecond(h, start, l);
    LastEverySecond(h, start, l + 1);
    LeadIsShort(h, l);
    assert Lead(h, l, l + 1) == (b - a) * SECOND;
    FloorsApart(|h| - 1, l);
  }

  lemma FloorsApart(n: nat, l: Level)
    requires l + 1 < LEVELS && Floor(n, Ratio(l)) >= Floor(n, Ratio(l + 1))
    ensures Multiple((Floor(n, Ratio(l)) - Floor(n, Ratio(l + 1))) * SECOND, Interval(l))
  {
    var a, b := Floor(n, Ratio(l + 1)), Floor(n, Ratio(l));
    FloorIs(n, Ratio(l));
    FloorIs(n, Ratio(l + 1));
    CoarserDivides(a, l + 1);
    if a < b {
      MultipleGap(a, b, Ratio(l));
      MultipleScaled(b - a, Ratio(l));
    }
  }

  lemma NeverTooSoonForNext(h: seq<Snapshot>, s: Snapshot, start: int, l: Level)
    requires l + 1 < LEVELS && EverySecond(h, start)
    ensures Due(h, s, l + 1) ==> Due(h, s, l)
  {
    if h != [] { LeadEverySecond(h, start, l); }
    OnTheGridNeverMisses(h, s, l);
  }

  lemma {:induction false} DownTo(due: Level -> bool, l: Level, m: Level)
    requires l <= m && due(m) && forall k: Level | k > 0 && due(k) :: due(k - 1)
    ensures due(l)
    decreases m
  {
    if l < m { DownTo(due, l, m - 1); }
  }

  lemma NeverTooSoon(h: seq<Snapshot>, s: Snapshot, start: int, l: Level, m: Level)
    requires EverySecond(h, start) && l <= m && Due(h, s, m)
    ensures Due(h, s, l)
  {
    var due := (k: Level) => Due(h, s, k);
    forall k: Level | k > 0 && due(k)
      ensures due(k - 1)
    {
      NeverTooSoonForNext(h, s, start, k - 1);
    }
    DownTo(due, l, m);
  }

  /** So reports every second on the second are never too soon for a level and due at a coarser one, whenever
      the next report comes; and if that is on the second too, a level takes it at the multiples of its interval. */
  lemma EverySecondNeverMisses(h: seq<Snapshot>, s: Snapshot, start: int, l: Level, m: Level)
    requires EverySecond(h, start) && l < m
    ensures Due(h, s, m) ==> Due(h, s, l)
    ensures EverySecond(h + [s], start) ==> (Takes(h, s, l) <==> Multiple(|h|, Ratio(l)))
  {
    if Due(h, s, m) { NeverTooSoon(h, s, start, l, m); }
    if EverySecond(h + [s], start) { TakenEverySecond(h, s, start, l); }
  }

  /** A witness with a clock that runs forward: reports at 0, 14.5 and 15.2 seconds. */
  lemma TooSoonOnlyForTheFinest()
    ensures exists h: seq<Snapshot>, s: Snapshot :: !Due(h, s, 0) && Due(h, s, 1)
  {
    var p, q, s := Snapshot(0, 0, 0), Snapshot(14_500_000_000, 0, 0), Snapshot(15_200_000_000, 0, 0);
    var h := [p, q];
    ThinNext([], p, SECOND);
    ThinNext([], p, Interval(1));
    ThinNext([p], q, SECOND);
    ThinNext([p], q, Interval(1));
    assert [] + [p] == [p] && [p] + [q] == h;
    assert Kept(h, 0) == h && Kept(h, 1) == [p];
    assert !Due(h, s, 0) && Due(h, s, 1);
  }

  class History {
    var buckets: seq<seq<Snapshot>>
    var lastAt: seq<Option<Instant>>
    const retention: int
    ghost var added: seq<Snapshot>

    ghost predicate Valid()
      reads this
    {
      Tracks(buckets, lastAt, retention, added)
    }

    constructor (retention: int)
      ensures Valid() && added == [] && this.retention == retention
    {
      this.retention := retention;
      buckets := [[], [], [], []];
      lastAt := [None, None, None, None];
      added := [];
    }

    /** Add, with the clock's reading for a snapshot that carries no time. */
    method Add(time: Option<Time>, numbers: int, now: Time)
      requires Valid()
      modifies this
      ensures Valid()
      ensures var t := if time == None then now else time.value; added == old(added) + [Snapshot(t.at, t.wall, numbers)]
    {
      var t := if time == None then now else time.value;
      var s := Snapshot(t.at, t.wall, numbers);
      ghost var was, last := buckets, lastAt;
      ghost var taken := Offer(s);
      Expire(s.at);
      Advance(added, s, retention, was, last, taken, buckets, lastAt);
      added := added + [s];
    }

    /** The levels in turn, until one for which it is too soon. */
    method Offer(s: Snapshot) returns (ghost taken: nat)
      requires |buckets| == |lastAt| == LEVELS
      modifies this`buckets, this`lastAt
      ensures |buckets| == |lastAt| == LEVELS >= taken
      ensures forall l: Level | l < taken :: DueAfter(old(lastAt)[l], s.at, Interval(l))
      ensures taken < LEVELS ==> !DueAfter(old(lastAt)[taken], s.at, Interval(taken))
      ensures forall l: Level | l < taken :: lastAt[l] == Some(s.at) && buckets[l] == Trimmed(old(buckets)[l] + [s])
      ensures forall l: Level | taken <= l :: lastAt[l] == old(lastAt)[l] && buckets[l] == old(buckets)[l]
    {
      ghost var was, last := buckets, lastAt;
      var level := 0;
      while level < LEVELS
        invariant 0 <= level <= LEVELS && |buckets| == |lastAt| == LEVELS
        invariant forall l: Level | l < level :: DueAfter(last[l], s.at, Interval(l))
        invariant forall l: Level | l < level :: lastAt[l] == Some(s.at) && buckets[l] == Trimmed(was[l] + [s])
        invariant forall l: Level | level <= l :: lastAt[l] == last[l] && buckets[l] == was[l]
      {
        if !DueAfter(lastAt[level], s.at, Interval(level)) {
          break;
        }
        lastAt := lastAt[level := Some(s.at)];
        buckets := buckets[level := Trimmed(buckets[level] + [s])];
        level := level + 1;
      }
      taken := level;
    }

    method Expire(now: Instant)
      requires |buckets| == LEVELS
      modifies this`buckets
      ensures |buckets| == LEVELS
      ensures forall l: Level :: buckets[l] == Expired(old(buckets)[l], Cutoff(retention, now))
    {
      if retention <= 0 {
        assert forall l: Level :: Expired(buckets[l], LOWEST) == buckets[l];
        return;
      }
      var cutoff := now - retention;
      for level := 0 to LEVELS
        invariant |buckets| == LEVELS
        invariant forall l: Level | l < level :: buckets[l] == Expired(old(buckets)[l], cutoff)
        invariant forall l: Level | level <= l :: buckets[l] == old(buckets)[l]
      {
        var b := buckets[level];
        var i := 0;
        while i < |b| && b[i].at < cutoff
          invariant 0 <= i <= |b| && i <= Stale(b, cutoff)
        {
          i := i + 1;
        }
        buckets := buckets[level := b[i..]];
      }
    }

    /** The history oldest first, each wall-clock reading once. */
    method Points() returns (out: seq<Snapshot>)
      requires Valid()
      ensures out == Sorted(Dedupe(FromLevel(buckets, 0)))
    {
      var seen: set<Instant> := {};
      out := [];
      var level := LEVELS;
      while level > 0
        invariant 0 <= level <= LEVELS
        invariant out == Dedupe(FromLevel(buckets, level)) && Marks(seen, out)
      {
        level := level - 1;
        out, seen := Merge(buckets[level], out, seen, FromLevel(buckets, level + 1));
      }
      var a := new Snapshot[|out|](i requires 0 <= i < |out| => out[i]);
      assert a[..] == out;
      SortByTime(a);
      out := a[..];
    }
  }

  /** The wall-clock readings taken so far. */
  ghost predicate Marks(seen: set<Instant>, out: seq<Snapshot>) {
    forall t: Instant :: t in seen <==> HasWall(out, t)
  }

  lemma OneFurther(done: seq<Snapshot>, b: seq<Snapshot>, i: nat)
    requires i < |b|
    ensures done + b[..i + 1] == done + b[..i] + [b[i]]
  {
  }

  /** One level of the merge, after the snapshots `done`. */
  method Merge(b: seq<Snapshot>, out: seq<Snapshot>, seen: set<Instant>, ghost done: seq<Snapshot>)
    returns (out': seq<Snapshot>, seen': set<Instant>)
    requires out == Dedupe(done) && Marks(seen, out)
    ensures out' == Dedupe(done + b) && Marks(seen', out')
  {
    out', seen' := out, seen;
    assert done + b[..0] == done;
    for i := 0 to |b|
      invariant out' == Dedupe(done + b[..i]) && Marks(seen', out')
    {
      DedupeNext(done + b[..i], b[i]);
      OneFurther(done, b, i);
      HasWallNext(out', b[i]);
      if b[i].wall !in seen' {
        seen' := seen' + {b[i].wall};
        out' := out' + [b[i]];
      }
    }
    assert b[..|b|] == b;
  }

  /** The levels that take a snapshot are those before the first for which it is too soon. */
  lemma {:induction false} TakesBelow(h: seq<Snapshot>, s: Snapshot, last: seq<Option<Instant>>, level: nat, l: Level)
    requires |last| == LEVELS >= level && forall m: Level :: last[m] == Last(Kept(h, m))
    requires forall m: Level | m < level :: DueAfter(last[m], s.at, Interval(m))
    requires level < LEVELS ==> !DueAfter(last[level], s.at, Interval(level))
    ensures Takes(h, s, l) <==> l < level
    decreases l
  {
    assert last[l] == Last(Kept(h, l));
    if l > 0 {
      TakesBelow(h, s, last, level, l - 1);
    }
  }

  // ----- Merging the levels -----

  /** The levels from the coarsest down to `l`, one after the other. */
  function FromLevel(buckets: seq<seq<Snapshot>>, l: nat): seq<Snapshot>
    requires |buckets| == LEVELS
    decreases LEVELS - l
  {
    if l >= LEVELS then [] else FromLevel(buckets, l + 1) + buckets[l]
  }

  predicate HasWall(s: seq<Snapshot>, t: Instant) {
    exists i | 0 <= i < |s| :: s[i].wall == t
  }

  /** The first snapshot of each wall-clock reading. */
  function Dedupe(s: seq<Snapshot>): seq<Snapshot> {
    if s == [] then []
    else
      var d, p := Dedupe(s[..|s| - 1]), s[|s| - 1];
      if HasWall(d, p.wall) then d else d + [p]
  }

  lemma DedupeNext(s: seq<Snapshot>, p: Snapshot)
    ensures Dedupe(s + [p]) == if HasWall(Dedupe(s), p.wall) then Dedupe(s) else Dedupe(s) + [p]
  {
    assert (s + [p])[..|s|] == s;
  }

  lemma HasWallNext(s: seq<Snapshot>, p: Snapshot)
    ensures forall t: Instant :: HasWall(s + [p], t) <==> HasWall(s, t) || t == p.wall
  {
    forall t: Instant
      ensures HasWall(s + [p], t) <==> HasWall(s, t) || t == p.wall
    {
      assert (s + [p])[|s|] == p;
      if HasWall(s, t) {
        var i :| 0 <= i < |s| && s[i].wall == t;
        assert (s + [p])[i].wall == t;
      }
    }
  }

  // ----- Sorting -----

  /** Put after the last element that is not later. */
  function Insert(s: seq<Snapshot>, p: Snapshot): seq<Snapshot> {
    if s == [] || s[|s| - 1].at <= p.at then s + [p] else Insert(s[..|s| - 1], p) + [s[|s| - 1]]
  }

  function Sorted(s: seq<Snapshot>): seq<Snapshot> {
    if s == [] then [] else Insert(Sorted(s[..|s| - 1]), s[|s| - 1])
  }

  lemma {:induction false} InsertAt(s: seq<Snapshot>, p: Snapshot, j: nat)
    requires j <= |s| && (j == 0 || s[j - 1].at <= p.at)
    requires forall k | j <= k < |s| :: p.at < s[k].at
    ensures Insert(s, p) == s[..j] + [p] + s[j..]
    decreases |s|
  {
    if j < |s| {
      var t := s[..|s| - 1];
      InsertAt(t, p, j);
      assert s[..j] == t[..j] && s[j..] == t[j..] + [s[|s| - 1]];
    } else {
      assert s[..j] == s && s[j..] == [];
    }
  }

  /** The array while one element moves left: `p` stands at `j` in `front`, and `back` waits. */
  function Moving(front: seq<Snapshot>, p: Snapshot, j: nat, back: seq<Snapshot>): seq<Snapshot>
    requires j <= |front|
  {
    front[..j] + [p] + front[j..] + back
  }

  /** The same, element by element. */
  predicate Placed(s: seq<Snapshot>, front: seq<Snapshot>, p: Snapshot, j: nat, back: seq<Snapshot>) {
    && j <= |front| && |s| == |front| + 1 + |back| && s[j] == p
    && (forall k | 0 <= k < j :: s[k] == front[k])
    && (forall k | j < k <= |front| :: s[k] == front[k - 1])
    && (forall k | |front| < k < |s| :: s[k] == back[k - |front| - 1])
  }

  lemma PlacedIs(s: seq<Snapshot>, front: seq<Snapshot>, p: Snapshot, j: nat, back: seq<Snapshot>)
    requires j <= |front|
    ensures Placed(s, front, p, j, back) <==> s == Moving(front, p, j, back)
  {
    var m := Moving(front, p, j, back);
    assert Placed(m, front, p, j, back);
    if Placed(s, front, p, j, back) {
      assert forall k | 0 <= k < |s| :: s[k] == m[k];
    }
  }

  lemma NextToSort(s: seq<Snapshot>, i: nat)
    requires i < |s|
    ensures Sorted(s[..i + 1]) == Insert(Sorted(s[..i]), s[i])
    ensures Sorted(s[..i]) + s[i..] == Moving(Sorted(s[..i]), s[i], |Sorted(s[..i])|, s[i + 1..])
  {
    assert s[..i + 1][..i] == s[..i];
  }

  method SortByTime(a: array<Snapshot>)
    modifies a
    ensures a[..] == Sorted(old(a[..]))
  {
    ghost var was := a[..];
    var i := 1;
    if a.Length > 0 {
      NextToSort(was, 0);
    }
    while i < a.Length
      invariant 0 <= i && (a.Length > 0 ==> i <= a.Length)
      invariant i <= a.Length ==> |Sorted(was[..i])| == i && a[..] == Sorted(was[..i]) + was[i..]
    {
      NextToSort(was, i);
      Sift(a, i, Sorted(was[..i]), was[i], was[i + 1..]);
      i := i + 1;
    }
    assert was[..a.Length] == was && was[a.Length..] == [];
  }

  /** The inner loop: the element at `i` moves left past every later one. */
  method Sift(a: array<Snapshot>, i: nat, ghost front: seq<Snapshot>, ghost p: Snapshot, ghost back: seq<Snapshot>)
    requires i < a.Length && |front| == i && a[..] == Moving(front, p, i, back)
    modifies a
    ensures a[..] == Insert(front, p) + back && |Insert(front, p)| == i + 1
  {
    PlacedIs(a[..], front, p, i, back);
    var j := i;
    while j > 0 && a[j].at < a[j - 1].at
      invariant 0 <= j <= i && Placed(a[..], front, p, j, back)
      invariant forall k | j <= k < i :: p.at < front[k].at
    {
      ghost var s := a[..];
      a[j], a[j - 1] := a[j - 1], a[j];
      MoveLeft(s, front, p, j, back, a[..]);
      j := j - 1;
    }
    PlacedIs(a[..], front, p, j, back);
    InsertAt(front, p, j);
  }

  lemma MoveLeft(s: seq<Snapshot>, front: seq<Snapshot>, p: Snapshot, j: nat, back: seq<Snapshot>, t: seq<Snapshot>)
    requires 0 < j && Placed(s, front, p, j, back) && t == s[j := s[j - 1]][j - 1 := s[j]]
    ensures Placed(t, front, p, j - 1, back)
  {
  }

  /** Distinct instants. */
  predicate Distinct(s: seq<Snapshot>) {
    forall i, j | 0 <= i < j < |s| :: s[i].at != s[j].at
  }

  predicate DistinctWalls(s: seq<Snapshot>) {
    forall i, j | 0 <= i < j < |s| :: s[i].wall != s[j].wall
  }

  lemma {:induction false} InsertHas(s: seq<Snapshot>, p: Snapshot)
    ensures forall x :: x in Insert(s, p) <==> x in s || x == p
    decreases |s|
  {
    if s != [] && s[|s| - 1].at > p.at {
      var t := s[..|s| - 1];
      assert s == t + [s[|s| - 1]];
      InsertHas(t, p);
    }
  }

  lemma {:induction false} InsertIs(s: seq<Snapshot>, p: Snapshot)
    requires Spaced(s, 1) && forall q | q in s :: q.at != p.at
    ensures Spaced(Insert(s, p), 1)
    decreases |s|
  {
    if s != [] && s[|s| - 1].at > p.at {
      var t, last := s[..|s| - 1], s[|s| - 1];
      InsertIs(t, p);
      InsertHas(t, p);
      var u := Insert(t, p);
      forall i | 0 <= i < |u|
        ensures u[i].at < last.at
      {
        assert u[i] in u;
      }
    }
  }

  lemma {:induction false} SortedIs(s: seq<Snapshot>)
    requires Distinct(s)
    ensures Spaced(Sorted(s), 1)
    ensures forall x :: x in Sorted(s) <==> x in s
    decreases |s|
  {
    if s != [] {
      var t, p := s[..|s| - 1], s[|s| - 1];
      assert s == t + [p];
      SortedIs(t);
      InsertIs(Sorted(t), p);
      InsertHas(Sorted(t), p);
    }
  }

  lemma {:induction false} DedupeIs(s: seq<Snapshot>)
    ensures DistinctWalls(Dedupe(s))
    ensures forall x | x in Dedupe(s) :: x in s
    ensures forall x | x in s :: HasWall(Dedupe(s), x.wall)
    decreases |s|
  {
    if s != [] {
      var t, p := s[..|s| - 1], s[|s| - 1];
      assert s == t + [p];
      DedupeIs(t);
      HasWallNext(Dedupe(t), p);
    }
  }

  lemma {:induction false} FromLevelHolds(buckets: seq<seq<Snapshot>>, l: nat)
    requires |buckets| == LEVELS >= l
    ensures forall x :: x in FromLevel(buckets, l) <==> exists m | l <= m < LEVELS :: x in buckets[m]
    decreases LEVELS - l
  {
    if l < LEVELS {
      FromLevelHolds(buckets, l + 1);
    }
  }

  ghost predicate Holds(buckets: seq<seq<Snapshot>>, p: Snapshot)
    requires |buckets| == LEVELS
  {
    exists l: Level :: p in buckets[l]
  }

  /** No two snapshots that are kept share a wall-clock reading. */
  ghost predicate OneWallOneSnapshot(buckets: seq<seq<Snapshot>>)
    requires |buckets| == LEVELS
  {
    forall p, q | Holds(buckets, p) && Holds(buckets, q) && p.wall == q.wall :: p == q
  }

  lemma HeldOnce(buckets: seq<seq<Snapshot>>, lastAt: seq<Option<Instant>>, retention: int, h: seq<Snapshot>,
                 p: Snapshot, q: Snapshot)
    requires Tracks(buckets, lastAt, retention, h) && Holds(buckets, p) && Holds(buckets, q) && p.at == q.at
    ensures p == q
  {
    var l: Level :| p in buckets[l];
    var m: Level :| q in buckets[m];
    LevelsHold(buckets, lastAt, retention, h, l);
    LevelsHold(buckets, lastAt, retention, h, m);
    OneInstantOneSnapshot(h, l, m, p, q);
  }

  lemma Gathered(buckets: seq<seq<Snapshot>>, lastAt: seq<Option<Instant>>, retention: int, h: seq<Snapshot>)
    requires Tracks(buckets, lastAt, retention, h)
    ensures var one := Dedupe(FromLevel(buckets, 0));
      && Distinct(one) && DistinctWalls(one)
      && (forall p | p in one :: Holds(buckets, p))
      && (forall p | Holds(buckets, p) :: HasWall(one, p.wall))
  {
    var all := FromLevel(buckets, 0);
    var one := Dedupe(all);
    FromLevelHolds(buckets, 0);
    assert forall p :: p in all <==> Holds(buckets, p);
    DedupeIs(all);
    forall i, j | 0 <= i < j < |one|
      ensures one[i].at != one[j].at
    {
      assert one[i] in one && one[j] in one;
      if one[i].at == one[j].at {
        HeldOnce(buckets, lastAt, retention, h, one[i], one[j]);
      }
    }
  }

  lemma WholeExactly(buckets: seq<seq<Snapshot>>, one: seq<Snapshot>)
    requires |buckets| == LEVELS && DistinctWalls(one)
    requires (forall p | p in one :: Holds(buckets, p)) && (forall p | Holds(buckets, p) :: HasWall(one, p.wall))
    ensures (forall p | Holds(buckets, p) :: p in one) <==> OneWallOneSnapshot(buckets)
  {
    if OneWallOneSnapshot(buckets) {
      forall p | Holds(buckets, p)
        ensures p in one
      {
        var i :| 0 <= i < |one| && one[i].wall == p.wall;
        assert one[i] in one;
      }
    }
  }

  /** `Points` is in strictly increasing order, holds kept snapshots only and every wall-clock reading
      kept; it is the whole union of the levels exactly when no two kept snapshots share a reading. */
  lemma PointsAreTheUnion(buckets: seq<seq<Snapshot>>, lastAt: seq<Option<Instant>>, retention: int, h: seq<Snapshot>)
    requires Tracks(buckets, lastAt, retention, h)
    ensures var ps := Sorted(Dedupe(FromLevel(buckets, 0)));
      && Spaced(ps, 1)
      && (forall p | p in ps :: Holds(buckets, p))
      && (forall p | Holds(buckets, p) :: HasWall(ps, p.wall))
      && ((forall p | Holds(buckets, p) :: p in ps) <==> OneWallOneSnapshot(buckets))
  {
    Gathered(buckets, lastAt, retention, h);
    SortedUnion(buckets, Dedupe(FromLevel(buckets, 0)));
  }

  lemma SortedUnion(buckets: seq<seq<Snapshot>>, one: seq<Snapshot>)
    requires |buckets| == LEVELS && Distinct(one) && DistinctWalls(one)
    requires (forall p | p in one :: Holds(buckets, p)) && (forall p | Holds(buckets, p) :: HasWall(one, p.wall))
    ensures var ps := Sorted(one);
      && Spaced(ps, 1)
      && (forall p | p in ps :: Holds(buckets, p))
      && (forall p | Holds(buckets, p) :: HasWall(ps, p.wall))
      && ((forall p | Holds(buckets, p) :: p in ps) <==> OneWallOneSnapshot(buckets))
  {
    WholeExactly(buckets, one);
    SortedIs(one);
    SameWalls(one, Sorted(one));
  }

  lemma SameWalls(a: seq<Snapshot>, b: seq<Snapshot>)
    requires forall x | x in a :: x in b
    ensures forall t: Instant | HasWall(a, t) :: HasWall(b, t)
  {
    forall t: Instant | HasWall(a, t)
      ensures HasWall(b, t)
    {
      var i :| 0 <= i < |a| && a[i].wall == t;
      assert a[i] in b;
    }
  }

  lemma HeldIsSeen(buckets: seq<seq<Snapshot>>, lastAt: seq<Option<Instant>>, retention: int, h: seq<Snapshot>, p: Snapshot)
    requires Tracks(buckets, lastAt, retention, h) && Holds(buckets, p)
    ensures p in h
  {
    var l: Level :| p in buckets[l];
    LevelsHold(buckets, lastAt, retention, h, l);
  }

  /** As long as the wall clock runs with the other, nothing is lost. */
  lemma NoStepNothingLost(buckets: seq<seq<Snapshot>>, lastAt: seq<Option<Instant>>, retention: int, h: seq<Snapshot>,
                          offset: int)
    requires Tracks(buckets, lastAt, retention, h) && forall a | a in h :: a.wall == a.at + offset
    ensures OneWallOneSnapshot(buckets)
  {
    forall p, q | Holds(buckets, p) && Holds(buckets, q) && p.wall == q.wall
      ensures p == q
    {
      HeldIsSeen(buckets, lastAt, retention, h, p);
      HeldIsSeen(buckets, lastAt, retention, h, q);
      HeldOnce(buckets, lastAt, retention, h, p, q);
    }
  }

  /** Two snapshots a second apart, the wall clock stepped back in between: both are kept, under one key. */
  lemma SteppedBackLoses(p: Snapshot, q: Snapshot) returns (buckets: seq<seq<Snapshot>>, lastAt: seq<Option<Instant>>)
    requires q.at == p.at + SECOND && q.wall == p.wall
    ensures Tracks(buckets, lastAt, 0, [p, q]) && !OneWallOneSnapshot(buckets)
  {
    var h := [p, q];
    KeptTwo(p, q);
    buckets := seq(LEVELS, (l: Level) => Window(Kept(h, l), Cutoff(0, Newest(h))));
    lastAt := seq(LEVELS, (l: Level) => Last(Kept(h, l)));
    assert p in buckets[0] && q in buckets[0];
    assert Holds(buckets, p) && Holds(buckets, q);
  }

  lemma KeptTwo(p: Snapshot, q: Snapshot)
    requires q.at == p.at + SECOND
    ensures Kept([p, q], 0) == [p, q] && Window([p, q], LOWEST) == [p, q]
  {
    ThinNext([], p, SECOND);
    ThinNext([p], q, SECOND);
    assert [] + [p] == [p] && [p] + [q] == [p, q];
  }
}
