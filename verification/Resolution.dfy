/**
 What each level of the metrics series holds, in numbers.
 */
module Resolution {
  import opened Series
  import opened Words

  /** A level takes a snapshot exactly when it and every finer one had nothing within its interval before:
      a second, fifteen, five minutes, an hour. */
  lemma {:induction false} TakesExactly(h: seq<Snapshot>, s: Snapshot, l: Level)
    ensures Takes(h, s, l) <==> forall k: Level | k <= l :: var kept := Kept(h, k);
      kept == [] || s.at - kept[|kept| - 1].at >= [1_000_000_000, 15_000_000_000, 300_000_000_000, 3_600_000_000_000][k]
    decreases l
  {
    IntervalsAre();
    if l > 0 { TakesExactly(h, s, l - 1); }
    assert DueAfter(Last(Kept(h, l)), s.at, Interval(l)) <==>
      Kept(h, l) == [] || s.at - Kept(h, l)[|Kept(h, l)| - 1].at >= Interval(l);
  }

  lemma IntervalsAre()
    ensures forall k: Level :: Interval(k) == [1_000_000_000, 15_000_000_000, 300_000_000_000, 3_600_000_000_000][k]
  {
  }

  lemma {:induction false} NewestIsThere(h: seq<Snapshot>)
    requires h != []
    ensures exists a | a in h :: a.at == Newest(h)
    decreases |h|
  {
    var front, last := h[..|h| - 1], h[|h| - 1];
    if front == [] {
      assert Newest(front) == LOWEST && last in h && last.at == Newest(h);
    } else if last.at > Newest(front) {
      assert last in h;
    } else {
      NewestIsThere(front);
      var a :| a in front && a.at == Newest(front);
      assert a in h;
    }
  }

  /** Of what it took, a level holds exactly the last 120, and of those what the retention still covers. */
  lemma HoldsExactly(buckets: seq<seq<Snapshot>>, lastAt: seq<Option<Instant>>, retention: int, h: seq<Snapshot>, l: Level, i: nat)
    requires Tracks(buckets, lastAt, retention, h) && i < |Kept(h, l)|
    ensures var kept := Kept(h, l);
      kept[i] in buckets[l] <==> |kept| - i <= 120 && (retention > 0 ==> forall a | a in h :: kept[i].at >= a.at - retention)
    ensures |buckets| == 4
  {
    var kept, cutoff := Kept(h, l), Cutoff(retention, Newest(h));
    KeptIncreases(h, l);
    KeptIsPart(h, l);
    InWindow(kept, cutoff, i);
    NewestIsNewest(h);
    assert kept[i] in h;
    NewestIsThere(h);
    assert buckets[l] == Window(kept, cutoff);
    var n :| n in h && n.at == Newest(h);
    assert retention > 0 ==> (kept[i].at >= cutoff <==> forall a | a in h :: kept[i].at >= a.at - retention);
  }

  lemma InWindow(kept: seq<Snapshot>, cutoff: int, i: nat)
    requires Spaced(kept, 1) && i < |kept|
    ensures kept[i] in Window(kept, cutoff) <==> |kept| - i <= 120 && kept[i].at >= cutoff
  {
    var j := StartOfWindow(kept, cutoff);
    if i >= j {
      assert kept[j..][i - j] == kept[i];
    }
  }
}
