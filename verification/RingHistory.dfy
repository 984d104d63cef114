/** What a ring of buckets answers after any history whatever, and to a question about any time (src/window.rs). */
module RingHistory {
  import opened Windows

  /** The bucket an entry lands in. */
  function Slot(s: Stamp, window: int): (i: int)
    requires window >= 1
    ensures 0 <= i < window
  {
    s.at % window
  }

  /** The entry is still in its bucket: nothing of another second has landed there since. */
  ghost predicate Survives(history: seq<Stamp>, window: int, j: nat)
    requires window >= 1 && j < |history|
  {
    forall k :: j < k < |history| && Slot(history[k], window) == Slot(history[j], window) ==>
      history[k].at == history[j].at
  }

  /** What survives of the first `n` entries, from after `now - window` on, later times included. */
  ghost function Surviving(history: seq<Stamp>, window: int, now: int, n: nat): nat
    requires window >= 1 && n <= |history|
  {
    if n == 0 then 0
    else
      Surviving(history, window, now, n - 1) +
      if Survives(history, window, n - 1) && history[n - 1].at > now - window then history[n - 1].amount else 0
  }

  /** What survives of the first `n` entries in bucket `i`. */
  ghost function InBucket(history: seq<Stamp>, window: int, i: nat, n: nat): nat
    requires window >= 1 && n <= |history|
  {
    if n == 0 then 0
    else
      InBucket(history, window, i, n - 1) +
      if Survives(history, window, n - 1) && Slot(history[n - 1], window) == i then history[n - 1].amount else 0
  }

  /** All that survives in bucket `i` is of one second. */
  ghost predicate OfSecond(history: seq<Stamp>, window: int, i: nat, sec: int)
    requires window >= 1
  {
    forall j :: 0 <= j < |history| && Survives(history, window, j) && Slot(history[j], window) == i ==>
      history[j].at == sec
  }

  lemma OfSecondAt(history: seq<Stamp>, window: int, i: nat, sec: int, j: nat)
    requires window >= 1 && j < |history| && OfSecond(history, window, i, sec)
    ensures Survives(history, window, j) && Slot(history[j], window) == i ==> history[j].at == sec
  {
  }

  lemma SurvivesOneMore(front: seq<Stamp>, last: Stamp, window: int, j: nat)
    requires window >= 1 && j < |front|
    ensures Survives(front + [last], window, j) <==>
            Survives(front, window, j) && (Slot(last, window) == Slot(front[j], window) ==> last.at == front[j].at)
  {
    hide Slot;
    var history := front + [last];
    assert history[|front|] == last && history[j] == front[j];
    if Survives(history, window, j) {
      forall k | j < k < |front| && Slot(front[k], window) == Slot(front[j], window)
        ensures front[k].at == front[j].at
      {
        assert history[k] == front[k];
      }
    }
  }

  lemma LastSurvives(front: seq<Stamp>, last: Stamp, window: int)
    requires window >= 1
    ensures Survives(front + [last], window, |front|)
  {
  }

  /** One more entry takes out of its own bucket what is of another second, and touches no other bucket. */
  lemma {:induction false} InBucketOneMore(front: seq<Stamp>, last: Stamp, window: int, i: nat, sec: int, n: nat)
    requires window >= 1 && n <= |front| && OfSecond(front, window, i, sec)
    ensures InBucket(front + [last], window, i, n) ==
            if Slot(last, window) == i && last.at != sec then 0 else InBucket(front, window, i, n)
  {
    hide Survives, OfSecond, Slot;
    if n > 0 {
      InBucketOneMore(front, last, window, i, sec, n - 1);
      SurvivesOneMore(front, last, window, n - 1);
      OfSecondAt(front, window, i, sec, n - 1);
      assert (front + [last])[n - 1] == front[n - 1];
    }
  }

  lemma {:induction false} SurvivingOneMore(
    front: seq<Stamp>, last: Stamp, window: int, now: int, sec: int, n: nat)
    requires window >= 1 && n <= |front| && OfSecond(front, window, Slot(last, window), sec)
    ensures Surviving(front + [last], window, now, n) == Surviving(front, window, now, n) -
            if sec != last.at && sec > now - window then InBucket(front, window, Slot(last, window), n) else 0
  {
    hide Survives, OfSecond, Slot;
    if n > 0 {
      SurvivingOneMore(front, last, window, now, sec, n - 1);
      SurvivesOneMore(front, last, window, n - 1);
      OfSecondAt(front, window, Slot(last, window), sec, n - 1);
      assert (front + [last])[n - 1] == front[n - 1];
    }
  }

  lemma OfSecondOneMore(front: seq<Stamp>, last: Stamp, window: int, i: nat, sec: int)
    requires window >= 1 && OfSecond(front, window, i, sec)
    ensures OfSecond(front + [last], window, i, if Slot(last, window) == i then last.at else sec)
  {
    hide Slot;
    var history := front + [last];
    forall j | 0 <= j < |history| && Survives(history, window, j) && Slot(history[j], window) == i
      ensures history[j].at == if Slot(last, window) == i then last.at else sec
    {
      if j < |front| {
        SurvivesOneMore(front, last, window, j);
        assert history[j] == front[j];
      }
    }
  }

  /** Each bucket holds exactly what survives in it, and is stamped with its second. */
  lemma {:induction false} BucketIsWhatSurvives(window: int, history: seq<Stamp>, i: nat)
    requires window >= 1 && i < window
    ensures var r := RateAfter(window, history);
      && r.Size() == window
      && r.buckets[i] == InBucket(history, window, i, |history|)
      && OfSecond(history, window, i, r.secs[i])
  {
    if history != [] {
      var front, last := history[..|history| - 1], history[|history| - 1];
      BucketIsWhatSurvives(window, front, i);
      var r := RateAfter(window, front);
      assert history == front + [last];
      hide RateAfter, OfSecond;
      InBucketOneMore(front, last, window, i, r.secs[i], |front|);
      OfSecondOneMore(front, last, window, i, r.secs[i]);
      LastSurvives(front, last, window);
      hide Survives;
    }
  }

  lemma FreshTotal(window: int, now: int)
    requires window >= 1
    ensures RateTotal(NewRate(window), now) == 0
  {
    EmptySum(NewRate(window), now, window);
  }

  /**
   * For every history, in any order and with any gaps, and for every time, before or after the entries: the total is
   * the sum of the entries after `now - window` that are still in their buckets.
   */
  lemma {:induction false} TotalIsWhatSurvives(window: int, history: seq<Stamp>, now: int)
    requires window >= 1
    ensures RateTotal(RateAfter(window, history), now) == Surviving(history, window, now, |history|)
  {
    if history == [] {
      FreshTotal(window, now);
    } else {
      var front, last := history[..|history| - 1], history[|history| - 1];
      var r, i := RateAfter(window, front), Slot(last, window);
      TotalIsWhatSurvives(window, front, now);
      BucketIsWhatSurvives(window, front, i);
      assert history == front + [last] && RateAfter(window, history) == RateAdd(r, last.at, last.amount);
      hide RateAfter, OfSecond;
      SurvivingOneMore(front, last, window, now, r.secs[i], |front|);
      LastSurvives(front, last, window);
      hide Survives;
      SumBucketsUpdate(r, RateAdd(r, last.at, last.amount), now, i, |r.buckets|);
    }
  }

  /** Entries of the first `n` later than `now` that are still in their buckets: a total at `now` counts them too. */
  ghost function Ahead(history: seq<Stamp>, window: int, now: int, n: nat): nat
    requires window >= 1 && n <= |history|
  {
    if n == 0 then 0
    else
      Ahead(history, window, now, n - 1) +
      if Survives(history, window, n - 1) && history[n - 1].at > now then history[n - 1].amount else 0
  }

  /** Entries of the first `n` in the window whose bucket has been taken over: a total at `now` misses them. */
  ghost function Displaced(history: seq<Stamp>, window: int, now: int, n: nat): nat
    requires window >= 1 && n <= |history|
  {
    if n == 0 then 0
    else
      Displaced(history, window, now, n - 1) +
      if !Survives(history, window, n - 1) && now - window < history[n - 1].at <= now then history[n - 1].amount else 0
  }

  lemma {:induction false} SurvivingAgainstWindow(history: seq<Stamp>, window: int, now: int, n: nat)
    requires window >= 1 && n <= |history|
    ensures Surviving(history, window, now, n) + Displaced(history, window, now, n) ==
            WindowSum(history[..n], now, window) + Ahead(history, window, now, n)
  {
    if n > 0 {
      hide Survives;
      SurvivingAgainstWindow(history, window, now, n - 1);
      assert history[..n][..n - 1] == history[..n - 1];
    }
  }

  /**
   * So the total at any time, after any history, is the sum over its window plus what the ring holds of later times
   * less what other seconds have displaced; and it is exact if and only if these two are equal.
   */
  lemma TotalAgainstHistory(window: int, history: seq<Stamp>, now: int)
    requires window >= 1
    ensures var ahead, displaced :=
              Ahead(history, window, now, |history|), Displaced(history, window, now, |history|);
      var total, sum := RateTotal(RateAfter(window, history), now), WindowSum(history, now, window);
      total + displaced == sum + ahead && (total == sum <==> ahead == displaced)
  {
    hide RateTotal, RateAfter, WindowSum, Ahead, Displaced, Surviving;
    TotalIsWhatSurvives(window, history, now);
    SurvivingAgainstWindow(history, window, now, |history|);
    assert history[..|history|] == history;
  }

  /** In particular what an add itself returns, however late it is: the total at its own time, itself included. */
  lemma ReturnedTotalIff(window: int, history: seq<Stamp>, late: Stamp)
    requires window >= 1
    ensures var after := history + [late];
      var r := RateAdd(RateAfter(window, history), late.at, late.amount);
      RateTotal(r, late.at) == WindowSum(after, late.at, window) <==>
      Ahead(after, window, late.at, |after|) == Displaced(after, window, late.at, |after|)
  {
    var after := history + [late];
    assert after[..|after| - 1] == history && after[|after| - 1] == late;
    assert RateAfter(window, after) == RateAdd(RateAfter(window, history), late.at, late.amount);
    hide RateTotal, RateAfter, RateAdd, WindowSum, Ahead, Displaced;
    TotalAgainstHistory(window, after, late.at);
  }
}
