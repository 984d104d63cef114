/**
 * Sliding-window primitives: a quantity per window, distinct keys per window, and a minimum
 * interval between repeats, each proved equal to a sum, a count or a scan over full history.
 */
module Windows {
  import opened Base

  /** The stamp of a bucket nothing was ever added to. */
  const NEVER: int := -0x8000_0000_0000_0000
  const PRUNE_INTERVAL_SECS: int := 1

  // ----- RateWindow -----

  /** A ring of per-second buckets. */
  datatype Rate = Rate(buckets: seq<nat>, secs: seq<int>)
  {
    predicate Valid() { |buckets| == |secs| > 0 }
    function Size(): int { |buckets| }
  }

  function NewRate(windowSecs: int): (r: Rate)
    ensures r.Valid()
  {
    var n := Max(windowSecs, 1);
    Rate(seq(n, _ => 0), seq(n, _ => NEVER))
  }

  function RateAdd(r: Rate, now: int, amount: nat): (added: Rate)
    requires r.Valid()
    ensures added.Valid() && added.Size() == r.Size()
  {
    var i := now % r.Size();
    var base := if r.secs[i] == now then r.buckets[i] else 0;
    Rate(r.buckets[i := base + amount], r.secs[i := now])
  }

  /** What bucket `i` contributes to the window ending at `now`. */
  function BucketIn(r: Rate, now: int, i: nat): nat
    requires r.Valid() && i < |r.buckets|
  {
    if r.secs[i] > now - r.Size() then r.buckets[i] else 0
  }

  function SumBuckets(r: Rate, now: int, n: nat): nat
    requires r.Valid() && n <= |r.buckets|
  {
    if n == 0 then 0 else SumBuckets(r, now, n - 1) + BucketIn(r, now, n - 1)
  }

  function RateTotal(r: Rate, now: int): nat
    requires r.Valid()
  {
    SumBuckets(r, now, |r.buckets|)
  }

  /** Something that happened: when, and how much of it. */
  datatype Stamp = Stamp(at: int, amount: nat)

  /** The sum of the amounts stamped in (now - window, now], over a whole history. */
  function WindowSum(history: seq<Stamp>, now: int, window: int): nat {
    if history == [] then 0
    else
      var last := history[|history| - 1];
      WindowSum(history[..|history| - 1], now, window) +
      if now - window < last.at <= now then last.amount else 0
  }

  /** Each bucket in use is stamped with a second that belongs in it, no later than `last`. */
  ghost predicate RateConsistent(r: Rate, last: int) {
    && r.Valid()
    && forall i :: 0 <= i < |r.buckets| ==> r.buckets[i] == 0 || (r.secs[i] % r.Size() == i && r.secs[i] <= last)
  }

  /** The ring answers for every later time as the whole history would. */
  ghost predicate RateMatches(r: Rate, window: int, history: seq<Stamp>, last: int) {
    && RateConsistent(r, last) && r.Size() == window
    && forall now :: now >= last ==> RateTotal(r, now) == WindowSum(history, now, window)
  }

  lemma {:induction false} SumBucketsUpdate(r: Rate, s: Rate, now: int, i: nat, n: nat)
    requires r.Valid() && s.Valid() && r.Size() == s.Size() && n <= |r.buckets|
    requires i < |r.buckets|
    requires forall j :: 0 <= j < |r.buckets| && j != i ==> r.buckets[j] == s.buckets[j] && r.secs[j] == s.secs[j]
    ensures SumBuckets(s, now, n) - SumBuckets(r, now, n) ==
      if i < n then BucketIn(s, now, i) - BucketIn(r, now, i) else 0
  {
    if n > 0 {
      SumBucketsUpdate(r, s, now, i, n - 1);
    }
  }

  /** Distinct seconds that share a bucket are at least a lap apart. */
  lemma CongruentApart(a: int, b: int, n: int)
    requires n > 0 && a % n == b % n && a < b
    ensures a <= b - n
  {
    var p, q := a / n, b / n;
    assert a == p * n + a % n && b == q * n + b % n;
    if q <= p {
      MultiplesKept(p, q, n);
    } else {
      MultiplesApart(q, p, n);
    }
  }

  /** Reusing a bucket never loses a second that a later window still covers. */
  lemma RateAddMatches(r: Rate, window: int, history: seq<Stamp>, last: int, at: int, amount: nat)
    requires RateMatches(r, window, history, last) && last <= at
    ensures RateMatches(RateAdd(r, at, amount), window, history + [Stamp(at, amount)], at)
  {
    var s, i := RateAdd(r, at, amount), at % window;
    forall now | now >= at
      ensures RateTotal(s, now) == WindowSum(history + [Stamp(at, amount)], now, window)
    {
      SumBucketsUpdate(r, s, now, i, |r.buckets|);
      if r.buckets[i] != 0 && r.secs[i] != at {
        CongruentApart(r.secs[i], at, window);
      }
      assert (history + [Stamp(at, amount)])[..|history|] == history;
    }
  }

  lemma {:induction false} EmptySum(r: Rate, now: int, n: nat)
    requires r.Valid() && n <= |r.buckets| && forall i :: 0 <= i < |r.buckets| ==> r.buckets[i] == 0
    ensures SumBuckets(r, now, n) == 0
  {
    if n > 0 {
      EmptySum(r, now, n - 1);
    }
  }

  lemma {:induction false} StaleSum(history: seq<Stamp>, now: int, window: int)
    requires forall i :: 0 <= i < |history| ==> history[i].at <= now - window
    ensures WindowSum(history, now, window) == 0
  {
    if history != [] {
      StaleSum(history[..|history| - 1], now, window);
    }
  }

  /** A fresh ring stands for any history that has wholly left the window. */
  lemma NewRateMatches(window: int, history: seq<Stamp>, last: int)
    requires window >= 1
    requires forall i :: 0 <= i < |history| ==> history[i].at <= last - window
    ensures RateMatches(NewRate(window), window, history, last)
  {
    forall now | now >= last
      ensures RateTotal(NewRate(window), now) == WindowSum(history, now, window)
    {
      EmptySum(NewRate(window), now, window);
      StaleSum(history, now, window);
    }
  }

  ghost predicate Chronological(history: seq<Stamp>) {
    forall i, j :: 0 <= i < j < |history| ==> history[i].at <= history[j].at
  }

  function RateAfter(window: int, history: seq<Stamp>): (r: Rate)
    ensures r.Valid()
  {
    if history == [] then NewRate(window)
    else
      var last := history[|history| - 1];
      RateAdd(RateAfter(window, history[..|history| - 1]), last.at, last.amount)
  }

  /**
   * For every chronological history, however long and whatever gaps it has, the total the ring
   * returns is exactly the sum of the amounts stamped inside the window.
   */
  lemma {:induction false} RateWindowIsExact(window: int, history: seq<Stamp>)
    requires window >= 1 && Chronological(history)
    ensures RateMatches(RateAfter(window, history), window, history,
                        if history == [] then NEVER else history[|history| - 1].at)
  {
    if history == [] {
      NewRateMatches(window, history, NEVER);
    } else {
      var front, last := history[..|history| - 1], history[|history| - 1];
      RateWindowIsExact(window, front);
      assert front + [last] == history;
      if front == [] {
        NewRateMatches(window, front, last.at);
      }
      RateAddMatches(RateAfter(window, front), window, front,
                     if front == [] then last.at else front[|front| - 1].at, last.at, last.amount);
    }
  }

  /**
   * Out of order the ring can lose a newer second. Whatever the amount, an add at `at` changes the total in the
   * window of `now` by exactly what that window should see of it if and only if the bucket it lands in is its own,
   * empty, or already out of that window.
   */
  lemma LateAddKeepsTotalIff(r: Rate, at: int, amount: nat, now: int)
    requires r.Valid()
    ensures var i := at % r.Size();
      RateTotal(RateAdd(r, at, amount), now) == RateTotal(r, now) + (if at > now - r.Size() then amount else 0) <==>
      (r.secs[i] == at || r.buckets[i] == 0 || r.secs[i] <= now - r.Size())
  {
    var s, i := RateAdd(r, at, amount), at % r.Size();
    SumBucketsUpdate(r, s, now, i, |r.buckets|);
  }

  /** What a bucket holds: everything stamped in the newest second of the history that belongs in it. */
  ghost predicate BucketHolds(r: Rate, window: int, history: seq<Stamp>, i: nat)
    requires r.Valid() && i < |r.secs|
    requires window >= 1
  {
    && r.buckets[i] == (if r.secs[i] % window == i then WindowSum(history, r.secs[i], 1) else 0)
    && (forall j :: 0 <= j < |history| && history[j].at % window == i ==> history[j].at <= r.secs[i])
    && ((forall j :: 0 <= j < |history| ==> history[j].at % window != i) ||
        (exists j :: 0 <= j < |history| && history[j].at == r.secs[i] && history[j].at % window == i))
  }

  /** The sum over one second is the sum of its stamps: positive exactly when one of them is. */
  lemma {:induction false} OneSecond(history: seq<Stamp>, at: int)
    ensures WindowSum(history, at, 1) > 0 <==>
      exists j :: 0 <= j < |history| && history[j].at == at && history[j].amount > 0
  {
    if history != [] {
      var front, last := history[..|history| - 1], history[|history| - 1];
      OneSecond(front, at);
      if j :| 0 <= j < |history| && history[j].at == at && history[j].amount > 0 {
        assert j < |front| ==> front[j] == history[j];
      }
      if WindowSum(front, at, 1) > 0 {
        var j :| 0 <= j < |front| && front[j].at == at && front[j].amount > 0;
        assert history[j] == front[j];
      }
    }
  }

  lemma ChronologicalFront(history: seq<Stamp>)
    requires Chronological(history) && history != []
    ensures Chronological(history[..|history| - 1])
  {
  }

  lemma {:induction false} RingContents(window: int, history: seq<Stamp>, i: nat)
    requires window >= 1 && Chronological(history) && i < window
    ensures var r := RateAfter(window, history); r.Size() == window && BucketHolds(r, window, history, i)
  {
    if history != [] {
      var front, last := history[..|history| - 1], history[|history| - 1];
      ChronologicalFront(history);
      hide BucketHolds, Chronological;
      RingContents(window, front, i);
      var r := RateAfter(window, front);
      hide RateAfter, RateAdd;
      BucketStep(r, window, front, last, i);
      assert front + [last] == history;
    }
  }

  lemma BucketStep(r: Rate, window: int, front: seq<Stamp>, last: Stamp, i: nat)
    requires r.Valid() && window >= 1 && r.Size() == window && i < window
    requires Chronological(front + [last]) && BucketHolds(r, window, front, i)
    ensures BucketHolds(RateAdd(r, last.at, last.amount), window, front + [last], i)
  {
    var history := front + [last];
    forall j | 0 <= j < |front|
      ensures history[j] == front[j] && front[j].at <= last.at
    {
      assert history[|front|] == last;
    }
    if last.at % window == i {
      OwnBucketStep(r, window, front, last, i);
    } else {
      OtherBucketStep(r, RateAdd(r, last.at, last.amount), window, front, last, i);
    }
  }

  lemma OwnBucketStep(r: Rate, window: int, front: seq<Stamp>, last: Stamp, i: nat)
    requires r.Valid() && window >= 1 && r.Size() == window && i < window
    requires BucketHolds(r, window, front, i) && last.at % window == i
    requires forall j :: 0 <= j < |front| ==> front[j].at <= last.at
    ensures BucketHolds(RateAdd(r, last.at, last.amount), window, front + [last], i)
  {
    var s, history := RateAdd(r, last.at, last.amount), front + [last];
    assert history[..|front|] == front;
    assert s.secs[i] == last.at && history[|front|].at == s.secs[i];
    if r.secs[i] != last.at {
      OneSecond(front, last.at);
      assert WindowSum(front, last.at, 1) == 0;
    }
    assert WindowSum(history, last.at, 1) == WindowSum(front, last.at, 1) + last.amount;
  }

  lemma OtherBucketStep(r: Rate, s: Rate, window: int, front: seq<Stamp>, last: Stamp, i: nat)
    requires r.Valid() && s.Valid() && window >= 1 && r.Size() == s.Size() == window && i < window
    requires BucketHolds(r, window, front, i) && last.at % window != i
    requires s.secs[i] == r.secs[i] && s.buckets[i] == r.buckets[i]
    ensures BucketHolds(s, window, front + [last], i)
  {
    var history := front + [last];
    assert history[..|front|] == front && history[|front|] == last;
    forall j | 0 <= j < |front|
      ensures history[j] == front[j]
    {
    }
    if j :| 0 <= j < |front| && front[j].at == r.secs[i] && front[j].at % window == i {
      assert history[j].at == s.secs[i];
    }
  }

  /** A later second that shares the late stamp's bucket is still in the window, and something was added in it. */
  ghost predicate Shadowed(history: seq<Stamp>, at: int, now: int, window: int)
    requires window >= 1
  {
    exists j :: 0 <= j < |history|
                && history[j].amount > 0 && at < history[j].at && history[j].at % window == at % window &&
                  history[j].at > now - window
  }

  /**
   * One late add to a history in order: the ring's total stays the sum over the history exactly when no later second
   * that the window still covers shares the bucket; otherwise it loses that second.
   */
  lemma LateAddIsExactIff(window: int, history: seq<Stamp>, late: Stamp, now: int)
    requires window >= 1 && Chronological(history) && history != []
    requires late.at <= history[|history| - 1].at <= now
    ensures RateTotal(RateAfter(window, history + [late]), now) == WindowSum(history + [late], now, window) <==>
            !Shadowed(history, late.at, now, window)
  {
    var r, i := RateAfter(window, history), late.at % window;
    assert (history + [late])[..|history|] == history;
    RateWindowIsExact(window, history);
    RingContents(window, history, i);
    LateAddKeepsTotalIff(r, late.at, late.amount, now);
    hide RateAfter;
    assert RateTotal(r, now) == WindowSum(history, now, window);
    ShadowedIff(r, window, history, late.at, now);
  }

  lemma ShadowedIff(r: Rate, window: int, history: seq<Stamp>, at: int, now: int)
    requires window >= 1 && r.Valid() && r.Size() == window && Chronological(history) && history != []
    requires at <= history[|history| - 1].at <= now
    requires BucketHolds(r, window, history, at % window) && RateConsistent(r, now)
    ensures var i := at % window;
            Shadowed(history, at, now, window) <==> r.secs[i] != at && r.buckets[i] > 0 && r.secs[i] > now - window
  {
    var i := at % window;
    if j :| 0 <= j < |history| && history[j].amount > 0 && at < history[j].at
            && history[j].at % window == at % window && history[j].at > now - window {
      assert history[j].at <= r.secs[i];
      ShadowBucket(r, window, history, i, j, now);
    }
    if r.secs[i] != at && r.buckets[i] > 0 && r.secs[i] > now - window {
      OneSecond(history, r.secs[i]);
      var j :| 0 <= j < |history| && history[j].at == r.secs[i] && history[j].amount > 0;
      if history[j].at < at {
        CongruentApart(history[j].at, at, window);
      }
    }
  }

  lemma ShadowBucket(r: Rate, window: int, history: seq<Stamp>, i: nat, j: nat, now: int)
    requires window >= 1 && r.Valid() && r.Size() == window && i < window && j < |history|
    requires Chronological(history) && history[|history| - 1].at <= now
    requires BucketHolds(r, window, history, i)
    requires history[j].amount > 0 && history[j].at % window == i && history[j].at > now - window
    ensures r.secs[i] == history[j].at && r.buckets[i] > 0
  {
    var k :| 0 <= k < |history| && history[k].at == r.secs[i] && history[k].at % window == i;
    assert history[k].at <= history[|history| - 1].at;
    if history[j].at < r.secs[i] {
      CongruentApart(history[j].at, r.secs[i], window);
    }
    OneSecond(history, r.secs[i]);
  }

  /** Such a history: with a window of two seconds, an add stamped two seconds late wipes out five. */
  lemma LateAddLosesASecond()
    ensures RateTotal(RateAfter(2, [Stamp(2, 5), Stamp(0, 1)]), 2) != WindowSum([Stamp(2, 5), Stamp(0, 1)], 2, 2)
  {
    var history, late := [Stamp(2, 5)], Stamp(0, 1);
    assert history + [late] == [Stamp(2, 5), Stamp(0, 1)];
    assert history[0].amount > 0;
    assert Shadowed(history, 0, 2, 2);
    hide RateAfter, RateTotal, WindowSum;
    LateAddIsExactIff(2, history, late, 2);
  }

  class RateWindow {
    const buckets: array<nat>
    const secs: array<int>

    ghost predicate Valid()
      reads this
    {
      buckets.Length == secs.Length > 0 && buckets as object != secs
    }

    ghost function View(): Rate
      reads this, buckets, secs
    {
      Rate(buckets[..], secs[..])
    }

    constructor (windowSecs: int)
      ensures Valid() && fresh(buckets) && fresh(secs)
      ensures View() == NewRate(windowSecs)
    {
      var n := Max(windowSecs, 1);
      buckets := new nat[n](_ => 0);
      secs := new int[n](_ => NEVER);
    }

    method Add(now: int, amount: nat) returns (total: nat)
      requires Valid()
      modifies buckets, secs
      ensures View() == RateAdd(old(View()), now, amount)
      ensures total == RateTotal(View(), now)
    {
      var n := buckets.Length;
      var i := now % n;
      if secs[i] != now {
        secs[i] := now;
        buckets[i] := 0;
      }
      buckets[i] := buckets[i] + amount;
      total := Total(now);
    }

    method Total(now: int) returns (total: nat)
      requires Valid()
      ensures total == RateTotal(View(), now)
    {
      var cutoff := now - buckets.Length;
      total := 0;
      var i := 0;
      while i < buckets.Length
        invariant 0 <= i <= buckets.Length
        invariant total == SumBuckets(View(), now, i)
      {
        if secs[i] > cutoff {
          total := total + buckets[i];
        }
        i := i + 1;
      }
    }
  }

  // ----- WindowSet -----

  /** Keys with the time each was last seen. */
  datatype Distinct<!K(==)> = Distinct(seen: map<K, int>, lastPruned: int, cap: nat, refused: nat)

  function NewDistinct<K>(cap: nat): Distinct<K> {
    Distinct(map[], 0, Max(cap, 1), 0)
  }

  /** Drops what has left the window, at most once per second. */
  function Pruned<K>(w: Distinct<K>, now: int, window: int): Distinct<K> {
    if now - w.lastPruned >= PRUNE_INTERVAL_SECS then
      w.(lastPruned := now, seen := map k | k in w.seen && w.seen[k] > now - window :: w.seen[k])
    else w
  }

  predicate InsertRefused<K>(w: Distinct<K>, key: K, now: int, window: int) {
    var p := Pruned(w, now, window);
    |p.seen| >= p.cap && key !in p.seen
  }

  function Inserted<K>(w: Distinct<K>, key: K, now: int, window: int): Distinct<K> {
    var p := Pruned(w, now, window);
    if InsertRefused(w, key, now, window) then p.(refused := p.refused + 1)
    else p.(seen := p.seen[key := now])
  }

  datatype Sighting<K> = Sighting(key: K, at: int)

  /** The keys seen in (now - window, now], over a whole history. */
  function LiveKeys<K>(history: seq<Sighting<K>>, now: int, window: int): set<K> {
    set i | 0 <= i < |history| && now - window < history[i].at <= now :: history[i].key
  }

  /** The pruned table still answers for every later time as the whole history would. */
  ghost predicate DistinctMatches<K(!new)>(w: Distinct<K>, window: int, history: seq<Sighting<K>>, last: int) {
    && 0 <= w.lastPruned <= last
    && (forall k :: k in w.seen ==>
          w.lastPruned - window < w.seen[k] <= last && Sighting(k, w.seen[k]) in history)
    && (forall i :: 0 <= i < |history| ==>
          history[i].at <= last &&
          (history[i].at > last - window ==> history[i].key in w.seen && w.seen[history[i].key] >= history[i].at))
  }

  /** A fresh table stands for any history that has wholly left the window. */
  lemma NewDistinctMatches<K(!new)>(cap: nat, window: int, history: seq<Sighting<K>>, last: int)
    requires last >= 0
    requires window >= 0 && forall i :: 0 <= i < |history| ==> history[i].at <= last - window
    ensures DistinctMatches(NewDistinct<K>(cap), window, history, last)
  {
  }

  lemma DistinctMatchesLater<K(!new)>(w: Distinct<K>, window: int, history: seq<Sighting<K>>, last: int, later: int)
    requires DistinctMatches(w, window, history, last) && last <= later
    ensures DistinctMatches(w, window, history, later)
  {
  }

  /** After pruning, exactly the live keys are left. */
  lemma PrunedKeysAreLive<K(!new)>(w: Distinct<K>, window: int, history: seq<Sighting<K>>, last: int, now: int)
    requires DistinctMatches(w, window, history, last) && last <= now && window >= 1
    ensures Pruned(w, now, window).seen.Keys == LiveKeys(history, now, window)
    ensures DistinctMatches(Pruned(w, now, window), window, history, now)
  {
    var p := Pruned(w, now, window);
    forall k | k in p.seen
      ensures k in LiveKeys(history, now, window)
    {
      assert k in w.seen && Sighting(k, w.seen[k]) in history;
      var i :| 0 <= i < |history| && history[i] == Sighting(k, w.seen[k]);
    }
  }

  lemma LiveKeysGrow<K>(history: seq<Sighting<K>>, key: K, now: int, window: int)
    requires window >= 1
    ensures LiveKeys(history + [Sighting(key, now)], now, window) == LiveKeys(history, now, window) + {key}
  {
    var longer := history + [Sighting(key, now)];
    forall k | k in LiveKeys(history, now, window)
      ensures k in LiveKeys(longer, now, window)
    {
      var i :| 0 <= i < |history| && now - window < history[i].at <= now && history[i].key == k;
      assert longer[i] == history[i];
    }
    assert longer[|history|] == Sighting(key, now);
  }

  lemma RecordMatches<K(!new)>(p: Distinct<K>, window: int, history: seq<Sighting<K>>, key: K, now: int)
    requires DistinctMatches(p, window, history, now) && window >= 1
    ensures DistinctMatches(p.(seen := p.seen[key := now]), window, history + [Sighting(key, now)], now)
  {
    var longer := history + [Sighting(key, now)];
    assert forall g :: g in history ==> g in longer;
    assert longer[|history|] == Sighting(key, now);
  }

  /**
   * The count returned by an insert that is not refused is exactly the number of distinct keys
   * whose latest insertion is inside the window, once-a-second pruning notwithstanding.
   */
  lemma InsertIsExact<K(!new)>(w: Distinct<K>, window: int, history: seq<Sighting<K>>, last: int, key: K, now: int)
    requires DistinctMatches(w, window, history, last) && last <= now && window >= 1
    requires !InsertRefused(w, key, now, window)
    ensures var after := Inserted(w, key, now, window);
      && DistinctMatches(after, window, history + [Sighting(key, now)], now)
      && |after.seen| == |LiveKeys(history + [Sighting(key, now)], now, window)|
  {
    hide LiveKeys, DistinctMatches, Pruned;
    PrunedKeysAreLive(w, window, history, last, now);
    LiveKeysGrow(history, key, now, window);
    RecordMatches(Pruned(w, now, window), window, history, key, now);
    assert Inserted(w, key, now, window).seen.Keys == LiveKeys(history + [Sighting(key, now)], now, window);
  }

  /** Something was just inserted or refused, so the table is never empty. */
  lemma InsertNeverEmpty<K>(w: Distinct<K>, key: K, now: int, window: int)
    requires w.cap >= 1
    ensures |Inserted(w, key, now, window).seen| > 0
  {
    assert !InsertRefused(w, key, now, window) ==> key in Inserted(w, key, now, window).seen;
  }

  class WindowSet<!K(==)> {
    var seen: map<K, int>
    var lastPruned: int
    const cap: nat
    var refused: nat

    ghost function View(): Distinct<K>
      reads this
    {
      Distinct(seen, lastPruned, cap, refused)
    }

    constructor (c: nat)
      ensures View() == NewDistinct(c)
    {
      seen, lastPruned, cap, refused := map[], 0, Max(c, 1), 0;
    }

    method Insert(key: K, now: int, window: int) returns (live: nat)
      modifies this
      ensures View() == Inserted(old(View()), key, now, window)
      ensures live == |View().seen|
    {
      if now - lastPruned >= PRUNE_INTERVAL_SECS {
        lastPruned := now;
        var cutoff := now - window;
        seen := map k | k in seen && seen[k] > cutoff :: seen[k];
      }
      if |seen| >= cap && key !in seen {
        refused := refused + 1;
        return |seen|;
      }
      seen := seen[key := now];
      return |seen|;
    }
  }

  // ----- AlertGate -----

  /** Whether a repeat is allowed, given when the last one was. */
  function Allows(last: Option<int>, now: int, minInterval: int): bool {
    last == None || now - last.value >= minInterval
  }

  class AlertGate {
    var last: Option<int>

    constructor ()
      ensures last == None
    {
      last := None;
    }

    method Allow(now: int, minInterval: int) returns (allowed: bool)
      modifies this
      ensures allowed == Allows(old(last), now, minInterval)
      ensures last == if allowed then Some(now) else old(last)
    {
      var blocked := last.Some? && now - last.value < minInterval;
      if blocked {
        return false;
      }
      last := Some(now);
      return true;
    }
  }
}
