/**
 * The order in which observations reach the aggregator (src/behavior.rs, `Observation::total_cmp` and
 * `run_behavior_engine`): sorted as a whole in replay, and inside a short window on a live capture.
 */
module Reordering {
  import opened Base
  import opened Observations

  const LIVE_REORDER_SECS := 2
  const MAX_ORDERED_OBSERVATIONS := 2_000_000

  const I64_MIN := -0x8000_0000_0000_0000
  const I64_MAX := 0x7fff_ffff_ffff_ffff
  const U64_RANGE := 0x1_0000_0000_0000_0000

  // ---------------------------------------------------------------- the order

  function Kind(o: Observation): nat {
    match o
    case AuthAttempt(_, _, _, _, _) => 0
    case AuthFailure(_, _, _, _, _) => 1
    case Flow(_, _, _, _, _, _, _) => 2
    case DnsQuery(_, _, _, _) => 3
    case Volume(_, _, _) => 4
    case Traffic(_, _, _, _, _, _) => 5
  }

  function Destination(o: Observation): IpAddr {
    if o.Volume? then UNSPECIFIED else o.dst
  }

  /** `(bytes_in << 1) | answered` in 64 bits. */
  function Packed(bytesIn: nat, answered: bool): nat {
    (bytesIn * 2) % U64_RANGE + (if answered then 1 else 0)
  }

  lemma PackedIff(a: nat, x: bool, b: nat, y: bool)
    requires a < U64_RANGE && b < U64_RANGE
    ensures Packed(a, x) == Packed(b, y) <==>
            x == y && (a == b || a == b + U64_RANGE / 2 || b == a + U64_RANGE / 2)
  {
  }

  /** The port and the two counters. */
  function Numbers(o: Observation): (k: seq<int>)
    ensures |k| == 3
  {
    match o
    case AuthAttempt(_, _, _, port, _) => [port, 0, 0]
    case AuthFailure(_, _, _, port, _) => [port, 0, 0]
    case Flow(_, _, _, port, bytesOut, bytesIn, answered) => [port, bytesOut, Packed(bytesIn, answered)]
    case DnsQuery(_, _, _, _) => [0, 0, 0]
    case Volume(_, _, packets) => [0, packets, 0]
    case Traffic(_, _, _, port, bytesOut, bytesIn) => [port, bytesOut, bytesIn]
  }

  function Text(o: Observation): seq<byte> {
    match o
    case AuthAttempt(_, _, _, _, service) => service
    case AuthFailure(_, _, _, _, service) => service
    case DnsQuery(_, _, _, name) => name
    case _ => []
  }

  /** The tuple of the sort key, its parts laid end to end; every part but the last has a fixed length. */
  function SortKey(o: Observation): seq<int> {
    [o.ts, Kind(o)] + AddressKey(o.src) + AddressKey(Destination(o)) + Numbers(o) + Text(o)
  }

  predicate Le(o: Observation, p: Observation) {
    LexLe(SortKey(o), SortKey(p))
  }

  /** The comparison is a total order up to equal keys, and it compares times first. */
  lemma OrderIsTotal(o: Observation, p: Observation, q: Observation)
    ensures Le(o, o) && (Le(o, p) || Le(p, o))
    ensures Le(o, p) && Le(p, q) ==> Le(o, q)
    ensures Le(o, p) && Le(p, o) ==> SortKey(o) == SortKey(p)
    ensures Le(o, p) ==> o.ts <= p.ts
    ensures o.ts < p.ts ==> Le(o, p)
  {
    LexLeTotal(SortKey(o), SortKey(p));
    if Le(o, p) && Le(p, q) {
      LexLeTransitive(SortKey(o), SortKey(p), SortKey(q));
    }
  }

  lemma EqualKeysAgree(o: Observation, p: Observation)
    requires SortKey(o) == SortKey(p)
    ensures o.ts == p.ts && Kind(o) == Kind(p) && o.src == p.src && Destination(o) == Destination(p)
    ensures Numbers(o) == Numbers(p) && Text(o) == Text(p)
  {
    var a, b := [o.ts, Kind(o)], [p.ts, Kind(p)];
    SplitEqual(a + AddressKey(o.src) + AddressKey(Destination(o)) + Numbers(o), Text(o),
               b + AddressKey(p.src) + AddressKey(Destination(p)) + Numbers(p), Text(p));
    SplitEqual(a + AddressKey(o.src) + AddressKey(Destination(o)), Numbers(o),
               b + AddressKey(p.src) + AddressKey(Destination(p)), Numbers(p));
    SplitEqual(a + AddressKey(o.src), AddressKey(Destination(o)), b + AddressKey(p.src), AddressKey(Destination(p)));
    SplitEqual(a, AddressKey(o.src), b, AddressKey(p.src));
    AddressKeyInjective(o.src, p.src);
    AddressKeyInjective(Destination(o), Destination(p));
  }

  /** Counters fit the 64 bits they are kept in. */
  predicate Fits(o: Observation) {
    o.Flow? ==> o.bytesIn < U64_RANGE
  }

  predicate SameButReceived(o: Observation, p: Observation)
    requires o.Flow? && p.Flow?
  {
    Flow(o.ts, o.src, o.dst, o.dstPort, o.bytesOut, p.bytesIn, o.answered) == p
  }

  /**
   * Two observations tie exactly when they are identical, or are flows whose received bytes differ by the bit that
   * the shift drops.
   */
  lemma TiesAreIdenticalIff(o: Observation, p: Observation)
    requires Fits(o) && Fits(p)
    ensures SortKey(o) == SortKey(p) <==>
            || o == p
            || (o.Flow? && p.Flow? && SameButReceived(o, p) &&
                (o.bytesIn == p.bytesIn + U64_RANGE / 2 || p.bytesIn == o.bytesIn + U64_RANGE / 2))
  {
    if o.Flow? && p.Flow? {
      PackedIff(o.bytesIn, o.answered, p.bytesIn, p.answered);
    }
    if SortKey(o) == SortKey(p) {
      EqualKeysAgree(o, p);
      hide SortKey, AddressKey, Packed;
      assert Numbers(o)[0] == Numbers(p)[0] && Numbers(o)[1] == Numbers(p)[1] && Numbers(o)[2] == Numbers(p)[2];
    }
  }

  /** Below 2^63 received bytes, so ties are identical observations. */
  predicate Modest(o: Observation) {
    o.Flow? ==> o.bytesIn < U64_RANGE / 2
  }

  predicate AllModest(v: seq<Observation>) {
    forall i :: 0 <= i < |v| ==> Modest(v[i])
  }

  // ------------------------------------------------------------------ sorting

  predicate Ordered(v: seq<Observation>) {
    forall i, j :: 0 <= i < j < |v| ==> Le(v[i], v[j])
  }

  /** What an unstable sort promises. */
  ghost predicate SortOf(w: seq<Observation>, v: seq<Observation>) {
    Ordered(w) && multiset(w) == multiset(v)
  }

  lemma HeadIsLeast(v: seq<Observation>, o: Observation)
    requires Ordered(v) && o in v
    ensures Le(v[0], o)
  {
    OrderIsTotal(o, o, o);
  }

  lemma SameHead(v: seq<Observation>, w: seq<Observation>)
    requires Ordered(v) && Ordered(w) && multiset(v) == multiset(w) && v != [] && w != [] && AllModest(v)
    ensures v[0] == w[0]
  {
    hide Ordered, Le, SortKey;
    assert v[0] in multiset(w) && w[0] in multiset(v);
    HeadIsLeast(v, w[0]);
    HeadIsLeast(w, v[0]);
    OrderIsTotal(v[0], w[0], w[0]);
    TiesAreIdenticalIff(v[0], w[0]);
  }

  lemma TailOf(v: seq<Observation>)
    requires Ordered(v) && v != []
    ensures Ordered(v[1..])
    ensures v == [v[0]] + v[1..] && multiset(v[1..]) == multiset(v) - multiset{v[0]}
  {
    assert v == [v[0]] + v[1..];
  }

  lemma TailIsModest(v: seq<Observation>)
    requires AllModest(v) && v != []
    ensures AllModest(v[1..])
  {
  }

  /** There is only one way to sort observations whose ties are identical. */
  lemma {:induction false} SortIsUnique(v: seq<Observation>, w: seq<Observation>)
    requires Ordered(v) && Ordered(w) && multiset(v) == multiset(w) && AllModest(v)
    ensures v == w
    decreases |v|
  {
    hide Le, Modest, Ordered, AllModest;
    assert |multiset(w)| == |v|;
    if v != [] {
      SameHead(v, w);
      TailOf(v);
      TailOf(w);
      TailIsModest(v);
      SortIsUnique(v[1..], w[1..]);
    }
  }

  method Sort(v: seq<Observation>) returns (w: seq<Observation>)
    ensures SortOf(w, v)
  {
    w := [];
    for i := 0 to |v|
      invariant Ordered(w) && multiset(w) == multiset(v[..i])
    {
      w := Insert(w, v[i]);
      assert v[..i + 1] == v[..i] + [v[i]];
    }
    assert v[..|v|] == v;
  }

  method Insert(w: seq<Observation>, o: Observation) returns (x: seq<Observation>)
    requires Ordered(w)
    ensures Ordered(x) && multiset(x) == multiset(w) + multiset{o}
  {
    hide Le;
    var k := |w|;
    while k > 0 && !Le(w[k - 1], o)
      invariant 0 <= k <= |w|
      invariant forall j :: k <= j < |w| ==> Le(o, w[j])
    {
      OrderIsTotal(w[k - 1], o, o);
      k := k - 1;
    }
    InsertedInOrder(w, o, k);
    x := w[..k] + [o] + w[k..];
    assert w == w[..k] + w[k..];
  }

  lemma InsertedInOrder(w: seq<Observation>, o: Observation, k: nat)
    requires Ordered(w) && k <= |w| && (k > 0 ==> Le(w[k - 1], o))
    requires forall j :: k <= j < |w| ==> Le(o, w[j])
    ensures Ordered(w[..k] + [o] + w[k..])
  {
    hide Le;
    var x := w[..k] + [o] + w[k..];
    forall j | 0 <= j < k
      ensures Le(w[j], o)
    {
      OrderIsTotal(w[j], w[k - 1], o);
    }
    forall i, j | 0 <= i < j < |x|
      ensures Le(x[i], x[j])
    {
      if i < k < j {
        OrderIsTotal(x[i], o, x[j]);
      }
    }
  }

  // ------------------------------------------------------------------- replay

  /** Every full batch of arrivals sorted in place, and the shorter rest sorted as one. */
  ghost predicate BatchSortOf(processed: seq<Observation>, arrivals: seq<Observation>, size: nat)
    decreases |arrivals|
  {
    && |processed| == |arrivals|
    && if size == 0 || |arrivals| < size then SortOf(processed, arrivals)
       else SortOf(processed[..size], arrivals[..size]) && BatchSortOf(processed[size..], arrivals[size..], size)
  }

  lemma {:induction false} BatchFollows(
    processed: seq<Observation>, arrivals: seq<Observation>, batch: seq<Observation>, held: seq<Observation>,
      size: nat, n: nat)
    requires size > 0 && |arrivals| == n * size && BatchSortOf(processed, arrivals, size)
    requires SortOf(batch, held) && |held| <= size
    ensures BatchSortOf(processed + batch, arrivals + held, size)
    decreases n
  {
    hide SortOf;
    SortKeepsLength(batch, held);
    var p, a := processed + batch, arrivals + held;
    if n == 0 {
      assert p == batch && a == held;
      if |held| == size {
        assert p[..size] == batch && a[..size] == held && p[size..] == [] && a[size..] == [];
        EmptySort();
      }
    } else {
      assert |arrivals| >= size by { MultiplesKept(n, 1, size); }
      assert p[..size] == processed[..size] && a[..size] == arrivals[..size];
      assert p[size..] == processed[size..] + batch && a[size..] == arrivals[size..] + held;
      BatchFollows(processed[size..], arrivals[size..], batch, held, size, n - 1);
    }
  }

  lemma SortKeepsLength(w: seq<Observation>, v: seq<Observation>)
    requires SortOf(w, v)
    ensures |w| == |v|
  {
    assert |multiset(w)| == |w| && |multiset(v)| == |v|;
  }

  lemma EmptySort()
    ensures SortOf([], [])
  {
  }

  /** No batch loses or repeats anything, so neither does the whole. */
  lemma {:induction false} BatchSortKeepsAll(processed: seq<Observation>, arrivals: seq<Observation>, size: nat)
    requires BatchSortOf(processed, arrivals, size)
    ensures multiset(processed) == multiset(arrivals)
    ensures size > 0 && |arrivals| <= size ==> Ordered(processed)
    decreases |arrivals|
  {
    if size > 0 && |arrivals| >= size {
      assert processed == processed[..size] + processed[size..] && arrivals == arrivals[..size] + arrivals[size..];
      BatchSortKeepsAll(processed[size..], arrivals[size..], size);
      if |arrivals| == size {
        assert processed == processed[..size];
      }
    }
  }

  /** Ordered mode: everything is held and sorted, in batches once there is too much to hold. */
  method RunOrdered(arrivals: seq<Observation>) returns (processed: seq<Observation>)
    ensures BatchSortOf(processed, arrivals, 2_000_000)
    ensures multiset(processed) == multiset(arrivals)
    ensures |arrivals| <= 2_000_000 ==> Ordered(processed)
  {
    hide Ordered, SortOf;
    var size := MAX_ORDERED_OBSERVATIONS;
    processed := [];
    var held: seq<Observation> := [];
    ghost var n: nat := 0;
    EmptySort();
    for i := 0 to |arrivals|
      invariant n * size <= i && |held| == i - n * size < size
      invariant held == arrivals[n * size..i]
      invariant BatchSortOf(processed, arrivals[..n * size], size)
    {
      held := held + [arrivals[i]];
      if |held| >= size {
        var batch := Sort(held);
        BatchFollows(processed, arrivals[..n * size], batch, held, size, n);
        assert arrivals[..n * size] + held == arrivals[..i + 1];
        processed := processed + batch;
        held := [];
        n := n + 1;
      }
    }
    var batch := Sort(held);
    BatchFollows(processed, arrivals[..n * size], batch, held, size, n);
    assert arrivals[..n * size] + held == arrivals;
    processed := processed + batch;
    BatchSortKeepsAll(processed, arrivals, size);
  }

  // ------------------------------------------------------------- a live capture

  /** What the receive returns: an observation, or nothing for half a second. */
  datatype Event = Arrive(o: Observation) | Quiet

  function Arrivals(events: seq<Event>): seq<Observation> {
    if events == [] then []
    else
      var last := events[|events| - 1];
      Arrivals(events[..|events| - 1]) + (if last.Arrive? then [last.o] else [])
  }

  function Newest(events: seq<Event>): int {
    if events == [] then I64_MIN
    else
      var last := events[|events| - 1];
      var newest := Newest(events[..|events| - 1]);
      if last.Arrive? then Max(newest, last.o.ts) else newest
  }

  /** `newest.saturating_sub(LIVE_REORDER_SECS)` */
  function Cutoff(newest: int): int {
    Max(newest - LIVE_REORDER_SECS, I64_MIN)
  }

  /** The link never goes quiet, and every arrival is newer than the newest before it less the reorder window. */
  predicate Punctual(events: seq<Event>) {
    events == [] ||
    (var front, last := events[..|events| - 1], events[|events| - 1];
     && Punctual(front)
     && last.Arrive?
     && (front == [] || last.o.ts > Max(Newest(front) - 2, -0x8000_0000_0000_0000)))
  }

  predicate AllBefore(v: seq<Observation>, w: seq<Observation>) {
    forall i, j :: 0 <= i < |v| && 0 <= j < |w| ==> v[i].ts < w[j].ts
  }

  predicate AllUpTo(v: seq<Observation>, ts: int) {
    forall i :: 0 <= i < |v| ==> v[i].ts <= ts
  }

  predicate AllAfter(v: seq<Observation>, ts: int) {
    forall i :: 0 <= i < |v| ==> v[i].ts > ts
  }

  lemma AppendOrdered(v: seq<Observation>, w: seq<Observation>)
    requires Ordered(v) && Ordered(w) && AllBefore(v, w)
    ensures Ordered(v + w)
  {
    hide Le;
    forall i, j | 0 <= i < j < |v| + |w|
      ensures Le((v + w)[i], (v + w)[j])
    {
      if i < |v| <= j {
        OrderIsTotal(v[i], w[j - |v|], v[i]);
      }
    }
  }

  lemma OrderedTimes(v: seq<Observation>)
    requires Ordered(v)
    ensures forall i, j :: 0 <= i <= j < |v| ==> v[i].ts <= v[j].ts
  {
    hide Le;
    forall i, j | 0 <= i <= j < |v|
      ensures v[i].ts <= v[j].ts
    {
      if i < j {
        OrderIsTotal(v[i], v[j], v[i]);
      }
    }
  }

  /** `partition_point` on sorted observations: those up to the cutoff come first. */
  method ReadyCount(held: seq<Observation>, cutoff: int) returns (n: nat)
    requires Ordered(held)
    ensures n <= |held| && AllUpTo(held[..n], cutoff) && AllAfter(held[n..], cutoff)
  {
    OrderedTimes(held);
    hide Ordered;
    var lo, hi := 0, |held|;
    while lo < hi
      invariant 0 <= lo <= hi <= |held|
      invariant forall k :: 0 <= k < lo ==> held[k].ts <= cutoff
      invariant forall k :: hi <= k < |held| ==> held[k].ts > cutoff
    {
      var mid := (lo + hi) / 2;
      if held[mid].ts <= cutoff { lo := mid + 1; } else { hi := mid; }
    }
    n := lo;
  }

  /** Sorts what is held and lets go of what is due, or of everything. */
  method Release(held: seq<Observation>, cutoff: int, flushAll: bool)
      returns (ready: seq<Observation>, rest: seq<Observation>)
    ensures Ordered(ready) && multiset(ready) + multiset(rest) == multiset(held)
    ensures if flushAll then rest == [] else AllUpTo(ready, cutoff) && AllAfter(rest, cutoff)
  {
    var sorted := Sort(held);
    var n := |sorted|;
    if !flushAll {
      n := ReadyCount(sorted, cutoff);
    }
    ready, rest := sorted[..n], sorted[n..];
    assert sorted == ready + rest;
  }

  method OldestOf(held: seq<Observation>) returns (oldest: int)
    ensures forall i :: 0 <= i < |held| ==> oldest <= held[i].ts
    ensures oldest == I64_MAX || exists i :: 0 <= i < |held| && held[i].ts == oldest
  {
    oldest := I64_MAX;
    for i := 0 to |held|
      invariant forall k :: 0 <= k < i ==> oldest <= held[k].ts
      invariant oldest == I64_MAX || exists k :: 0 <= k < i && held[k].ts == oldest
    {
      oldest := Min(oldest, held[i].ts);
    }
  }

  /** Of the arrivals so far, `held` are the ones not yet processed. */
  ghost predicate Holding(held: seq<Observation>, events: seq<Event>, processed: seq<Observation>) {
    multiset(processed) + multiset(held) == multiset(Arrivals(events))
  }

  /** All that still waits is newer than the reorder window, and after a quiet spell nothing waits. */
  ghost predicate CaughtUp(processed: seq<Observation>, events: seq<Event>)
    requires events != []
  {
    exists held :: Holding(held, events, processed)
                   && AllAfter(held, Max(Newest(events) - 2, -0x8000_0000_0000_0000))
                   && (events[|events| - 1].Quiet? ==> held == [])
  }

  /** After each event, what had been processed by then was caught up. */
  ghost predicate EachCaughtUp(processed: seq<Observation>, counts: seq<nat>, events: seq<Event>) {
    && |counts| <= |events|
    && forall i :: 0 <= i < |counts| ==> counts[i] <= |processed| && CaughtUp(processed[..counts[i]], events[..i + 1])
  }

  lemma NoneYet(events: seq<Event>)
    ensures EachCaughtUp([], [], events)
  {
  }

  lemma EachCaughtUpLater(processed: seq<Observation>, counts: seq<nat>, events: seq<Event>, more: seq<Observation>)
    requires EachCaughtUp(processed, counts, events)
    ensures EachCaughtUp(processed + more, counts, events)
  {
    hide CaughtUp;
    forall i | 0 <= i < |counts|
      ensures (processed + more)[..counts[i]] == processed[..counts[i]]
    {
    }
  }

  lemma EachCaughtUpNext(processed: seq<Observation>, counts: seq<nat>, events: seq<Event>)
    requires EachCaughtUp(processed, counts, events) && |counts| < |events|
    requires CaughtUp(processed, events[..|counts| + 1])
    ensures EachCaughtUp(processed, counts + [|processed|], events)
  {
    hide CaughtUp;
    assert processed[..|processed|] == processed;
  }

  lemma ReleaseInOrder(
    processed: seq<Observation>, held: seq<Observation>, ready: seq<Observation>, rest: seq<Observation>, cutoff: int)
    requires Ordered(processed) && AllBefore(processed, held) && AllUpTo(processed, cutoff)
    requires Ordered(ready) && multiset(ready) + multiset(rest) == multiset(held)
    requires AllUpTo(ready, cutoff) && AllAfter(rest, cutoff)
    ensures Ordered(processed + ready) && AllBefore(processed + ready, rest) && AllUpTo(processed + ready, cutoff)
  {
    hide Ordered;
    forall j | 0 <= j < |ready|
      ensures ready[j] in held
    {
      assert ready[j] in multiset(ready) + multiset(rest);
    }
    assert AllBefore(processed, ready);
    AppendOrdered(processed, ready);
  }

  lemma ReleaseKeepsAll(
    processed: seq<Observation>, held: seq<Observation>, ready: seq<Observation>, rest: seq<Observation>,
      events: seq<Event>)
    requires Holding(held, events, processed) && multiset(ready) + multiset(rest) == multiset(held)
    ensures Holding(rest, events, processed + ready)
  {
  }

  lemma ArrivalHeld(held: seq<Observation>, events: seq<Event>, processed: seq<Observation>, o: Observation)
    requires events != [] && events[|events| - 1] == Arrive(o) && Holding(held, events[..|events| - 1], processed)
    ensures Holding(held + [o], events, processed)
  {
  }

  lemma QuietKeeps(held: seq<Observation>, events: seq<Event>, processed: seq<Observation>)
    requires events != [] && events[|events| - 1].Quiet? && Holding(held, events[..|events| - 1], processed)
    ensures Holding(held, events, processed)
  {
  }

  lemma NothingYet()
    ensures Holding([], [], []) && Ordered([]) && AllBefore([], []) && AllUpTo([], Cutoff(I64_MIN))
  {
  }

  /** A punctual arrival comes after all that was processed, and leaves it at or below the cutoff. */
  lemma ArrivalInOrder(events: seq<Event>, processed: seq<Observation>, waiting: seq<Observation>)
    requires events != [] && Punctual(events)
    requires var front := events[..|events| - 1];
             && AllBefore(processed, waiting) && AllUpTo(processed, Cutoff(Newest(front)))
             && (front == [] ==> processed == [])
    ensures AllBefore(processed, waiting + [events[|events| - 1].o]) && AllUpTo(processed, Cutoff(Newest(events)))
  {
  }

  lemma PunctualFront(events: seq<Event>)
    requires events != [] && Punctual(events)
    ensures Punctual(events[..|events| - 1]) && events[|events| - 1].Arrive?
  {
  }

  lemma CaughtUpNow(held: seq<Observation>, processed: seq<Observation>, events: seq<Event>)
    requires events != [] && Holding(held, events, processed) && AllAfter(held, Cutoff(Newest(events)))
    requires events[|events| - 1].Quiet? ==> held == []
    ensures CaughtUp(processed, events)
  {
  }

  lemma LastRelease(processed: seq<Observation>, held: seq<Observation>, sorted: seq<Observation>, events: seq<Event>)
    requires Holding(held, events, processed) && SortOf(sorted, held)
    ensures multiset(processed + sorted) == multiset(Arrivals(events))
    ensures Ordered(processed) && AllBefore(processed, held) ==> Ordered(processed + sorted)
  {
    forall j | 0 <= j < |sorted|
      ensures sorted[j] in held
    {
      assert sorted[j] in multiset(sorted);
    }
    hide Ordered;
    if Ordered(processed) && AllBefore(processed, held) {
      assert AllBefore(processed, sorted);
      AppendOrdered(processed, sorted);
    }
  }

  /** One pass of the loop, after the event has been taken in: let go of what is due. */
  method Drain(held: seq<Observation>, newest: int, oldestHeld: int, flushAll: bool)
    returns (ready: seq<Observation>, rest: seq<Observation>, oldest: int)
    requires forall k :: 0 <= k < |held| ==> oldestHeld <= held[k].ts
    ensures Ordered(ready) && multiset(ready) + multiset(rest) == multiset(held)
    ensures flushAll ==> rest == []
    ensures !flushAll ==> AllUpTo(ready, Cutoff(newest))
    ensures AllAfter(rest, Cutoff(newest))
    ensures forall k :: 0 <= k < |rest| ==> oldest <= rest[k].ts
  {
    var cutoff := Cutoff(newest);
    ready, rest, oldest := [], held, oldestHeld;
    if held != [] && (flushAll || oldestHeld <= cutoff) {
      ready, rest := Release(held, cutoff, flushAll);
      oldest := OldestOf(rest);
    }
  }

  /**
   * Live mode, one event at a time and then the disconnection. Every arrival is processed exactly once, late or
   * not; `counts` says how much had been processed after each event. When no arrival is late the whole run is
   * processed in order.
   */
  method RunLive(events: seq<Event>) returns (processed: seq<Observation>, counts: seq<nat>)
    ensures multiset(processed) == multiset(Arrivals(events))
    ensures Punctual(events) ==> Ordered(processed)
    ensures |counts| == |events| && EachCaughtUp(processed, counts, events)
  {
    hide Ordered, CaughtUp, EachCaughtUp, Holding, AllAfter, AllUpTo, AllBefore, Punctual, Arrivals, Cutoff;
    processed, counts := [], [];
    var held: seq<Observation> := [];
    var newest, oldestHeld := I64_MIN, I64_MAX;
    NothingYet();
    NoneYet(events);
    for i := 0 to |events|
      invariant newest == Newest(events[..i])
      invariant Holding(held, events[..i], processed)
      invariant forall k :: 0 <= k < |held| ==> oldestHeld <= held[k].ts
      invariant Punctual(events[..i]) ==>
                  Ordered(processed) && AllBefore(processed, held) && AllUpTo(processed, Cutoff(newest))
      invariant i == 0 ==> processed == []
      invariant |counts| == i && EachCaughtUp(processed, counts, events)
    {
      ghost var upTo := events[..i + 1];
      assert upTo[..|upTo| - 1] == events[..i];
      var flushAll := events[i].Quiet?;
      ghost var waiting := held;
      if !flushAll {
        var o := events[i].o;
        newest := Max(newest, o.ts);
        oldestHeld := Min(oldestHeld, o.ts);
        held := held + [o];
        ArrivalHeld(waiting, upTo, processed, o);
        if Punctual(upTo) {
          PunctualFront(upTo);
          ArrivalInOrder(upTo, processed, waiting);
        }
      } else {
        QuietKeeps(held, upTo, processed);
      }
      var ready, rest, oldest := Drain(held, newest, oldestHeld, flushAll);
      ReleaseKeepsAll(processed, held, ready, rest, upTo);
      if Punctual(upTo) {
        PunctualFront(upTo);
        ReleaseInOrder(processed, held, ready, rest, Cutoff(newest));
      }
      EachCaughtUpLater(processed, counts, events, ready);
      processed, held, oldestHeld := processed + ready, rest, oldest;
      CaughtUpNow(held, processed, upTo);
      EachCaughtUpNext(processed, counts, events);
      counts := counts + [|processed|];
    }
    assert events[..|events|] == events;
    var sorted := Sort(held);
    LastRelease(processed, held, sorted, events);
    EachCaughtUpLater(processed, counts, events, sorted);
    processed := processed + sorted;
  }
}
