/**
 * What the reassembler promises.
 *
 * First without any assumption on the segments (bounds, append-only delivery, first copy
 * wins), then against one stream of bytes at unbounded offsets: whatever the order, overlap,
 * repetition or number of laps of the 32-bit sequence space, the half holds a prefix of that
 * stream, and it is the longest prefix the accepted segments cover.
 */
module ReassemblyTheorems {
  import opened Base
  import opened SeqNum
  import opened Reassembly

  // ----- Unconditional guarantees -----

  /** What every feed leaves behind, however hostile the segments are. */
  ghost predicate Settled(h: Half) {
    && |h.buffer| <= h.cap
    && (h.dropped > 0 ==> |h.buffer| == h.cap)
    && |h.held| <= MAX_OOO_SEGMENTS
    && forall k :: k in h.held ==> SeqAfter(k, h.next)
  }

  /** `d` is `h` with exactly `d.bytes` appended: kept up to the cap, counted past it. */
  ghost predicate Appended(h: Half, d: Delivery) {
    && d.half.cap == h.cap
    && d.half.buffer == Prefix(h.buffer + d.bytes, h.cap)
    && d.half.Position() == h.Position() + |d.bytes|
    && d.half.next == WrappingAdd(h.next, |d.bytes|)
  }

  lemma AppendKeepsPrefix(h: Half, data: seq<byte>)
    requires |h.buffer| <= h.cap
    ensures Appended(h, Delivery(Append(h, data), data))
    ensures Append(h, data).held == h.held
  {
  }

  lemma AppendedNothing(h: Half, r: Half)
    requires |h.buffer| <= h.cap && r == h.(held := r.held)
    ensures Appended(h, Delivery(r, []))
  {
    assert h.buffer + [] == h.buffer;
  }

  lemma AppendedTrans(h: Half, a: Delivery, b: Delivery)
    requires |h.buffer| <= h.cap
    requires Appended(h, a) && Appended(a.half, b)
    ensures Appended(h, Delivery(b.half, a.bytes + b.bytes))
  {
    hide Prefix, WrappingAdd;
    PrefixOfPrefix(h.buffer, a.bytes, b.bytes, h.cap);
    WrappingAddTwice(h.next, |a.bytes|, |b.bytes|);
  }

  lemma WrappingAddTwice(n: u32, a: nat, b: nat)
    ensures WrappingAdd(WrappingAdd(n, a), b) == WrappingAdd(n, a + b)
  {
  }

  lemma {:induction false} DrainEffect(h: Half)
    requires |h.buffer| <= h.cap
    ensures Appended(h, Drain(h))
    ensures forall k: u32 :: !Reached(Drain(h).half, k)
    ensures forall k :: k in Drain(h).half.held ==> k in h.held && Drain(h).half.held[k] == h.held[k]
    ensures |Drain(h).half.held| <= |h.held|
    decreases |h.held|
  {
    if exists k: u32 :: Reached(h, k) {
      var step := Release(h, NextReached(h));
      AppendKeepsPrefix(h.(held := h.held - {NextReached(h)}), step.bytes);
      assert Appended(h, step);
      DrainEffect(step.half);
      AppendedTrans(h, step, Drain(step.half));
    }
  }

  lemma AppendAndDrainEffect(h: Half, data: seq<byte>)
    requires Settled(h)
    ensures var d := AppendAndDrain(h, data);
      && Settled(d.half)
      && Appended(h, d)
      && forall k :: k in d.half.held ==> k in h.held && h.held[k] == d.half.held[k]
  {
    AppendKeepsPrefix(h, data);
    var a := Delivery(Append(h, data), data);
    DrainEffect(a.half);
    AppendedTrans(h, a, Drain(a.half));
    var d := AppendAndDrain(h, data);
    assert forall k :: k in d.half.held ==> !Reached(d.half, k);
  }

  lemma HoldKeepsFirst(h: Half, start: u32, data: seq<byte>)
    requires Settled(h) && SeqAfter(start, h.next)
    ensures var r := Hold(h, start, data);
      && Settled(r)
      && (forall k :: k in h.held ==> k in r.held && h.held[k] <= r.held[k])
      && r.held.Keys <= h.held.Keys + {start}
      && r == h.(held := r.held)
  {
    if start in h.held {
      assert h.held[start := h.held[start] + data[Min(|h.held[start]|, |data|)..]].Keys == h.held.Keys;
    }
  }

  /**
   * Delivery is append-only, the buffer is the delivered bytes cut at the cap, every byte is
   * either kept or counted as dropped, no held segment is left behind the stream, and a copy
   * at a held sequence number never replaces what was held first.
   */
  lemma FeedIsAppendOnly(h: Half, start: u32, data: seq<byte>)
    requires Settled(h)
    ensures var d := Feed(h, start, data);
      && Settled(d.half)
      && Appended(h, d)
      && (forall k :: k in d.half.held && k in h.held ==> h.held[k] <= d.half.held[k])
      && d.half.held.Keys <= h.held.Keys + {start}
  {
    hide WrappingAdd, SeqAfter, AppendAndDrain, Hold;
    if data == [] {
      AppendedNothing(h, h);
    } else if start == h.next {
      AppendAndDrainEffect(h, data);
    } else if !SeqAfter(start, h.next) && SeqAfter(WrappingAdd(start, |data|), h.next) {
      OverlapGuardRedundant(h, start, data);
      TrimInBounds(start, |data|, h.next);
      AppendAndDrainEffect(h, data[WrappingSub(h.next, start)..]);
    } else if SeqAfter(start, h.next) {
      HoldKeepsFirst(h, start, data);
      AppendedNothing(h, Hold(h, start, data));
    } else {
      AppendedNothing(h, h);
    }
  }

  /** The guard `skip < data.len()` in the overlap branch is implied by the test before it. */
  lemma OverlapGuardRedundant(h: Half, start: u32, data: seq<byte>)
    requires start != h.next && !SeqAfter(start, h.next)
    requires SeqAfter(WrappingAdd(start, |data|), h.next)
    ensures var skip := WrappingSub(h.next, start);
      skip < |data| && Feed(h, start, data) == AppendAndDrain(h, data[skip..])
  {
    TrimInBounds(start, |data|, h.next);
  }

  // ----- Refinement of one stream at unbounded offsets -----

  /** The bytes one side of the connection sends, by offset from its first data byte. */
  type Stream = int -> byte

  function Slice(s: Stream, from: int, n: nat): seq<byte> {
    seq(n, i requires 0 <= i < n => s(from + i))
  }

  lemma SliceJoins(s: Stream, from: int, m: nat, n: nat)
    ensures Slice(s, from, m) + Slice(s, from + m, n) == Slice(s, from, m + n)
  {
  }

  /** Consecutive pieces of a stream join into one. */
  lemma PiecesJoin(s: Stream, from: int, mid: int, a: seq<byte>, b: seq<byte>)
    requires mid == from + |a| && a == Slice(s, from, |a|) && b == Slice(s, mid, |b|)
    ensures a + b == Slice(s, from, |a + b|)
  {
    SliceJoins(s, from, |a|, |b|);
  }

  lemma SliceEmpty(s: Stream, from: int, none: seq<byte>)
    requires none == []
    ensures none == Slice(s, from, |none|)
  {
  }

  lemma SliceDrops(s: Stream, from: int, n: nat, k: nat)
    requires k <= n
    ensures Slice(s, from, n)[k..] == Slice(s, from + k, n - k)
  {
  }

  /** A segment by its true place in the stream; on the wire it carries `SeqOf(initial, offset)`. */
  datatype Segment = Segment(offset: int, data: seq<byte>)
  {
    function End(): int { offset + |data| }
  }

  ghost predicate Carries(s: Stream, g: Segment) {
    g.data == Slice(s, g.offset, |g.data|)
  }

  /** Near enough to the current position for the signed comparison to be meaningful. */
  predicate InWindow(g: Segment, pos: int) {
    pos - HALF <= g.offset && g.End() < pos + HALF
  }

  ghost predicate HeldFrom(held: map<u32, seq<byte>>, s: Stream, initial: u32, base: int) {
    forall k :: k in held ==>
      && OffsetOf(initial, base, k) + |held[k]| < base + HALF
      && Carries(s, Segment(OffsetOf(initial, base, k), held[k]))
  }

  /** `h` has delivered a prefix of `s`, keeps of it what fits, and holds only bytes of `s`. */
  ghost predicate Represents(h: Half, s: Stream, initial: u32) {
    && h.next == SeqOf(initial, h.Position())
    && h.buffer == Slice(s, 0, Min(h.cap, h.Position()))
    && HeldFrom(h.held, s, initial, h.Position())
  }

  /** The segment held under `k` contains the stream byte at `x`. */
  ghost predicate HeldCovers(held: map<u32, seq<byte>>, initial: u32, base: int, k: u32, x: int) {
    k in held && OffsetOf(initial, base, k) <= x < OffsetOf(initial, base, k) + |held[k]|
  }

  /** Seen from any position inside the window, a held segment compares as its offsets do. */
  lemma HeldCompares(initial: u32, base: int, pos: int, k: u32, len: nat)
    requires base <= pos < base + HALF && OffsetOf(initial, base, k) + len < base + HALF
    ensures var off := OffsetOf(initial, base, k);
      && base <= off
      && (SeqAfter(k, SeqOf(initial, pos)) <==> off > pos)
      && (SeqAfter(WrappingAdd(k, len), SeqOf(initial, pos)) <==> off + len > pos)
      && (off <= pos ==> WrappingSub(SeqOf(initial, pos), k) == pos - off)
  {
    var off := OffsetOf(initial, base, k);
    OffsetOfRange(initial, base, k);
    SeqAfterIsOrder(initial, off, pos);
    SeqOfAdvances(initial, off, len);
    SeqAfterIsOrder(initial, off + len, pos);
    if off <= pos {
      WrappingSubIsDistance(initial, pos, off);
    }
    hide SeqOf, WrappingSub, SeqAfter, WrappingAdd, OffsetOf;
  }

  /** Releasing one segment delivers the part of it past `pos`, if any. */
  lemma ReleaseFollowsStream(h: Half, k: u32, s: Stream, initial: u32, base: int, pos: int, end: int)
    requires base <= pos < base + HALF && h.next == SeqOf(initial, pos)
    requires HeldFrom(h.held, s, initial, base) && Reached(h, k)
    requires end == Max(pos, OffsetOf(initial, base, k) + |h.held[k]|)
    ensures var step := Release(h, k);
      && OffsetOf(initial, base, k) <= pos
      && end == pos + |step.bytes| && end < base + HALF
      && step.bytes == Slice(s, pos, |step.bytes|)
      && step.half.next == SeqOf(initial, end)
      && step.half.held == h.held - {k}
  {
    var off := OffsetOf(initial, base, k);
    HeldCompares(initial, base, pos, k, |h.held[k]|);
    if off + |h.held[k]| > pos {
      SliceDrops(s, off, |h.held[k]|, pos - off);
      SeqOfAdvances(initial, pos, off + |h.held[k]| - pos);
    }
  }

  /** Some segment that left the held map contained the stream byte at `x`. */
  ghost predicate ReleasedCovers(before: map<u32, seq<byte>>, after: map<u32, seq<byte>>, initial: u32, base: int,
      x: int) {
    exists k: u32 :: k !in after && HeldCovers(before, initial, base, k, x)
  }

  /** Where a drain that started at `pos` and ended at `end` leaves the held segments. */
  ghost predicate Drained(before: map<u32, seq<byte>>, after: map<u32, seq<byte>>, initial: u32, base: int, pos: int,
      end: int) {
    && (forall k :: k in after ==> k in before && after[k] == before[k] && OffsetOf(initial, base, k) > end)
    && (forall k :: k in before && k !in after ==> OffsetOf(initial, base, k) + |before[k]| <= end)
    && (forall x: int :: pos <= x < end ==> ReleasedCovers(before, after, initial, base, x))
  }

  lemma DrainedStep(before: map<u32, seq<byte>>, k: u32, after: map<u32, seq<byte>>, initial: u32, base: int,
      pos: int, end: int)
    requires k in before && OffsetOf(initial, base, k) <= pos
    requires var mid := Max(pos, OffsetOf(initial, base, k) + |before[k]|);
      mid <= end && Drained(before - {k}, after, initial, base, mid, end)
    ensures Drained(before, after, initial, base, pos, end)
  {
    hide OffsetOf;
    assert k !in after;
    var mid := Max(pos, OffsetOf(initial, base, k) + |before[k]|);
    forall x: int | pos <= x < end
      ensures ReleasedCovers(before, after, initial, base, x)
    {
      if x < mid {
        assert HeldCovers(before, initial, base, k, x);
      } else {
        assert ReleasedCovers(before - {k}, after, initial, base, x);
        var j: u32 :| j !in after && HeldCovers(before - {k}, initial, base, j, x);
        assert HeldCovers(before, initial, base, j, x);
      }
    }
  }

  lemma NothingDrained(held: map<u32, seq<byte>>, initial: u32, base: int, pos: int)
    requires forall k :: k in held ==> OffsetOf(initial, base, k) > pos
    ensures Drained(held, held, initial, base, pos, pos)
  {
  }

  /** Releasing segments keeps to the stream, and leaves nothing behind that it still needs. */
  lemma {:induction false} DrainFollowsStream(h: Half, s: Stream, initial: u32, base: int, pos: int)
    requires base <= pos < base + HALF && h.next == SeqOf(initial, pos)
    requires HeldFrom(h.held, s, initial, base)
    ensures var d := Drain(h);
      var end := pos + |d.bytes|;
      && d.bytes == Slice(s, pos, |d.bytes|)
      && end < base + HALF
      && d.half.next == SeqOf(initial, end)
      && Drained(h.held, d.half.held, initial, base, pos, end)
    decreases |h.held|
  {
    hide OffsetOf, SeqOf, SeqAfter, WrappingAdd, WrappingSub, Slice, Release, Append, Drained, Drain;
    if exists k: u32 :: Reached(h, k) {
      var k := NextReached(h);
      DrainStep(h, k);
      var step := Release(h, k);
      var mid := Max(pos, OffsetOf(initial, base, k) + |h.held[k]|);
      ReleaseFollowsStream(h, k, s, initial, base, pos, mid);
      assert HeldFrom(step.half.held, s, initial, base);
      DrainFollowsStream(step.half, s, initial, base, mid);
      var rest := Drain(step.half);
      PiecesJoin(s, pos, mid, step.bytes, rest.bytes);
      DrainedStep(h.held, k, rest.half.held, initial, base, pos, mid + |rest.bytes|);
      assert pos + |step.bytes + rest.bytes| == mid + |rest.bytes|;
    } else {
      forall k | k in h.held
        ensures OffsetOf(initial, base, k) > pos
      {
        assert !Reached(h, k);
        HeldCompares(initial, base, pos, k, |h.held[k]|);
      }
      NothingDrained(h.held, initial, base, pos);
      SliceEmpty(s, pos, []);
      DrainStops(h);
    }
  }

  /** Appending the next stream bytes and releasing what they reach. */
  lemma AppendAndDrainFollows(h: Half, s: Stream, initial: u32, data: seq<byte>, mid: int)
    requires Settled(h) && Represents(h, s, initial)
    requires data == Slice(s, h.Position(), |data|) && |data| < HALF
    requires mid == h.Position() + |data|
    ensures var d := AppendAndDrain(h, data);
      && d.bytes == Slice(s, h.Position(), |d.bytes|)
      && mid <= d.half.Position() < h.Position() + HALF
      && Drained(h.held, d.half.held, initial, h.Position(), mid, d.half.Position())
  {
    AppendThenDrain(h, initial, data, mid);
    hide OffsetOf, SeqOf, SeqAfter, WrappingAdd, WrappingSub, Slice, Drained, Drain, Append, HeldFrom, Settled,
      AppendAndDrain;
    var pos, a := h.Position(), Append(h, data);
    DrainFollowsStream(a, s, initial, pos, mid);
    PiecesJoin(s, pos, mid, data, Drain(a).bytes);
    assert Drained(h.held, Drain(a).half.held, initial, pos, mid, mid + |Drain(a).bytes|);
  }

  /** Where appending leaves the position, and what the drain after it adds. */
  lemma AppendThenDrain(h: Half, initial: u32, data: seq<byte>, mid: int)
    requires Settled(h) && h.next == SeqOf(initial, h.Position()) && mid == h.Position() + |data|
    ensures var a := Append(h, data);
      && a.next == SeqOf(initial, mid) && a.held == h.held
      && AppendAndDrain(h, data).half == Drain(a).half
      && AppendAndDrain(h, data).bytes == data + Drain(a).bytes
      && Drain(a).half.Position() == mid + |Drain(a).bytes|
  {
    AppendAndDrainEffect(h, data);
    SeqOfAdvances(initial, h.Position(), |data|);
    hide Drain, SeqOf, Settled;
  }

  /** A delivery that follows the stream re-establishes the representation at its end. */
  lemma DeliveryRepresents(h: Half, d: Delivery, s: Stream, initial: u32)
    requires |h.buffer| <= h.cap && Represents(h, s, initial) && Appended(h, d)
    requires d.bytes == Slice(s, h.Position(), |d.bytes|)
    requires HeldFrom(d.half.held, s, initial, d.half.Position())
    ensures Represents(d.half, s, initial)
  {
    SeqOfAdvances(initial, h.Position(), |d.bytes|);
    SliceJoins(s, 0, h.Position(), |d.bytes|);
  }

  lemma HeldFromRebase(before: map<u32, seq<byte>>, after: map<u32, seq<byte>>, s: Stream, initial: u32, pos: int,
      mid: int, end: int)
    requires pos <= end && HeldFrom(before, s, initial, pos)
    requires Drained(before, after, initial, pos, mid, end)
    ensures HeldFrom(after, s, initial, end)
    ensures forall k :: k in after ==> OffsetOf(initial, end, k) == OffsetOf(initial, pos, k)
  {
    hide Slice;
    forall k | k in after
      ensures OffsetOf(initial, end, k) == OffsetOf(initial, pos, k)
    {
      OffsetOfRebase(initial, pos, end, k);
    }
  }

  // ----- Delivery is complete: the longest prefix the segments cover -----

  ghost predicate Covered(fed: seq<Segment>, x: int) {
    exists g :: g in fed && g.offset <= x < g.End()
  }

  ghost predicate LongestCoveredPrefix(fed: seq<Segment>, n: nat) {
    (forall x: int :: 0 <= x < n ==> Covered(fed, x)) && !Covered(fed, n)
  }

  lemma LongestCoveredPrefixUnique(fed: seq<Segment>, m: nat, n: nat)
    requires LongestCoveredPrefix(fed, m) && LongestCoveredPrefix(fed, n)
    ensures m == n
  {
  }

  /** A segment ahead of the stream is remembered, at least as long as it came. */
  ghost predicate Kept(held: map<u32, seq<byte>>, initial: u32, pos: int, g: Segment) {
    var k := SeqOf(initial, g.offset);
    pos < g.offset && k in held && OffsetOf(initial, pos, k) == g.offset && |g.data| <= |held[k]|
  }

  /** Some fed segment has exactly the extent that is held under `k`. */
  ghost predicate FedAs(fed: seq<Segment>, initial: u32, pos: int, k: u32, len: nat) {
    0 < len && exists g :: g in fed && g.offset == OffsetOf(initial, pos, k) && |g.data| == len
  }

  ghost predicate Consumed(held: map<u32, seq<byte>>, initial: u32, pos: int, g: Segment) {
    g.data == [] || g.End() <= pos || Kept(held, initial, pos, g)
  }

  /** Every fed byte is delivered or held, and everything delivered or held was fed. */
  ghost predicate Accounted(held: map<u32, seq<byte>>, initial: u32, pos: int, fed: seq<Segment>) {
    && (forall x: int :: 0 <= x < pos ==> Covered(fed, x))
    && (forall g :: g in fed ==> Consumed(held, initial, pos, g))
    && (forall k :: k in held ==> pos < OffsetOf(initial, pos, k) && FedAs(fed, initial, pos, k, |held[k]|))
  }

  lemma AccountedIsLongest(held: map<u32, seq<byte>>, initial: u32, pos: nat, fed: seq<Segment>)
    requires Accounted(held, initial, pos, fed)
    ensures LongestCoveredPrefix(fed, pos)
  {
    if Covered(fed, pos) {
      var g :| g in fed && g.offset <= pos < g.End();
      assert Consumed(held, initial, pos, g);
    }
  }

  lemma CoveredGrows(fed: seq<Segment>, g: Segment, x: int)
    requires Covered(fed, x) || g.offset <= x < g.End()
    ensures Covered(fed + [g], x)
  {
    if Covered(fed, x) {
      var f :| f in fed && f.offset <= x < f.End();
      assert f in fed + [g];
    } else {
      assert g in fed + [g];
    }
  }

  lemma FedAsGrows(fed: seq<Segment>, g: Segment, initial: u32, pos: int, newPos: int, k: u32, len: nat)
    requires FedAs(fed, initial, pos, k, len)
    requires OffsetOf(initial, newPos, k) == OffsetOf(initial, pos, k)
    ensures FedAs(fed + [g], initial, newPos, k, len)
  {
    var f :| f in fed && f.offset == OffsetOf(initial, pos, k) && |f.data| == len;
    assert f in fed + [g];
  }

  lemma DrainCovers(before: map<u32, seq<byte>>, after: map<u32, seq<byte>>, initial: u32, pos: int,
      fed: seq<Segment>, x: int)
    requires Accounted(before, initial, pos, fed) && ReleasedCovers(before, after, initial, pos, x)
    ensures Covered(fed, x)
  {
    hide OffsetOf, SeqOf;
    var k: u32 :| k !in after && HeldCovers(before, initial, pos, k, x);
    assert FedAs(fed, initial, pos, k, |before[k]|);
    var f :| f in fed && f.offset == OffsetOf(initial, pos, k) && |f.data| == |before[k]|;
  }

  /** A segment that reaches the stream, followed by a drain, leaves nothing unaccounted. */
  lemma DrainAccounts(before: map<u32, seq<byte>>, after: map<u32, seq<byte>>, initial: u32, pos: int, end: int,
      fed: seq<Segment>, g: Segment)
    requires Accounted(before, initial, pos, fed)
    requires g.offset <= pos <= g.End() <= end
    requires Drained(before, after, initial, pos, g.End(), end)
    requires forall k :: k in after ==> OffsetOf(initial, end, k) == OffsetOf(initial, pos, k)
    ensures Accounted(after, initial, end, fed + [g])
  {
    hide OffsetOf, SeqOf, Covered, FedAs, ReleasedCovers;
    forall x: int | 0 <= x < end
      ensures Covered(fed + [g], x)
    {
      if x >= g.End() {
        DrainCovers(before, after, initial, pos, fed, x);
      }
      CoveredGrows(fed, g, x);
    }
    forall f | f in fed + [g]
      ensures Consumed(after, initial, end, f)
    {
      if f in fed {
        assert Consumed(before, initial, pos, f);
      }
    }
    forall k | k in after
      ensures end < OffsetOf(initial, end, k) && FedAs(fed + [g], initial, end, k, |after[k]|)
    {
      FedAsGrows(fed, g, initial, pos, end, k, |after[k]|);
    }
  }

  /** What holding a segment of the stream does to the held map. */
  lemma HoldIsUpdate(h: Half, s: Stream, initial: u32, pos: int, g: Segment)
    requires HeldFrom(h.held, s, initial, pos)
    requires Carries(s, g) && InWindow(g, pos) && pos < g.offset
    requires SeqOf(initial, g.offset) in h.held || |h.held| < MAX_OOO_SEGMENTS
    ensures var start := SeqOf(initial, g.offset);
      && OffsetOf(initial, pos, start) == g.offset
      && Hold(h, start, g.data).held ==
         if start in h.held && |g.data| <= |h.held[start]| then h.held else h.held[start := g.data]
  {
    var start := SeqOf(initial, g.offset);
    OffsetOfSeqOf(initial, pos, g.offset);
    if start in h.held && |g.data| > |h.held[start]| {
      SliceJoins(s, g.offset, |h.held[start]|, |g.data| - |h.held[start]|);
      assert h.held[start] + g.data[|h.held[start]|..] == g.data;
    }
  }

  lemma KeepAccounts(before: map<u32, seq<byte>>, after: map<u32, seq<byte>>, initial: u32, pos: int,
      fed: seq<Segment>, g: Segment)
    requires Accounted(before, initial, pos, fed)
    requires Kept(after, initial, pos, g) && g.data != []
    requires forall k :: k in before ==> k in after && |before[k]| <= |after[k]|
    requires forall k :: k in after ==>
      (k in before && after[k] == before[k]) || (k == SeqOf(initial, g.offset) && after[k] == g.data)
    ensures Accounted(after, initial, pos, fed + [g])
  {
    hide OffsetOf, SeqOf;
    forall x: int | 0 <= x < pos
      ensures Covered(fed + [g], x)
    {
      CoveredGrows(fed, g, x);
    }
    forall f | f in fed + [g]
      ensures Consumed(after, initial, pos, f)
    {
      if f in fed {
        assert Consumed(before, initial, pos, f);
      }
    }
    forall k | k in after
      ensures pos < OffsetOf(initial, pos, k) && FedAs(fed + [g], initial, pos, k, |after[k]|)
    {
      if k in before && after[k] == before[k] {
        FedAsGrows(fed, g, initial, pos, pos, k, |after[k]|);
      } else {
        assert g in fed + [g];
      }
    }
  }

  lemma KeepFromStream(before: map<u32, seq<byte>>, s: Stream, initial: u32, pos: int, g: Segment)
    requires HeldFrom(before, s, initial, pos)
    requires Carries(s, g) && InWindow(g, pos) && OffsetOf(initial, pos, SeqOf(initial, g.offset)) == g.offset
    ensures HeldFrom(before[SeqOf(initial, g.offset) := g.data], s, initial, pos)
  {
    hide OffsetOf, SeqOf, Slice;
  }

  /** Holding a segment that is not refused accounts for it. */
  lemma HoldAccounts(h: Half, s: Stream, initial: u32, pos: int, fed: seq<Segment>, g: Segment)
    requires HeldFrom(h.held, s, initial, pos) && Accounted(h.held, initial, pos, fed)
    requires Carries(s, g) && InWindow(g, pos) && pos < g.offset && g.data != []
    requires SeqOf(initial, g.offset) in h.held || |h.held| < MAX_OOO_SEGMENTS
    ensures var r := Hold(h, SeqOf(initial, g.offset), g.data);
      HeldFrom(r.held, s, initial, pos) && Accounted(r.held, initial, pos, fed + [g])
  {
    HoldIsUpdate(h, s, initial, pos, g);
    KeepFromStream(h.held, s, initial, pos, g);
    hide OffsetOf, SeqOf, Slice, Hold, Carries, HeldFrom, Accounted;
    var after := Hold(h, SeqOf(initial, g.offset), g.data).held;
    KeepAccounts(h.held, after, initial, pos, fed, g);
  }

  /** A segment that ends at or before the position adds nothing. */
  lemma StaleAccounts(held: map<u32, seq<byte>>, initial: u32, pos: int, fed: seq<Segment>, g: Segment)
    requires Accounted(held, initial, pos, fed)
    requires g.data == [] || g.End() <= pos
    ensures Accounted(held, initial, pos, fed + [g])
  {
    hide OffsetOf, SeqOf;
    forall x: int | 0 <= x < pos
      ensures Covered(fed + [g], x)
    {
      CoveredGrows(fed, g, x);
    }
    forall f | f in fed + [g]
      ensures Consumed(held, initial, pos, f)
    {
      if f in fed {
        assert Consumed(held, initial, pos, f);
      }
    }
    forall k | k in held
      ensures FedAs(fed + [g], initial, pos, k, |held[k]|)
    {
      FedAsGrows(fed, g, initial, pos, pos, k, |held[k]|);
    }
  }

  // ----- One feed, then any run of feeds -----

  /** The state of a half that has been fed the segments `fed` of the stream `s`, refusals apart. */
  ghost predicate Faithful(h: Half, s: Stream, initial: u32, fed: seq<Segment>) {
    && Settled(h)
    && Represents(h, s, initial)
    && Accounted(h.held, initial, h.Position(), fed)
  }

  /** How the numeric tests of a feed read in offsets. */
  lemma FeedCases(h: Half, initial: u32, g: Segment)
    requires h.next == SeqOf(initial, h.Position()) && InWindow(g, h.Position())
    ensures var start := SeqOf(initial, g.offset);
      var d := Feed(h, start, g.data);
      var pos := h.Position();
      && (g.data == [] || g.End() <= pos ==> d == Delivery(h, []))
      && (g.data != [] && g.offset > pos ==> d == Delivery(Hold(h, start, g.data), []))
      && (g.data != [] && g.offset <= pos < g.End() ==> d == AppendAndDrain(h, g.data[pos - g.offset..]))
      && (Refused(h, start, g.data) <==>
           g.data != [] && g.offset > pos && start !in h.held && |h.held| >= MAX_OOO_SEGMENTS)
  {
    var pos := h.Position();
    SeqAfterIsOrder(initial, g.offset, pos);
    SeqOfAdvances(initial, g.offset, |g.data|);
    SeqAfterIsOrder(initial, g.End(), pos);
    if g.offset <= pos {
      WrappingSubIsDistance(initial, pos, g.offset);
    }
    assert g.data == g.data[0..];
  }

  lemma StaleFeedFollows(h: Half, s: Stream, initial: u32, fed: seq<Segment>, g: Segment)
    requires Faithful(h, s, initial, fed)
    requires g.data == [] || g.End() <= h.Position()
    ensures Faithful(h, s, initial, fed + [g])
  {
    hide Settled, Represents, Accounted;
    StaleAccounts(h.held, initial, h.Position(), fed, g);
  }

  lemma HoldingFeedFollows(h: Half, s: Stream, initial: u32, fed: seq<Segment>, g: Segment)
    requires Faithful(h, s, initial, fed)
    requires Carries(s, g) && InWindow(g, h.Position()) && h.Position() < g.offset && g.data != []
    requires SeqOf(initial, g.offset) in h.held || |h.held| < MAX_OOO_SEGMENTS
    ensures Faithful(Hold(h, SeqOf(initial, g.offset), g.data), s, initial, fed + [g])
  {
    var start := SeqOf(initial, g.offset);
    SeqAfterIsOrder(initial, g.offset, h.Position());
    HoldKeepsFirst(h, start, g.data);
    assert Hold(h, start, g.data).Position() == h.Position();
    hide Settled, Accounted, Hold, SeqOf, SeqAfter, HeldFrom, Slice;
    HoldAccounts(h, s, initial, h.Position(), fed, g);
  }

  /** The part of a reaching segment past the position is the next part of the stream. */
  lemma TailOfSegment(s: Stream, g: Segment, pos: nat)
    requires Carries(s, g) && g.offset <= pos <= g.End()
    ensures g.data[pos - g.offset..] == Slice(s, pos, g.End() - pos)
    ensures |g.data[pos - g.offset..]| == g.End() - pos
  {
    SliceDrops(s, g.offset, |g.data|, pos - g.offset);
  }

  lemma ReachingFeedFollows(h: Half, s: Stream, initial: u32, fed: seq<Segment>, g: Segment, tail: seq<byte>)
    requires Faithful(h, s, initial, fed)
    requires InWindow(g, h.Position()) && g.offset <= h.Position()
    requires tail == Slice(s, h.Position(), |tail|) && h.Position() + |tail| == g.End()
    ensures AppendAndDrain(h, tail).bytes == Slice(s, h.Position(), |AppendAndDrain(h, tail).bytes|)
    ensures Faithful(AppendAndDrain(h, tail).half, s, initial, fed + [g])
  {
    assert |h.buffer| <= h.cap;
    hide OffsetOf, SeqOf, Slice, Drained, AppendAndDrain, HeldFrom, Accounted, Settled;
    var pos, d := h.Position(), AppendAndDrain(h, tail);
    AppendAndDrainEffect(h, tail);
    AppendAndDrainFollows(h, s, initial, tail, g.End());
    HeldFromRebase(h.held, d.half.held, s, initial, pos, g.End(), d.half.Position());
    DrainAccounts(h.held, d.half.held, initial, pos, d.half.Position(), fed, g);
    DeliveryRepresents(h, d, s, initial);
  }

  lemma RefusedIsNotHeld(h: Half, start: u32, data: seq<byte>)
    requires Refused(h, start, data)
    ensures Hold(h, start, data) == h
  {
  }

  /**
   * One feed of a segment of the stream: what it delivers is the next bytes of the stream, and
   * the state is again faithful, to one more segment unless that segment was refused for room.
   */
  lemma FeedFollowsStream(h: Half, s: Stream, initial: u32, fed: seq<Segment>, g: Segment)
    requires Faithful(h, s, initial, fed)
    requires Carries(s, g) && InWindow(g, h.Position())
    ensures var start := SeqOf(initial, g.offset);
      var d := Feed(h, start, g.data);
      && d.bytes == Slice(s, h.Position(), |d.bytes|)
      && Faithful(d.half, s, initial, if Refused(h, start, g.data) then fed else fed + [g])
  {
    hide Feed, Refused, Slice, Hold, AppendAndDrain, Settled, Accounted, HeldFrom, SeqOf, SeqAfter, Drain;
    var start := SeqOf(initial, g.offset);
    FeedCases(h, initial, g);
    if g.data == [] || g.End() <= h.Position() {
      hide Feed, Refused, Faithful, Slice;
      SliceEmpty(s, h.Position(), []);
      StaleFeedFollows(h, s, initial, fed, g);
    } else if g.offset > h.Position() {
      hide Feed, Faithful, Slice, Hold;
      SliceEmpty(s, h.Position(), []);
      if Refused(h, start, g.data) {
        RefusedIsNotHeld(h, start, g.data);
      } else {
        HoldingFeedFollows(h, s, initial, fed, g);
      }
    } else {
      TailOfSegment(s, g, h.Position());
      hide Feed, Refused, Faithful, Slice, AppendAndDrain;
      ReachingFeedFollows(h, s, initial, fed, g, g.data[h.Position() - g.offset..]);
    }
  }

  /** A run: the segments fed one after another, and all the bytes delivered on the way. */
  ghost function FeedAll(h: Half, initial: u32, run: seq<Segment>): Delivery {
    if run == [] then
      Delivery(h, [])
    else
      var before := FeedAll(h, initial, run[..|run| - 1]);
      var g := run[|run| - 1];
      var d := Feed(before.half, SeqOf(initial, g.offset), g.data);
      Delivery(d.half, before.bytes + d.bytes)
  }

  /** The segments of a run that were not refused for lack of room. */
  ghost function Accepted(h: Half, initial: u32, run: seq<Segment>): seq<Segment> {
    if run == [] then
      []
    else
      var before := FeedAll(h, initial, run[..|run| - 1]);
      var g := run[|run| - 1];
      Accepted(h, initial, run[..|run| - 1]) +
      if Refused(before.half, SeqOf(initial, g.offset), g.data) then [] else [g]
  }

  /** Every segment is a piece of `s`, within 2^31 of wherever the stream is when it arrives. */
  ghost predicate Admissible(h: Half, s: Stream, initial: u32, run: seq<Segment>) {
    run == [] ||
    (Admissible(h, s, initial, run[..|run| - 1]) &&
     Carries(s, run[|run| - 1]) &&
     InWindow(run[|run| - 1], FeedAll(h, initial, run[..|run| - 1]).half.Position()))
  }

  lemma FreshIsFaithful(cap: nat, s: Stream, initial: u32)
    ensures Faithful(Fresh(cap, initial), s, initial, [])
  {
  }

  /** Any run from a faithful state: faithful again, having delivered the next bytes of the stream. */
  lemma {:induction false} RunFollowsStream(h: Half, s: Stream, initial: u32, fed: seq<Segment>, run: seq<Segment>)
    requires Faithful(h, s, initial, fed) && Admissible(h, s, initial, run)
    ensures Faithful(FeedAll(h, initial, run).half, s, initial, fed + Accepted(h, initial, run))
    ensures FeedAll(h, initial, run).half.Position() == h.Position() + |FeedAll(h, initial, run).bytes|
    ensures FeedAll(h, initial, run).bytes == Slice(s, h.Position(), |FeedAll(h, initial, run).bytes|)
    ensures FeedAll(h, initial, run).half.cap == h.cap
  {
    hide Slice, SeqOf, Feed, Accounted, Represents, Refused;
    if run == [] {
      assert fed + [] == fed;
      SliceEmpty(s, h.Position(), []);
    } else {
      var front, g := run[..|run| - 1], run[|run| - 1];
      RunFollowsStream(h, s, initial, fed, front);
      var before := FeedAll(h, initial, front);
      var accepted := Accepted(h, initial, front);
      FeedFollowsStream(before.half, s, initial, fed + accepted, g);
      FeedIsAppendOnly(before.half, SeqOf(initial, g.offset), g.data);
      var d := Feed(before.half, SeqOf(initial, g.offset), g.data);
      PiecesJoin(s, h.Position(), before.half.Position(), before.bytes, d.bytes);
      assert fed + (accepted + [g]) == fed + accepted + [g];
      assert fed + (accepted + []) == fed + accepted;
    }
  }

  /**
   * The whole promise of reassembly. After any admissible run from the SYN, the delivered bytes
   * are exactly the longest prefix of the stream that the accepted segments cover; the buffer is
   * that prefix cut at the cap, and the rest is counted.
   */
  lemma ReassemblyIsExact(cap: nat, s: Stream, initial: u32, run: seq<Segment>)
    requires Admissible(Fresh(cap, initial), s, initial, run)
    ensures var h := FeedAll(Fresh(cap, initial), initial, run).half;
      && LongestCoveredPrefix(Accepted(Fresh(cap, initial), initial, run), h.Position())
      && h.buffer == Slice(s, 0, Min(cap, h.Position()))
      && |h.buffer| + h.dropped == h.Position()
      && h.next == SeqOf(initial, h.Position())
      && |h.held| <= MAX_OOO_SEGMENTS
  {
    FreshIsFaithful(cap, s, initial);
    hide FeedAll, Accepted, Admissible, Slice, SeqOf, HeldFrom, Accounted, LongestCoveredPrefix;
    RunFollowsStream(Fresh(cap, initial), s, initial, [], run);
    var h := FeedAll(Fresh(cap, initial), initial, run).half;
    var accepted := Accepted(Fresh(cap, initial), initial, run);
    assert [] + accepted == accepted;
    AccountedIsLongest(h.held, initial, h.Position(), accepted);
  }

  // ----- Delivery order does not matter -----

  ghost predicate SameSegments(a: seq<Segment>, b: seq<Segment>) {
    forall g :: g in a <==> g in b
  }

  lemma SamePrefix(a: seq<Segment>, b: seq<Segment>, n: nat)
    requires SameSegments(a, b) && LongestCoveredPrefix(a, n)
    ensures LongestCoveredPrefix(b, n)
  {
    forall x: int
      ensures Covered(a, x) <==> Covered(b, x)
    {
      if Covered(a, x) {
        var g :| g in a && g.offset <= x < g.End();
        assert g in b;
      }
      if Covered(b, x) {
        var g :| g in b && g.offset <= x < g.End();
        assert g in a;
      }
    }
  }

  /** What is held is determined by the position and the set of segments fed. */
  lemma HeldDetermined(a: map<u32, seq<byte>>, b: map<u32, seq<byte>>, s: Stream, initial: u32, pos: int,
      fedA: seq<Segment>, fedB: seq<Segment>, k: u32)
    requires HeldFrom(a, s, initial, pos) && Accounted(a, initial, pos, fedA)
    requires Accounted(b, initial, pos, fedB)
    requires SameSegments(fedA, fedB) && k in a
    ensures k in b && |a[k]| <= |b[k]|
  {
    OffsetOfRange(initial, pos, k);
    hide OffsetOf, SeqOf, Slice, HeldFrom;
    var g :| g in fedA && g.offset == OffsetOf(initial, pos, k) && |g.data| == |a[k]|;
    assert Consumed(b, initial, pos, g);
  }

  lemma HeldEqual(a: map<u32, seq<byte>>, b: map<u32, seq<byte>>, s: Stream, initial: u32, pos: int,
      fedA: seq<Segment>, fedB: seq<Segment>)
    requires HeldFrom(a, s, initial, pos) && Accounted(a, initial, pos, fedA)
    requires HeldFrom(b, s, initial, pos) && Accounted(b, initial, pos, fedB)
    requires SameSegments(fedA, fedB)
    ensures a == b
  {
    hide OffsetOf, SeqOf, Slice, Accounted;
    forall k: u32
      ensures k in a ==> k in b && |a[k]| <= |b[k]|
      ensures k in b ==> k in a && |b[k]| <= |a[k]|
    {
      if k in a {
        HeldDetermined(a, b, s, initial, pos, fedA, fedB, k);
      }
      if k in b {
        HeldDetermined(b, a, s, initial, pos, fedB, fedA, k);
      }
    }
    assert a.Keys == b.Keys;
  }

  /**
   * Any two runs that accept the same segments, in whatever order and however often repeated,
   * end in the same state: buffer, position, drop count and everything still held. A run that
   * refuses nothing accepts exactly its segments.
   */
  lemma DeliveryOrderIrrelevant(cap: nat, s: Stream, initial: u32, runA: seq<Segment>, runB: seq<Segment>)
    requires Admissible(Fresh(cap, initial), s, initial, runA)
    requires Admissible(Fresh(cap, initial), s, initial, runB)
    requires SameSegments(Accepted(Fresh(cap, initial), initial, runA), Accepted(Fresh(cap, initial), initial, runB))
    ensures FeedAll(Fresh(cap, initial), initial, runA).half == FeedAll(Fresh(cap, initial), initial, runB).half
  {
    var start := Fresh(cap, initial);
    var a, b := FeedAll(start, initial, runA).half, FeedAll(start, initial, runB).half;
    var fedA, fedB := Accepted(start, initial, runA), Accepted(start, initial, runB);
    FreshIsFaithful(cap, s, initial);
    RunFollowsStream(start, s, initial, [], runA);
    RunFollowsStream(start, s, initial, [], runB);
    assert [] + fedA == fedA && [] + fedB == fedB;
    AccountedIsLongest(a.held, initial, a.Position(), fedA);
    AccountedIsLongest(b.held, initial, b.Position(), fedB);
    SamePrefix(fedA, fedB, a.Position());
    LongestCoveredPrefixUnique(fedB, a.Position(), b.Position());
    HeldEqual(a.held, b.held, s, initial, a.Position(), fedA, fedB);
  }

  /** The segment brings the stream byte at `pos`. */
  predicate Brings(g: Segment, pos: int) {
    g.offset <= pos < g.End()
  }

  /** A feed delivers something exactly when the segment brings the next expected byte; else the position stays. */
  lemma DeliversIffBrings(h: Half, initial: u32, g: Segment)
    requires h.next == SeqOf(initial, h.Position()) && InWindow(g, h.Position())
    ensures var d := Feed(h, SeqOf(initial, g.offset), g.data);
      && (d.bytes != [] <==> Brings(g, h.Position()))
      && (d.bytes == [] ==> d.half.next == h.next && d.half.Position() == h.Position())
  {
    hide Feed, SeqOf, Refused, Drain;
    FeedCases(h, initial, g);
    HoldKeepsPosition(h, SeqOf(initial, g.offset), g.data);
    hide Hold;
  }

  lemma HoldKeepsPosition(h: Half, start: u32, data: seq<byte>)
    ensures Hold(h, start, data).next == h.next && Hold(h, start, data).Position() == h.Position()
  {
  }

  /** So a run of any segments in the window delivers nothing until one of them brings that byte. */
  lemma {:induction false} RunDeliversIffBrings(h: Half, initial: u32, run: seq<Segment>)
    requires h.next == SeqOf(initial, h.Position())
    requires forall i :: 0 <= i < |run| ==> InWindow(run[i], h.Position())
    ensures var d := FeedAll(h, initial, run);
      && (d.bytes != [] <==> exists i :: 0 <= i < |run| && Brings(run[i], h.Position()))
      && (d.bytes == [] ==> d.half.next == h.next && d.half.Position() == h.Position())
    decreases |run|
  {
    hide Feed, SeqOf, Brings, InWindow;
    if run != [] {
      var front, g := run[..|run| - 1], run[|run| - 1];
      RunDeliversIffBrings(h, initial, front);
      var before := FeedAll(h, initial, front);
      if before.bytes == [] {
        DeliversIffBrings(before.half, initial, g);
      } else {
        var i :| 0 <= i < |front| && Brings(front[i], h.Position());
        assert run[i] == front[i];
      }
    }
  }

  /**
   * A SYN consumes one sequence number, but a payload it carries is fed at the SYN's own number,
   * not one past it: its first byte is taken for a byte before the stream and lost, and the number
   * after its last byte is taken for one ahead of what comes next.
   */
  lemma SynPayloadLosesFirstByte(cap: nat, isn: u32, payload: seq<byte>)
    requires payload != [] && |payload| < HALF
    ensures var initial := WrappingAdd(isn, 1);
      var d := Feed(Fresh(cap, initial), isn, payload);
      && d.bytes == payload[1..]
      && d.half.Position() == |payload| - 1 && d.half.next == SeqOf(initial, |payload| - 1)
  {
    var initial := WrappingAdd(isn, 1);
    var h, g := Fresh(cap, initial), Segment(-1, payload);
    assert SeqOf(initial, -1) == isn;
    assert h.next == SeqOf(initial, 0);
    FeedCases(h, initial, g);
    if |payload| > 1 {
      var tail := payload[1..];
      assert forall k: u32 :: !Reached(Append(h, tail), k);
      assert Drain(Append(h, tail)).bytes == [];
      SeqOfAdvances(initial, 0, |tail|);
    }
  }

  /**
   * After such a SYN the direction is stuck. Whatever segments follow, the next in order among them, nothing is
   * delivered unless one of them brings again the last byte of the SYN's payload.
   */
  lemma SynPayloadStallsStream(cap: nat, isn: u32, payload: seq<byte>, run: seq<Segment>)
    requires payload != [] && |payload| < HALF
    requires forall i :: 0 <= i < |run| ==> InWindow(run[i], |payload| - 1)
    ensures var initial := WrappingAdd(isn, 1);
      var h := Feed(Fresh(cap, initial), isn, payload).half;
      FeedAll(h, initial, run).bytes != [] <==> exists i :: 0 <= i < |run| && Brings(run[i], |payload| - 1)
  {
    hide Feed, FeedAll, SeqOf, WrappingAdd, InWindow, Brings;
    SynPayloadLosesFirstByte(cap, isn, payload);
    var initial := WrappingAdd(isn, 1);
    RunDeliversIffBrings(Feed(Fresh(cap, initial), isn, payload).half, initial, run);
  }
}
