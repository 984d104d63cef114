/**
 * Segments that disagree (src/engine.rs, `feed`). Nothing here assumes that copies of one byte are equal: which copy is
 * kept, which is delivered, and how far the stream gets.
 */
module Conflicts {
  import opened Base
  import opened SeqNum
  import opened Reassembly
  import opened ReassemblyTheorems

  // ----- Which copy is held -----

  /**
   * Arrival of a copy ahead of the stream: what was held under its number stays, and a longer copy adds its own bytes
   * from there on, whatever it says about the others. Only a new number can be refused.
   */
  lemma HeldCopyGrows(h: Half, start: u32, data: seq<byte>)
    requires SeqAfter(start, h.next) && data != []
    ensures var d := Feed(h, start, data);
      var was := if start in h.held then h.held[start] else [];
      && d.bytes == [] && d.half == h.(held := d.half.held)
      && (forall k :: k != start ==> (k in d.half.held <==> k in h.held))
      && (forall k :: k in h.held && k != start ==> d.half.held[k] == h.held[k])
      && if start !in h.held && |h.held| >= 16 then start !in d.half.held
         else
           && start in d.half.held && |d.half.held[start]| == Max(|was|, |data|)
           && forall i :: 0 <= i < |d.half.held[start]| ==>
                d.half.held[start][i] == if i < |was| then was[i] else data[i]
  {
    hide SeqAfter;
    NotAfterItself(h.next);
  }

  lemma NotAfterItself(n: u32)
    ensures !SeqAfter(n, n)
  {
  }

  /** The copies of one offset, in order of arrival, empty ones apart. */
  ghost function CopiesAt(fed: seq<Segment>, offset: int): seq<seq<byte>> {
    if fed == [] then []
    else
      var g := fed[|fed| - 1];
      CopiesAt(fed[..|fed| - 1], offset) + if g.offset == offset && g.data != [] then [g.data] else []
  }

  /** What copy `j` says at place `i`, when no earlier copy is long enough to say anything there. */
  ghost predicate FirstToSay(copies: seq<seq<byte>>, i: nat, b: byte, j: nat) {
    && j < |copies| && |copies[j]| > i && copies[j][i] == b
    && forall m :: 0 <= m < j ==> |copies[m]| <= i
  }

  ghost predicate FirstSaid(copies: seq<seq<byte>>, i: nat, b: byte) {
    exists j :: FirstToSay(copies, i, b, j)
  }

  /** As long as the longest copy, and at each place what the first copy long enough says. */
  ghost predicate FirstCopies(bytes: seq<byte>, copies: seq<seq<byte>>) {
    && (forall j :: 0 <= j < |copies| ==> |copies[j]| <= |bytes|)
    && forall i :: 0 <= i < |bytes| ==> FirstSaid(copies, i, bytes[i])
  }

  lemma FirstCopiesGrow(bytes: seq<byte>, copies: seq<seq<byte>>, data: seq<byte>, grown: seq<byte>)
    requires FirstCopies(bytes, copies) && |grown| == Max(|bytes|, |data|)
    requires forall i :: 0 <= i < |grown| ==> grown[i] == if i < |bytes| then bytes[i] else data[i]
    ensures FirstCopies(grown, copies + [data])
  {
    forall i | 0 <= i < |grown|
      ensures FirstSaid(copies + [data], i, grown[i])
    {
      StillFirst(bytes, copies, data, i);
    }
  }

  lemma StillFirst(bytes: seq<byte>, copies: seq<seq<byte>>, data: seq<byte>, i: nat)
    requires FirstCopies(bytes, copies) && i < Max(|bytes|, |data|)
    ensures FirstSaid(copies + [data], i, if i < |bytes| then bytes[i] else data[i])
  {
    if i < |bytes| {
      assert FirstSaid(copies, i, bytes[i]);
      var j :| FirstToSay(copies, i, bytes[i], j);
      assert FirstToSay(copies + [data], i, bytes[i], j);
    } else {
      assert FirstToSay(copies + [data], i, data[i], |copies|);
    }
  }

  /** What a half holds under the number of an offset, against the copies of it that arrived. */
  ghost predicate HoldsFirstCopies(h: Half, k: u32, copies: seq<seq<byte>>) {
    && (k in h.held <==> copies != [])
    && (k in h.held ==> FirstCopies(h.held[k], copies))
  }

  lemma OtherNumber(initial: u32, pos: int, a: int, b: int)
    requires pos - HALF <= a < pos + HALF && pos - HALF <= b < pos + HALF && a != b
    ensures SeqOf(initial, a) != SeqOf(initial, b)
  {
    OffsetOfSeqOf(initial, pos - HALF, a);
    OffsetOfSeqOf(initial, pos - HALF, b);
  }

  lemma OneMoreCopy(fed: seq<Segment>, g: Segment, offset: int)
    ensures CopiesAt(fed + [g], offset) ==
            CopiesAt(fed, offset) + if g.offset == offset && g.data != [] then [g.data] else []
  {
    assert (fed + [g])[..|fed|] == fed;
  }

  lemma HoldsAfterFeed(h: Half, initial: u32, g: Segment, offset: int, fed: seq<Segment>)
    requires h.next == SeqOf(initial, h.Position()) && InWindow(g, h.Position()) && !Brings(g, h.Position())
    requires h.Position() < offset < h.Position() + HALF
    requires HoldsFirstCopies(h, SeqOf(initial, offset), CopiesAt(fed, offset))
    ensures var start := SeqOf(initial, g.offset);
      var more := if Refused(h, start, g.data) then fed else fed + [g];
      HoldsFirstCopies(Feed(h, start, g.data).half, SeqOf(initial, offset), CopiesAt(more, offset))
  {
    hide SeqOf, Feed, Refused, SeqAfter, FirstCopies, CopiesAt;
    var start, k, pos := SeqOf(initial, g.offset), SeqOf(initial, offset), h.Position();
    FeedCases(h, initial, g);
    OneMoreCopy(fed, g, offset);
    assert CopiesAt(fed, offset) + [] == CopiesAt(fed, offset);
    if g.data != [] && g.offset > pos {
      SeqAfterIsOrder(initial, g.offset, pos);
      HeldCopyGrows(h, start, g.data);
      if g.offset == offset {
        if start in Feed(h, start, g.data).half.held {
          var copies := CopiesAt(fed, offset);
          NoCopiesYet();
          FirstCopiesGrow(if k in h.held then h.held[k] else [], copies, g.data, Feed(h, start, g.data).half.held[k]);
        }
      } else {
        OtherNumber(initial, pos, g.offset, offset);
      }
    }
  }

  lemma NoCopiesYet()
    ensures FirstCopies([], [])
  {
  }

  /**
   * While the stream waits for its next byte, each number holds exactly the first copies of the accepted segments that
   * came for it: no copy overwrites another, and none of a longer copy's extra bytes is lost.
   */
  lemma {:induction false} WaitingHoldsFirstCopies(h: Half, initial: u32, run: seq<Segment>, offset: int)
    requires h.next == SeqOf(initial, h.Position())
    requires h.Position() < offset < h.Position() + HALF && SeqOf(initial, offset) !in h.held
    requires forall i :: 0 <= i < |run| ==> InWindow(run[i], h.Position()) && !Brings(run[i], h.Position())
    ensures HoldsFirstCopies(FeedAll(h, initial, run).half, SeqOf(initial, offset),
                             CopiesAt(Accepted(h, initial, run), offset))
    decreases |run|
  {
    hide Feed, SeqOf, Refused, Brings, InWindow, HoldsFirstCopies;
    RunDeliversIffBrings(h, initial, run);
    if run == [] {
      NothingHeldYet(h, SeqOf(initial, offset));
    } else {
      var front, g := run[..|run| - 1], run[|run| - 1];
      RunDeliversIffBrings(h, initial, front);
      WaitingHoldsFirstCopies(h, initial, front, offset);
      var fed := Accepted(h, initial, front);
      hide CopiesAt;
      HoldsAfterFeed(FeedAll(h, initial, front).half, initial, g, offset, fed);
      assert fed + [] == fed;
    }
  }

  lemma NothingHeldYet(h: Half, k: u32)
    requires k !in h.held
    ensures HoldsFirstCopies(h, k, [])
  {
  }

  // ----- Which copy is delivered -----

  /** A segment that brings the next byte delivers its own bytes from there on, whatever is held of them already. */
  lemma FeedDeliversItsOwn(h: Half, initial: u32, g: Segment)
    requires h.next == SeqOf(initial, h.Position()) && InWindow(g, h.Position()) && Brings(g, h.Position())
    ensures g.data[h.Position() - g.offset..] <= Feed(h, SeqOf(initial, g.offset), g.data).bytes
  {
    hide Feed, SeqOf, Drain, Refused;
    FeedCases(h, initial, g);
  }

  /** A held segment the stream has reached delivers its own bytes from the position on, and leaves. */
  lemma ReleaseDeliversItsOwn(h: Half, initial: u32, offset: int, k: u32)
    requires h.next == SeqOf(initial, h.Position()) && k == SeqOf(initial, offset) && k in h.held
    requires offset <= h.Position() && InWindow(Segment(offset, h.held[k]), h.Position())
    ensures Reached(h, k)
    ensures var d, end := Release(h, k), offset + |h.held[k]|;
      && d.bytes == (if end > h.Position() then h.held[k][h.Position() - offset..] else [])
      && d.half.held == h.held - {k}
  {
    var pos, end := h.Position(), offset + |h.held[k]|;
    SeqAfterIsOrder(initial, offset, pos);
    SeqOfAdvances(initial, offset, |h.held[k]|);
    SeqAfterIsOrder(initial, end, pos);
    WrappingSubIsDistance(initial, pos, offset);
    hide SeqOf, SeqAfter, WrappingAdd, WrappingSub;
  }

  /** Of the held segments the stream has reached, the one with the numerically smallest number goes first. */
  lemma DrainTakesSmallest(h: Half, k: u32)
    requires k in h.held && !SeqAfter(k, h.next)
    requires forall j :: j in h.held && !SeqAfter(j, h.next) ==> k <= j
    ensures Reached(h, k) && Release(h, k).bytes <= Drain(h).bytes
  {
    hide SeqAfter, Release;
    assert FirstReached(h, k);
    DrainStep(h, k);
  }

  // ----- How far the stream gets -----

  /** The same number of bytes, all of them zero. */
  function Blank(data: seq<byte>): (blank: seq<byte>)
    ensures |blank| == |data|
  {
    seq(|data|, _ => 0)
  }

  function BlankHeld(held: map<u32, seq<byte>>): map<u32, seq<byte>> {
    map k | k in held :: Blank(held[k])
  }

  function BlankHalf(h: Half): Half {
    h.(buffer := Blank(h.buffer), held := BlankHeld(h.held))
  }

  function BlankRun(run: seq<Segment>): (blank: seq<Segment>)
    ensures |blank| == |run|
  {
    seq(|run|, i requires 0 <= i < |run| => Segment(run[i].offset, Blank(run[i].data)))
  }

  function BlankDelivery(d: Delivery): Delivery {
    Delivery(BlankHalf(d.half), Blank(d.bytes))
  }

  lemma BlankTail(data: seq<byte>, n: nat)
    requires n <= |data|
    ensures Blank(data)[n..] == Blank(data[n..]) && Blank(data)[..n] == Blank(data[..n])
  {
  }

  lemma BlankJoin(a: seq<byte>, b: seq<byte>)
    ensures Blank(a + b) == Blank(a) + Blank(b)
  {
  }

  lemma AppendBlank(h: Half, data: seq<byte>)
    ensures Append(BlankHalf(h), Blank(data)) == BlankHalf(Append(h, data))
  {
    hide WrappingAdd;
    var take := Min(|data|, Max(h.cap - |h.buffer|, 0));
    BlankTail(data, take);
    BlankJoin(h.buffer, data[..take]);
  }

  lemma SizesKept(held: map<u32, seq<byte>>)
    ensures BlankHeld(held).Keys == held.Keys && |BlankHeld(held)| == |held|
  {
    assert BlankHeld(held).Keys == held.Keys;
    assert |BlankHeld(held).Keys| == |held.Keys|;
  }

  lemma ReachedBlank(h: Half, k: u32)
    ensures Reached(BlankHalf(h), k) <==> Reached(h, k)
  {
    hide SeqAfter;
  }

  lemma ReleaseBlank(h: Half, k: u32)
    requires Reached(h, k)
    ensures Reached(BlankHalf(h), k) && Release(BlankHalf(h), k) == BlankDelivery(Release(h, k))
  {
    ReachedBlank(h, k);
    var data, rest := h.held[k], h.(held := h.held - {k});
    assert BlankHeld(h.held - {k}) == BlankHeld(h.held) - {k};
    if SeqAfter(WrappingAdd(k, |data|), h.next) {
      TrimInBounds(k, |data|, h.next);
      var skip := WrappingSub(h.next, k);
      hide SeqAfter, WrappingAdd, WrappingSub, Append, Blank;
      BlankTail(data, skip);
      AppendBlank(rest, data[skip..]);
    } else {
      hide SeqAfter, WrappingAdd, WrappingSub, Append;
      assert Blank([]) == [];
    }
  }

  lemma FirstReachedBlank(h: Half, k: u32)
    requires FirstReached(h, k)
    ensures FirstReached(BlankHalf(h), k)
  {
    hide Reached;
    ReachedBlank(h, k);
    forall j: u32 | Reached(BlankHalf(h), j)
      ensures k <= j
    {
      ReachedBlank(h, j);
    }
  }

  lemma {:induction false} DrainBlank(h: Half)
    ensures Drain(BlankHalf(h)) == BlankDelivery(Drain(h))
    decreases |h.held|
  {
    if exists k: u32 :: Reached(h, k) {
      var k := NextReached(h);
      hide Reached, FirstReached, Release, Drain;
      DrainStep(h, k);
      FirstReachedBlank(h, k);
      DrainStep(BlankHalf(h), k);
      ReleaseIsReached(h, k);
      ReleaseBlank(h, k);
      DrainBlank(Release(h, k).half);
      BlankJoin(Release(h, k).bytes, Drain(Release(h, k).half).bytes);
    } else {
      forall k: u32
        ensures !Reached(BlankHalf(h), k)
      {
        ReachedBlank(h, k);
      }
      hide Reached;
      DrainStops(h);
      DrainStops(BlankHalf(h));
      assert Blank([]) == [];
    }
  }

  lemma ReleaseIsReached(h: Half, k: u32)
    requires FirstReached(h, k)
    ensures Reached(h, k)
  {
  }

  lemma HoldBlank(h: Half, start: u32, data: seq<byte>)
    ensures Hold(BlankHalf(h), start, Blank(data)) == BlankHalf(Hold(h, start, data))
  {
    SizesKept(h.held);
    if start in h.held && |data| > |h.held[start]| {
      var kept := h.held[start];
      BlankTail(data, |kept|);
      BlankJoin(kept, data[|kept|..]);
      BlankUpdate(h.held, start, kept + data[|kept|..]);
    } else {
      BlankUpdate(h.held, start, data);
    }
  }

  lemma BlankUpdate(held: map<u32, seq<byte>>, k: u32, data: seq<byte>)
    ensures BlankHeld(held[k := data]) == BlankHeld(held)[k := Blank(data)]
  {
  }

  lemma AppendAndDrainBlank(h: Half, data: seq<byte>)
    ensures AppendAndDrain(BlankHalf(h), Blank(data)) == BlankDelivery(AppendAndDrain(h, data))
  {
    hide Drain, Append, Blank;
    AppendBlank(h, data);
    DrainBlank(Append(h, data));
    BlankJoin(data, Drain(Append(h, data)).bytes);
  }

  /** What a feed does with the numbers depends on no byte. */
  lemma FeedBlank(h: Half, start: u32, data: seq<byte>)
    ensures Feed(BlankHalf(h), start, Blank(data)) == BlankDelivery(Feed(h, start, data))
    ensures Refused(BlankHalf(h), start, Blank(data)) <==> Refused(h, start, data)
  {
    hide SeqAfter, WrappingAdd, WrappingSub, Hold, AppendAndDrain, Blank, BlankHeld;
    SizesKept(h.held);
    HoldBlank(h, start, data);
    AppendAndDrainBlank(h, data);
    var skip := WrappingSub(h.next, start);
    if skip < |data| {
      BlankTail(data, skip);
      AppendAndDrainBlank(h, data[skip..]);
    }
    NothingBlank();
  }

  lemma NothingBlank()
    ensures Blank([]) == []
  {
  }

  lemma BlankRunFront(run: seq<Segment>)
    requires run != []
    ensures BlankRun(run)[..|run| - 1] == BlankRun(run[..|run| - 1])
    ensures var g := run[|run| - 1]; BlankRun(run)[|run| - 1] == Segment(g.offset, Blank(g.data))
  {
  }

  lemma BlankRunJoin(a: seq<Segment>, b: seq<Segment>)
    ensures BlankRun(a + b) == BlankRun(a) + BlankRun(b)
  {
    forall i | 0 <= i < |a + b|
      ensures BlankRun(a + b)[i] == (BlankRun(a) + BlankRun(b))[i]
    {
      if i < |a| {
        assert (a + b)[i] == a[i];
      } else {
        assert (a + b)[i] == b[i - |a|];
      }
    }
  }

  lemma {:induction false} FeedAllBlank(h: Half, initial: u32, run: seq<Segment>)
    ensures FeedAll(BlankHalf(h), initial, BlankRun(run)) == BlankDelivery(FeedAll(h, initial, run))
    ensures Accepted(BlankHalf(h), initial, BlankRun(run)) == BlankRun(Accepted(h, initial, run))
    decreases |run|
  {
    NothingBlank();
    if run != [] {
      hide Feed, Refused, SeqOf, Blank, BlankHeld;
      var front, g := run[..|run| - 1], run[|run| - 1];
      BlankRunFront(run);
      FeedAllBlank(h, initial, front);
      var before := FeedAll(h, initial, front);
      FeedBlank(before.half, SeqOf(initial, g.offset), g.data);
      BlankJoin(before.bytes, Feed(before.half, SeqOf(initial, g.offset), g.data).bytes);
      BlankRunJoin(Accepted(h, initial, front), [g]);
      BlankRunJoin(Accepted(h, initial, front), []);
      hide BlankRun;
      OneBlank(g);
    }
  }

  lemma OneBlank(g: Segment)
    ensures BlankRun([g]) == [Segment(g.offset, Blank(g.data))] && BlankRun([]) == []
  {
  }

  /** Each segment arrives within half a lap of the position the stream has reached. */
  ghost predicate Windowed(h: Half, initial: u32, run: seq<Segment>) {
    run == [] ||
    (Windowed(h, initial, run[..|run| - 1]) &&
     InWindow(run[|run| - 1], FeedAll(h, initial, run[..|run| - 1]).half.Position()))
  }

  lemma {:induction false} BlankIsAdmissible(h: Half, initial: u32, run: seq<Segment>)
    requires Windowed(h, initial, run)
    ensures Admissible(BlankHalf(h), _ => 0, initial, BlankRun(run))
    decreases |run|
  {
    if run != [] {
      var front := run[..|run| - 1];
      BlankRunFront(run);
      BlankIsAdmissible(h, initial, front);
      FeedAllBlank(h, initial, front);
      hide FeedAll, SeqOf;
    }
  }

  lemma BlankCovers(fed: seq<Segment>, x: int)
    ensures Covered(BlankRun(fed), x) <==> Covered(fed, x)
  {
    if Covered(fed, x) {
      var g :| g in fed && g.offset <= x < g.End();
      var i :| 0 <= i < |fed| && fed[i] == g;
      assert BlankRun(fed)[i] in BlankRun(fed);
    }
    if Covered(BlankRun(fed), x) {
      var g :| g in BlankRun(fed) && g.offset <= x < g.End();
      var i :| 0 <= i < |fed| && BlankRun(fed)[i] == g;
      assert fed[i] in fed;
    }
  }

  /**
   * However the copies disagree: the stream gets exactly as far as the accepted segments cover it without a hole, and
   * every byte up to there is in the buffer or counted as past the cap.
   */
  lemma CoverageIsExact(cap: nat, initial: u32, run: seq<Segment>)
    requires Windowed(Fresh(cap, initial), initial, run)
    ensures var h := FeedAll(Fresh(cap, initial), initial, run).half;
      && LongestCoveredPrefix(Accepted(Fresh(cap, initial), initial, run), h.Position())
      && |h.buffer| == Min(cap, h.Position()) && |h.buffer| + h.dropped == h.Position()
      && h.next == SeqOf(initial, h.Position())
  {
    hide FeedAll, Accepted, Windowed, Admissible, SeqOf, Covered;
    var first := Fresh(cap, initial);
    assert BlankHalf(first) == first by { NothingBlank(); }
    BlankIsAdmissible(first, initial, run);
    FeedAllBlank(first, initial, run);
    ReassemblyIsExact(cap, _ => 0, initial, BlankRun(run));
    var accepted := Accepted(first, initial, run);
    forall x: int
      ensures Covered(BlankRun(accepted), x) <==> Covered(accepted, x)
    {
      BlankCovers(accepted, x);
    }
  }
}
