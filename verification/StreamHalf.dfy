/**
 * One direction of a TCP connection as the sensor runs it: reassembly state and the body tap in
 * one mutable object, every method proved equal to the functions of Reassembly and BodyTapping.
 */
module StreamHalves {
  import opened Base
  import opened SeqNum
  import opened Reassembly
  import opened FileHashing
  import opened BodyTapping

  /** The connection closed: whatever the tap has seen is the body. */
  function Close(w: Watch): Watch {
    match w.tap
    case None => w
    case Some(t) => Watch(None, TapFinish(t))
  }

  /** Reassembly state together with the tap that watches what it delivers. */
  datatype Session = Session(half: Half, watch: Watch)

  /** Any reassembly step, seen from the session: the tap observes exactly what was delivered. */
  ghost function After(s: Session, d: Delivery): Session {
    Session(d.half, Observe(s.watch, d.bytes))
  }

  /** Hashing starts at `offset` in the buffer; a body of declared length zero is not hashed. */
  function Install(s: Session, offset: nat, contentLength: Option<nat>, chunked: bool): Session {
    if contentLength == Some(0) && !chunked then s
    else
      var t := NewTap(contentLength, chunked, s.half.dropped > 0);
      var fed := if offset <= |s.half.buffer| then TapFeed(t, s.half.buffer[offset..]) else t;
      s.(watch := if fed.done then s.watch.(finished := TapFinish(fed)) else s.watch.(tap := Some(fed)))
  }

  lemma AfterTwice(s: Session, a: Delivery, b: Delivery)
    requires s.watch.Valid()
    ensures After(After(s, a), b) == After(s, Delivery(b.half, a.bytes + b.bytes))
  {
    ObserveSplits(s.watch, a.bytes, b.bytes);
  }

  lemma AfterNothing(s: Session, h: Half)
    requires s.watch.Valid()
    ensures After(s, Delivery(h, [])) == Session(h, s.watch)
  {
    ObserveNothing(s.watch);
  }

  lemma DrainAfterRelease(s: Session, k: u32)
    requires s.watch.Valid() && FirstReached(s.half, k)
    ensures var next := After(s, Release(s.half, k));
      && After(next, Drain(next.half)) == After(s, Drain(s.half))
      && |next.half.held| < |s.half.held|
  {
    DrainStep(s.half, k);
    AfterTwice(s, Release(s.half, k), Drain(Release(s.half, k).half));
  }

  lemma DrainAfterAppend(s: Session, data: seq<byte>)
    requires s.watch.Valid()
    ensures var next := After(s, Delivery(Reassembly.Append(s.half, data), data));
      After(next, Drain(next.half)) == After(s, AppendAndDrain(s.half, data))
  {
    var h := Reassembly.Append(s.half, data);
    AfterTwice(s, Delivery(h, data), Drain(h));
  }

  /** Of the keys that are not after `next`, the numerically first. */
  predicate FirstKey(keys: set<u32>, next: u32, k: u32) {
    k in keys && !SeqAfter(k, next) && forall j | j in keys && !SeqAfter(j, next) :: k <= j
  }

  lemma FirstKeyIsFirst(h: Half, k: u32)
    ensures FirstKey(h.held.Keys, h.next, k) <==> FirstReached(h, k)
  {
    hide SeqAfter;
    if FirstKey(h.held.Keys, h.next, k) {
      forall j: u32 | Reached(h, j)
        ensures k <= j
      {
        assert j in h.held.Keys && !SeqAfter(j, h.next);
      }
    }
    if FirstReached(h, k) {
      forall j | j in h.held.Keys && !SeqAfter(j, h.next)
        ensures k <= j
      {
        assert Reached(h, j);
      }
    }
  }

  lemma FirstKeyExists(h: Half)
    requires exists k :: k in h.held.Keys && !SeqAfter(k, h.next)
    ensures exists k :: k in h.held.Keys && FirstKey(h.held.Keys, h.next, k)
  {
    hide SeqAfter, FirstReached;
    var some :| some in h.held.Keys && !SeqAfter(some, h.next);
    assert Reached(h, some);
    FirstReachedExists(h, some);
    var first: u32 :| FirstReached(h, first);
    FirstKeyIsFirst(h, first);
    assert first in h.held.Keys;
  }

  class StreamHalf {
    var buffer: seq<byte>
    const streamCap: nat
    var nextSeq: Option<u32>
    var outOfOrder: map<u32, seq<byte>>
    var dropped: nat
    var tap: BodyTap?
    var finishedFile: Option<FileInfo>

    ghost function Repr(): set<object>
      reads this
    {
      {this} + if tap == null then {} else tap.Repr()
    }

    ghost predicate Valid()
      reads this, Repr()
    {
      tap != null ==> tap.Valid() && !tap.done
    }

    ghost function Watching(): Watch
      reads this, Repr()
    {
      Watch(if tap == null then None else Some(tap.View()), finishedFile)
    }

    ghost function View(): Session
      requires nextSeq.Some?
      reads this, Repr()
    {
      Session(Half(streamCap, buffer, nextSeq.value, outOfOrder, dropped), Watching())
    }

    constructor (cap: nat)
      ensures Valid() && fresh(Repr())
      ensures buffer == [] && streamCap == cap && nextSeq == None && outOfOrder == map[] && dropped == 0
      ensures Watching() == Watch(None, None)
    {
      buffer, streamCap, nextSeq, outOfOrder, dropped := [], cap, None, map[], 0;
      tap, finishedFile := null, None;
    }

    /** The SYN names the number of the byte before the first one; a later SYN changes nothing. */
    method InitSeqFromSyn(isn: u32)
      modifies this`nextSeq
      ensures old(nextSeq) == None ==> nextSeq == Some(WrappingAdd(isn, 1))
      ensures old(nextSeq) != None ==> nextSeq == old(nextSeq)
    {
      if nextSeq == None {
        nextSeq := Some(WrappingAdd(isn, 1));
      }
    }

    /** The tap sees all of what is delivered, not the part the buffer kept. */
    method ShowTap(data: seq<byte>)
      requires Valid()
      modifies Repr()
      ensures Valid() && Repr() <= old(Repr())
      ensures unchanged(this`buffer, this`nextSeq, this`outOfOrder, this`dropped)
      ensures Watching() == Observe(old(Watching()), data)
    {
      hide TapFinish, TapFeed;
      if tap != null {
        tap.Feed(data);
        if tap.done {
          finishedFile := tap.Finish();
          tap := null;
        }
      }
    }

    method Append(data: seq<byte>)
      requires Valid() && nextSeq.Some?
      modifies Repr()
      ensures Valid() && Repr() <= old(Repr()) && nextSeq.Some?
      ensures View() == After(old(View()), Delivery(Reassembly.Append(old(View()).half, data), data))
    {
      hide Observe;
      var room := Max(streamCap - |buffer|, 0);
      var take := Min(|data|, room);
      buffer := buffer + data[..take];
      dropped := dropped + (|data| - take);
      nextSeq := Some(WrappingAdd(nextSeq.value, |data|));
      ShowTap(data);
    }

    /** The held segment an ascending walk over the keys finds first among those reached. */
    method FindReached() returns (start: Option<u32>)
      requires nextSeq.Some?
      ensures start == None ==> forall k: u32 :: !Reached(View().half, k)
      ensures start.Some? ==> FirstReached(View().half, start.value)
    {
      hide SeqAfter, FirstReached, FirstKey;
      var next := nextSeq.value;
      if forall k | k in outOfOrder.Keys :: SeqAfter(k, next) {
        return None;
      }
      FirstKeyExists(View().half);
      var k :| k in outOfOrder.Keys && FirstKey(outOfOrder.Keys, next, k);
      FirstKeyIsFirst(View().half, k);
      return Some(k);
    }

    /** Takes one reached segment out and appends the part of it past the current position. */
    method ReleaseHeld(start: u32)
      requires Valid() && nextSeq.Some? && FirstReached(View().half, start)
      modifies Repr()
      ensures Valid() && Repr() <= old(Repr()) && nextSeq.Some?
      ensures View() == After(old(View()), Release(old(View()).half, start))
    {
      hide Observe;
      ObserveNothing(Watching());
      var next := nextSeq.value;
      var data := outOfOrder[start];
      outOfOrder := outOfOrder - {start};
      var end := WrappingAdd(start, |data|);
      if SeqAfter(end, next) {
        TrimInBounds(start, |data|, next);
        var skip := WrappingSub(next, start);
        Append(data[skip..]);
      }
    }

    /** One turn of the loop: what is left to drain, after what this turn delivers, is what there was to drain. */
    method ReleaseNext(start: u32)
      requires Valid() && nextSeq.Some? && FirstReached(View().half, start)
      modifies Repr()
      ensures Valid() && Repr() <= old(Repr()) && nextSeq.Some? && |outOfOrder| < old(|outOfOrder|)
      ensures After(View(), Drain(View().half)) == old(After(View(), Drain(View().half)))
    {
      hide After, Drain, Release, FirstReached, Reached, SeqAfter;
      assert View().watch.Valid();
      DrainAfterRelease(View(), start);
      ReleaseHeld(start);
    }

    method DrainOutOfOrder()
      requires Valid() && nextSeq.Some?
      modifies Repr()
      ensures Valid() && Repr() <= old(Repr()) && nextSeq.Some?
      ensures View() == After(old(View()), Drain(old(View()).half))
    {
      hide After, Drain, FirstReached, Reached, SeqAfter, Observe, TapFeed, TapFinish, Tap.Valid;
      ghost var whole := After(View(), Drain(View().half));
      var found := FindReached();
      while found.Some?
        invariant Valid() && Repr() <= old(Repr()) && nextSeq.Some?
        invariant After(View(), Drain(View().half)) == whole
        invariant found == None ==> forall k: u32 :: !Reached(View().half, k)
        invariant found.Some? ==> FirstReached(View().half, found.value)
        decreases |outOfOrder|
      {
        ReleaseNext(found.value);
        found := FindReached();
      }
      assert View().watch.Valid();
      DrainStops(View().half);
      AfterNothing(View(), View().half);
    }

    /** Appends bytes at the current position, then releases what they reach. */
    method Deliver(data: seq<byte>)
      requires Valid() && nextSeq.Some?
      modifies Repr()
      ensures Valid() && Repr() <= old(Repr()) && nextSeq.Some?
      ensures View() == After(old(View()), AppendAndDrain(old(View()).half, data))
    {
      hide After, Drain, AppendAndDrain, Reassembly.Append;
      assert View().watch.Valid();
      DrainAfterAppend(View(), data);
      Append(data);
      DrainOutOfOrder();
    }

    /** First data wins, as in order; a longer copy keeps the first's bytes and adds the extra. */
    method HoldBack(start: u32, data: seq<byte>)
      requires Valid() && nextSeq.Some?
      modifies this`outOfOrder
      ensures View() == old(View()).(half := Hold(old(View()).half, start, data))
    {
      var room := |outOfOrder| < MAX_OOO_SEGMENTS;
      if start in outOfOrder {
        var held := outOfOrder[start];
        if |data| > |held| {
          outOfOrder := outOfOrder[start := held + data[|held|..]];
        }
      } else if room {
        outOfOrder := outOfOrder[start := data];
      }
    }

    /** Feeds one segment; true if bytes were delivered, so that detection should run again. */
    method Feed(start: u32, data: seq<byte>) returns (appended: bool)
      requires Valid()
      modifies Repr()
      ensures Valid() && Repr() <= old(Repr())
      ensures data == [] ==> unchanged(this) && Watching() == old(Watching()) && !appended
      ensures data != [] ==>
        var next := if old(nextSeq) == None then start else old(nextSeq).value;
        var before := Session(Half(streamCap, old(buffer), next, old(outOfOrder), old(dropped)), old(Watching()));
        var d := Reassembly.Feed(before.half, start, data);
        && nextSeq.Some?
        && View() == After(before, d)
        && (appended <==> d.bytes != [])
    {
      if data == [] {
        return false;
      }
      if nextSeq == None {
        nextSeq := Some(start);
      }
      appended := FeedAt(start, data);
    }

    method FeedAt(start: u32, data: seq<byte>) returns (appended: bool)
      requires Valid() && nextSeq.Some? && data != []
      modifies Repr()
      ensures Valid() && Repr() <= old(Repr()) && nextSeq.Some?
      ensures var d := Reassembly.Feed(old(View()).half, start, data);
        View() == After(old(View()), d) && (appended <==> d.bytes != [])
    {
      hide After, Drain, Hold, SeqAfter, WrappingAdd;
      var next := nextSeq.value;
      appended := false;
      AfterNothing(View(), View().half);
      if start == next {
        Deliver(data);
        appended := true;
      } else if SeqAfter(start, next) {
        AfterNothing(View(), Hold(View().half, start, data));
        HoldBack(start, data);
      } else {
        var end := WrappingAdd(start, |data|);
        if SeqAfter(end, next) {
          var skip := WrappingSub(next, start);
          if skip < |data| {
            Deliver(data[skip..]);
            appended := true;
          }
        }
      }
    }

    /** A new tap that has read what is already buffered of its body. */
    method TapOnBuffer(bodyOffset: nat, contentLength: Option<nat>, chunked: bool) returns (t: BodyTap)
      requires contentLength != Some(0) || chunked
      ensures fresh(t) && fresh(t.Repr()) && t.Valid()
      ensures var unfed := NewTap(contentLength, chunked, dropped > 0);
        t.View() == if bodyOffset <= |buffer| then TapFeed(unfed, buffer[bodyOffset..]) else unfed
    {
      hide TapFeed, Tap.Valid, NewTap;
      t := new BodyTap(contentLength, chunked, dropped > 0);
      if bodyOffset <= |buffer| {
        t.Feed(buffer[bodyOffset..]);
      }
    }

    method InstallTap(bodyOffset: nat, contentLength: Option<nat>, chunked: bool)
      requires Valid() && nextSeq.Some?
      modifies Repr()
      ensures Valid() && fresh(Repr() - old(Repr())) && nextSeq.Some?
      ensures View() == Install(old(View()), bodyOffset, contentLength, chunked)
    {
      hide TapFeed, TapFinish, Tap.Valid, NewTap, BodyTap.View, BodyTap.Valid;
      if contentLength == Some(0) && !chunked {
        return;
      }
      ghost var before := Watching();
      var t := TapOnBuffer(bodyOffset, contentLength, chunked);
      assert Watching() == before;
      Keep(t);
    }

    /** A tap that is done leaves its report, and one that is not stays. */
    method Keep(t: BodyTap)
      requires Valid() && t.Valid()
      modifies this`tap, this`finishedFile
      ensures Valid() && Repr() <= old(Repr()) + t.Repr()
      ensures Watching() == if t.View().done then old(Watching()).(finished := TapFinish(t.View()))
                            else old(Watching()).(tap := Some(t.View()))
    {
      hide TapFinish, Tap.Valid;
      if t.done {
        finishedFile := t.Finish();
      } else {
        tap := t;
      }
    }

    method FinishTapOnClose()
      requires Valid()
      modifies this`tap, this`finishedFile
      ensures Valid()
      ensures Watching() == Close(old(Watching()))
    {
      if tap != null {
        finishedFile := tap.Finish();
        tap := null;
      }
    }
  }
}
