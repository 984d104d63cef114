/** Hashing one HTTP body as its segments are reassembled. */
module BodyTapping {
  import opened Base
  import opened Dechunking
  import opened FileHashing

  /** A tap as a value: how the body ends, and the body bytes seen so far. */
  datatype Tap = Tap(remaining: Option<nat>, chunk: Option<Decoder>, done: bool, incomplete: bool, body: seq<byte>)
  {
    /** Once the ending condition holds the tap is done, and garbled chunking is never complete. */
    predicate Valid() {
      && (chunk.Some? ==> chunk.value.Valid() && (chunk.value.done ==> done) && (chunk.value.bad ==> incomplete))
      && (remaining == Some(0) ==> done)
    }
  }

  function NewTap(contentLength: Option<nat>, chunked: bool, bytesLost: bool): Tap {
    Tap(if chunked then None else contentLength, if chunked then Some(INITIAL) else None, false, bytesLost, [])
  }

  function TapFeed(t: Tap, data: seq<byte>): Tap {
    if t.done then t
    else if t.chunk.Some? then
      var r := Run(t.chunk.value, data);
      t.(chunk := Some(r.decoder), body := t.body + r.payload,
         incomplete := t.incomplete || r.decoder.bad, done := r.decoder.done)
    else if t.remaining.Some? then
      var take := Min(t.remaining.value, |data|);
      t.(remaining := Some(t.remaining.value - take), body := t.body + data[..take],
         done := t.remaining.value == take)
    else
      t.(body := t.body + data)
  }

  /** The report of a finished tap: none if any part of the body is known to be wrong. */
  function TapFinish(t: Tap): Option<FileInfo> {
    if t.incomplete || (t.chunk.Some? && t.chunk.value.bad) then None else Digest(t.body)
  }

  lemma TapFeedKeepsValid(t: Tap, data: seq<byte>)
    requires t.Valid()
    ensures TapFeed(t, data).Valid()
  {
    if t.chunk.Some? {
      RunKeepsValid(t.chunk.value, data);
    }
  }

  lemma {:induction false} RunNeverUnfails(d: Decoder, data: seq<byte>)
    ensures d.bad ==> Run(d, data).decoder.bad
    decreases |data|
  {
    if data != [] && !d.done {
      RunNeverUnfails(Step(d, data[0]).decoder, data[1..]);
    }
  }

  lemma ChunkedTapSplits(t: Tap, a: seq<byte>, b: seq<byte>)
    requires t.Valid() && t.chunk.Some? && !t.done
    ensures TapFeed(TapFeed(t, a), b) == TapFeed(t, a + b)
  {
    var middle := Run(t.chunk.value, a);
    var last := Run(middle.decoder, b);
    RunSplits(t.chunk.value, a, b);
    RunNeverUnfails(middle.decoder, b);
    if middle.decoder.done {
      RunStops(middle.decoder, b);
    }
    hide Run, Decoder.Valid;
    assert t.body + (middle.payload + last.payload) == t.body + middle.payload + last.payload;
    assert t.body + middle.payload + [] == t.body + middle.payload;
  }

  lemma CountedTapSplits(t: Tap, a: seq<byte>, b: seq<byte>)
    requires t.chunk.None? && t.remaining.Some? && !t.done
    ensures TapFeed(TapFeed(t, a), b) == TapFeed(t, a + b)
  {
    hide Run;
    var take := Min(t.remaining.value, |a|);
    var more := Min(t.remaining.value - take, |b|);
    assert (a + b)[..take + more] == a[..take] + b[..more];
    assert t.body + (a[..take] + b[..more]) == t.body + a[..take] + b[..more];
    assert a[..take] + b[..0] == a[..take];
  }

  /** A tap cannot tell how its input was segmented. */
  lemma TapSplits(t: Tap, a: seq<byte>, b: seq<byte>)
    requires t.Valid()
    ensures TapFeed(TapFeed(t, a), b) == TapFeed(t, a + b)
  {
    if t.done {
    } else if t.chunk.Some? {
      hide Run;
      ChunkedTapSplits(t, a, b);
    } else if t.remaining.Some? {
      hide Run;
      CountedTapSplits(t, a, b);
    } else {
      hide Run;
      assert t.body + (a + b) == t.body + a + b;
    }
  }

  // ----- The tap slot of a stream half -----

  /** The tap currently installed, if any, and the last report waiting to be collected. */
  datatype Watch = Watch(tap: Option<Tap>, finished: Option<FileInfo>)
  {
    predicate Valid() {
      tap.Some? ==> tap.value.Valid() && !tap.value.done
    }
  }

  /** Newly delivered bytes: the tap sees all of them, and leaves its report when it is done. */
  function Observe(w: Watch, data: seq<byte>): Watch {
    match w.tap
    case None => w
    case Some(t) => Settle(w, TapFeed(t, data))
  }

  function Settle(w: Watch, t: Tap): Watch {
    if t.done then Watch(None, TapFinish(t)) else w.(tap := Some(t))
  }

  lemma ObserveKeepsValid(w: Watch, data: seq<byte>)
    requires w.Valid()
    ensures Observe(w, data).Valid()
  {
    if w.tap.Some? {
      TapFeedKeepsValid(w.tap.value, data);
    }
  }

  lemma ObserveNothing(w: Watch)
    requires w.Valid()
    ensures Observe(w, []) == w
  {
    if w.tap.Some? && w.tap.value.chunk.Some? {
      RunStops(w.tap.value.chunk.value, []);
    }
    assert w.tap.Some? ==> w.tap.value.body + [] == w.tap.value.body;
  }

  lemma ObserveSplits(w: Watch, a: seq<byte>, b: seq<byte>)
    requires w.Valid()
    ensures Observe(Observe(w, a), b) == Observe(w, a + b)
  {
    if w.tap.Some? {
      TapSplits(w.tap.value, a, b);
    }
  }

  // ----- The tap as the program runs it -----

  class BodyTap {
    const hasher: FileHasher
    var remaining: Option<nat>
    const chunk: Dechunker?
    var done: bool
    var incomplete: bool

    ghost function Repr(): set<object> {
      {this, hasher, hasher.head} + if chunk == null then {} else {chunk}
    }

    ghost function View(): Tap
      reads Repr()
    {
      Tap(remaining, if chunk == null then None else Some(chunk.View()), done, incomplete, hasher.input)
    }

    ghost predicate Valid()
      reads Repr()
    {
      hasher.Valid() && View().Valid()
    }

    constructor (contentLength: Option<nat>, chunked: bool, bytesLost: bool)
      requires contentLength != Some(0) || chunked
      ensures Valid() && fresh(Repr())
      ensures View() == NewTap(contentLength, chunked, bytesLost)
    {
      hasher := new FileHasher();
      remaining := if chunked then None else contentLength;
      if chunked {
        chunk := new Dechunker();
      } else {
        chunk := null;
      }
      done := false;
      incomplete := bytesLost;
    }

    method Feed(data: seq<byte>)
      requires Valid()
      modifies Repr()
      ensures Valid()
      ensures View() == TapFeed(old(View()), data)
    {
      TapFeedKeepsValid(View(), data);
      if done {
        return;
      }
      if chunk != null {
        chunk.Feed(data, hasher);
        if chunk.bad {
          incomplete := true;
        }
        done := chunk.done;
      } else if remaining.Some? {
        var take := Min(remaining.value, |data|);
        hasher.Update(data[..take]);
        remaining := Some(remaining.value - take);
        done := remaining.value == 0;
      } else {
        hasher.Update(data);
      }
    }

    method Finish() returns (info: Option<FileInfo>)
      requires Valid()
      ensures info == TapFinish(View())
    {
      if incomplete || (chunk != null && chunk.bad) {
        return None;
      }
      info := hasher.Finish(false);
    }
  }
}
