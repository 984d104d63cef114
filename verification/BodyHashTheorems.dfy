/**
 * What a body hash covers, over whole runs of the reassembler.
 *
 * The digest of a tap that reaches its end is the digest of exactly the body bytes of the
 * stream. Neither the order nor the overlap of the segments nor the reassembly cap appears in
 * the answer.
 */
module BodyHashTheorems {
  import opened Base
  import opened SeqNum
  import opened Reassembly
  import opened ReassemblyTheorems
  import opened Dechunking
  import opened FileHashing
  import opened BodyTapping
  import opened StreamHalves

  /** A run of segments through a half and its tap. */
  ghost function FeedSession(s: Session, initial: u32, run: seq<Segment>): Session {
    if run == [] then s
    else
      var before := FeedSession(s, initial, run[..|run| - 1]);
      var g := run[|run| - 1];
      After(before, Feed(before.half, SeqOf(initial, g.offset), g.data))
  }

  lemma {:induction false} SessionIsRun(s: Session, initial: u32, run: seq<Segment>)
    requires s.watch.Valid()
    ensures FeedSession(s, initial, run) == After(s, FeedAll(s.half, initial, run))
  {
    hide Observe, Feed, Watch.Valid;
    if run == [] {
      AfterNothing(s, s.half);
    } else {
      var front, g := run[..|run| - 1], run[|run| - 1];
      SessionIsRun(s, initial, front);
      var before := FeedAll(s.half, initial, front);
      AfterTwice(s, before, Feed(before.half, SeqOf(initial, g.offset), g.data));
    }
  }

  /** The stream bytes a tap at `offset` has been offered once `h` has been reached. */
  ghost function BodyBytes(h: Half, stream: Stream, offset: nat): seq<byte> {
    if offset <= h.Position() then Slice(stream, offset, h.Position() - offset) else []
  }

  lemma SettleThenObserve(w: Watch, t: Tap, data: seq<byte>)
    requires w.tap == None && t.Valid()
    ensures Observe(Settle(w, t), data) == Settle(w, TapFeed(t, data))
  {
  }

  lemma NewTapValid(contentLength: Option<nat>, chunked: bool, lost: bool)
    requires contentLength != Some(0) || chunked
    ensures NewTap(contentLength, chunked, lost).Valid()
  {
  }

  /** What is buffered past the offset, then what is delivered later, are the body bytes. */
  lemma BodyBytesJoin(h: Half, stream: Stream, initial: u32, fed: seq<Segment>, run: seq<Segment>, offset: nat)
    requires Faithful(h, stream, initial, fed) && Admissible(h, stream, initial, run)
    requires h.dropped == 0 && offset <= |h.buffer|
    ensures var more := FeedAll(h, initial, run);
      h.buffer[offset..] + more.bytes == BodyBytes(more.half, stream, offset)
  {
    hide SeqOf, HeldFrom, Accounted, Feed, Admissible;
    var more := FeedAll(h, initial, run);
    RunFollowsStream(h, stream, initial, fed, run);
    assert h.buffer == Slice(stream, 0, h.Position());
    SliceDrops(stream, 0, h.Position(), offset);
    SliceJoins(stream, offset, h.Position() - offset, |more.bytes|);
  }

  /**
   * Install a tap anywhere in the buffered part of a stream of which nothing has been dropped,
   * then feed any admissible run: the tap stands exactly where one feed of the stream bytes from
   * `offset` to the current position would put it.
   */
  lemma TapSeesStream(s: Session, stream: Stream, initial: u32, fed: seq<Segment>, run: seq<Segment>, offset: nat,
      contentLength: Option<nat>, chunked: bool)
    requires Faithful(s.half, stream, initial, fed) && Admissible(s.half, stream, initial, run)
    requires s.watch.tap == None && s.half.dropped == 0 && offset <= |s.half.buffer|
    requires contentLength != Some(0) || chunked
    ensures var after := FeedSession(Install(s, offset, contentLength, chunked), initial, run);
      && after.half == FeedAll(s.half, initial, run).half
      && after.watch == Settle(s.watch, TapFeed(NewTap(contentLength, chunked, false),
        BodyBytes(after.half, stream, offset)))
  {
    var t := NewTap(contentLength, chunked, false);
    var prefix := s.half.buffer[offset..];
    var more := FeedAll(s.half, initial, run);
    NewTapValid(contentLength, chunked, false);
    TapFeedKeepsValid(t, prefix);
    var installed := Install(s, offset, contentLength, chunked);
    assert installed == Session(s.half, Settle(s.watch, TapFeed(t, prefix)));
    assert installed.watch.Valid();
    BodyBytesJoin(s.half, stream, initial, fed, run, offset);
    hide TapFeed, Faithful, Admissible, BodyBytes, Settle, Observe, FeedAll, FeedSession, NewTap, Tap.Valid,
      Watch.Valid;
    SessionIsRun(installed, initial, run);
    SettleThenObserve(s.watch, TapFeed(t, prefix), more.bytes);
    TapSplits(t, prefix, more.bytes);
  }

  /** A body of declared length: the tap takes its bytes and no others, and is done with the last. */
  lemma FixedLengthTap(n: nat, data: seq<byte>)
    requires n > 0
    ensures var t := TapFeed(NewTap(Some(n), false, false), data);
      && t.body == Prefix(data, n)
      && (t.done <==> |data| >= n)
      && !t.incomplete && t.chunk == None
  {
    assert [] + data[..Min(n, |data|)] == Prefix(data, n);
  }

  /**
   * `Content-Length: n`. As soon as the stream has reached the end of the body, and not before,
   * there is a report, and it is the digest of those `n` bytes of the stream.
   */
  lemma FixedLengthDigest(s: Session, stream: Stream, initial: u32, fed: seq<Segment>, run: seq<Segment>, offset: nat,
      n: nat)
    requires Faithful(s.half, stream, initial, fed) && Admissible(s.half, stream, initial, run)
    requires s.watch == Watch(None, None) && s.half.dropped == 0 && offset <= |s.half.buffer| && n > 0
    ensures var after := FeedSession(Install(s, offset, Some(n), false), initial, run);
      if after.half.Position() >= offset + n
      then after.watch == Watch(None, Digest(Slice(stream, offset, n)))
      else after.watch.tap.Some? && after.watch.finished == None
  {
    hide Faithful, Admissible, Slice, FeedAll, FeedSession, Install, Digest, TapFeed, NewTap, Run;
    TapSeesStream(s, stream, initial, fed, run, offset, Some(n), false);
    RunFollowsStream(s.half, stream, initial, fed, run);
    BufferIsBehind(s.half, stream, initial, fed, offset);
    var m := FeedSession(Install(s, offset, Some(n), false), initial, run).half.Position() - offset;
    FixedLengthTap(n, Slice(stream, offset, m));
    PrefixOfSlice(stream, offset, m, n);
    WholeSlice(stream, offset, n, Slice(stream, offset, n));
  }

  lemma WholeSlice(stream: Stream, offset: nat, n: nat, whole: seq<byte>)
    requires whole == Slice(stream, offset, n)
    ensures |whole| == n && whole[..n] == whole
  {
  }

  /** A chunked tap stands where its decoder does. */
  lemma ChunkedTapIsRun(data: seq<byte>)
    ensures var t, r := TapFeed(NewTap(None, true, false), data), Run(INITIAL, data);
      t.done == r.decoder.done && t.body == r.payload && t.incomplete == r.decoder.bad && t.chunk == Some(r.decoder)
  {
    assert [] + Run(INITIAL, data).payload == Run(INITIAL, data).payload;
  }

  /** The decoder on a body cut short, complete, or with more of the stream behind it. */
  lemma ChunkedOutcome(chunks: seq<Chunk>, last: Chunk, wire: seq<byte>, body: seq<byte>)
    requires forall i :: 0 <= i < |chunks| ==> chunks[i].WellFormed() && chunks[i].data != []
    requires last.WellFormed() && last.data == []
    requires wire == EncodeBody(chunks, last, [])
    requires if |body| >= |wire| then body[..|wire|] == wire else body == wire[..|body|]
    ensures var r := Run(INITIAL, body);
      if |body| >= |wire| then r == Decoded(r.decoder, Payload(chunks)) && r.decoder.done && !r.decoder.bad
      else !r.decoder.done
  {
    if |body| >= |wire| {
      assert body == EncodeBody(chunks, last, body[|wire|..]);
      EncodedBodyDecodes(chunks, last, body[|wire|..]);
    } else {
      EncodedBodyNotDoneEarly(chunks, last, body);
    }
  }

  /**
   * `Transfer-Encoding: chunked`. There is a report exactly from the byte that ends the body on,
   * and it is the digest of the chunks' data with all the framing taken out.
   */
  lemma ChunkedDigest(s: Session, stream: Stream, initial: u32, fed: seq<Segment>, run: seq<Segment>, offset: nat,
      chunks: seq<Chunk>, last: Chunk)
    requires Faithful(s.half, stream, initial, fed) && Admissible(s.half, stream, initial, run)
    requires s.watch == Watch(None, None) && s.half.dropped == 0 && offset <= |s.half.buffer|
    requires forall i :: 0 <= i < |chunks| ==> chunks[i].WellFormed() && chunks[i].data != []
    requires last.WellFormed() && last.data == []
    requires Slice(stream, offset, |EncodeBody(chunks, last, [])|) == EncodeBody(chunks, last, [])
    ensures var after := FeedSession(Install(s, offset, None, true), initial, run);
      if after.half.Position() >= offset + |EncodeBody(chunks, last, [])|
      then after.watch == Watch(None, Digest(Payload(chunks)))
      else after.watch.tap.Some? && after.watch.finished == None
  {
    hide Faithful, Admissible, FeedSession, Install, FeedAll, Run, EncodeBody, Digest, TapFeed;
    var wire := EncodeBody(chunks, last, []);
    TapSeesStream(s, stream, initial, fed, run, offset, None, true);
    RunFollowsStream(s.half, stream, initial, fed, run);
    BufferIsBehind(s.half, stream, initial, fed, offset);
    var h := FeedAll(s.half, initial, run).half;
    var body := BodyBytes(h, stream, offset);
    ChunkedTapIsRun(body);
    BodyAgainstWire(stream, offset, h.Position() - offset, wire);
    ChunkedOutcome(chunks, last, wire, body);
  }

  lemma BufferIsBehind(h: Half, stream: Stream, initial: u32, fed: seq<Segment>, offset: nat)
    requires Faithful(h, stream, initial, fed) && offset <= |h.buffer|
    ensures offset <= h.Position()
  {
  }

  lemma BodyAgainstWire(stream: Stream, offset: nat, n: nat, wire: seq<byte>)
    requires Slice(stream, offset, |wire|) == wire
    ensures var body := Slice(stream, offset, n);
      if n >= |wire| then body[..|wire|] == wire else body == wire[..n]
  {
    var body := Slice(stream, offset, n);
    forall i | 0 <= i < n && i < |wire|
      ensures body[i] == wire[i]
    {
      assert wire[i] == Slice(stream, offset, |wire|)[i];
    }
  }

  /** What a tap on `body` reports when the connection closes, if it has not reported already. */
  function ClosingReport(contentLength: Option<nat>, chunked: bool, body: seq<byte>): Option<FileInfo> {
    if chunked then
      var r := Run(INITIAL, body);
      if r.decoder.bad then None else Digest(r.payload)
    else Digest(if contentLength.Some? then Prefix(body, contentLength.value) else body)
  }

  /** The tap on its own: what it would report, whether it was done already or is closed now. */
  lemma TapReports(contentLength: Option<nat>, chunked: bool, body: seq<byte>)
    requires contentLength != Some(0) || chunked
    ensures TapFinish(TapFeed(NewTap(contentLength, chunked, false), body)) ==
      ClosingReport(contentLength, chunked, body)
  {
    if chunked {
      assert NewTap(contentLength, true, false) == NewTap(None, true, false);
      ChunkedTapIsRun(body);
    } else if contentLength.Some? {
      FixedLengthTap(contentLength.value, body);
    } else {
      assert [] + body == body;
    }
    hide TapFeed, Run, Digest;
  }

  /**
   * A body of declared length zero is not hashed: no run of any segments and no close changes what the half watches
   * or has reported.
   */
  lemma EmptyBodyIsNotHashed(s: Session, initial: u32, run: seq<Segment>, offset: nat)
    requires s.watch.tap == None
    ensures var after := FeedSession(Install(s, offset, Some(0), false), initial, run);
      after.half == FeedAll(s.half, initial, run).half && after.watch == s.watch && Close(after.watch) == s.watch
  {
    hide Feed, FeedAll, FeedSession;
    SessionIsRun(s, initial, run);
  }

  /**
   * By the time the connection has closed there is the report of every kind of tap, as it stands: of a declared length,
   * the digest of the bytes seen so far, reached or not, and none of a length of zero; of a chunked body, that of the
   * data decoded so far, or none if the framing was bad; with neither, that of all the bytes.
   */
  lemma DigestOnClose(s: Session, stream: Stream, initial: u32, fed: seq<Segment>, run: seq<Segment>, offset: nat,
      contentLength: Option<nat>, chunked: bool)
    requires Faithful(s.half, stream, initial, fed) && Admissible(s.half, stream, initial, run)
    requires s.watch == Watch(None, None) && s.half.dropped == 0 && offset <= |s.half.buffer|
    ensures var after := FeedSession(Install(s, offset, contentLength, chunked), initial, run);
      Close(after.watch) == Watch(None, ClosingReport(contentLength, chunked, BodyBytes(after.half, stream, offset)))
  {
    hide Faithful, Admissible, BodyBytes, Slice, FeedAll, FeedSession, Install, TapFeed, ClosingReport, NewTap;
    var after := FeedSession(Install(s, offset, contentLength, chunked), initial, run);
    if contentLength == Some(0) && !chunked {
      EmptyBodyIsNotHashed(s, initial, run, offset);
      NoReportOfNothing(BodyBytes(after.half, stream, offset));
    } else {
      TapSeesStream(s, stream, initial, fed, run, offset, contentLength, chunked);
      TapReports(contentLength, chunked, BodyBytes(after.half, stream, offset));
    }
  }

  lemma NoReportOfNothing(body: seq<byte>)
    ensures ClosingReport(Some(0), false, body) == None
  {
  }

  // ----- A tap on any half and any run -----

  /** What of the buffer is the start of the body; an offset past the buffer leaves none of it. */
  function BufferedBody(buffer: seq<byte>, offset: nat): seq<byte> {
    if offset <= |buffer| then buffer[offset..] else []
  }

  /**
   * Whatever the segments say and wherever the tap is put: it stands where one feed of the buffered body and of every
   * byte delivered since would put it, and it is marked if anything had been dropped by then.
   */
  lemma TapSeesDelivered(s: Session, initial: u32, run: seq<Segment>, offset: nat, contentLength: Option<nat>,
      chunked: bool)
    requires s.watch.tap == None && (contentLength != Some(0) || chunked)
    ensures var after := FeedSession(Install(s, offset, contentLength, chunked), initial, run);
      var body := BufferedBody(s.half.buffer, offset) + FeedAll(s.half, initial, run).bytes;
      after.watch == Settle(s.watch, TapFeed(NewTap(contentLength, chunked, s.half.dropped > 0), body))
  {
    var t, prefix := NewTap(contentLength, chunked, s.half.dropped > 0), BufferedBody(s.half.buffer, offset);
    var more := FeedAll(s.half, initial, run);
    NewTapValid(contentLength, chunked, s.half.dropped > 0);
    TapFeedKeepsValid(t, prefix);
    FreshTapFedNothing(contentLength, chunked, s.half.dropped > 0);
    var installed := Install(s, offset, contentLength, chunked);
    assert installed == Session(s.half, Settle(s.watch, TapFeed(t, prefix)));
    assert installed.watch.Valid();
    hide TapFeed, Settle, Observe, FeedAll, FeedSession, NewTap, Tap.Valid, Watch.Valid, Install, BufferedBody;
    SessionIsRun(installed, initial, run);
    SettleThenObserve(s.watch, TapFeed(t, prefix), more.bytes);
    TapSplits(t, prefix, more.bytes);
  }

  lemma FreshTapFedNothing(contentLength: Option<nat>, chunked: bool, lost: bool)
    requires contentLength != Some(0) || chunked
    ensures var t := NewTap(contentLength, chunked, lost); TapFeed(t, []) == t && !t.done
  {
    if chunked {
      assert Run(INITIAL, []) == Decoded(INITIAL, []);
    }
  }

  /** Cutting a body short shows in its report, unless what is left already runs past the hashing limit. */
  lemma DigestOfPrefixIff(body: seq<byte>, m: nat)
    requires m <= |body|
    ensures Digest(body[..m]) == Digest(body) <==> m == |body| || m > MAX_STREAM_HASH
  {
    if m == |body| {
      assert body[..m] == body;
    } else if m > MAX_STREAM_HASH {
      assert Prefix(body[..m], MAX_STREAM_HASH) == Prefix(body, MAX_STREAM_HASH);
      assert Prefix(body[..m], HEAD_BYTES) == Prefix(body, HEAD_BYTES);
    }
  }

  lemma PrefixOfSlice(stream: Stream, offset: nat, m: nat, n: nat)
    ensures Prefix(Slice(stream, offset, m), n) == Slice(stream, offset, n)[..Min(m, n)]
  {
  }

  /**
   * A FIN before the declared end is not marked in the report. Yet the report is that of the whole body if and only if
   * the stream reached the end of the body, or past the hashing limit, behind which nothing shows.
   */
  lemma WholeReportIff(s: Session, stream: Stream, initial: u32, fed: seq<Segment>, run: seq<Segment>, offset: nat,
      n: nat)
    requires Faithful(s.half, stream, initial, fed) && Admissible(s.half, stream, initial, run)
    requires s.watch == Watch(None, None) && s.half.dropped == 0 && offset <= |s.half.buffer| && n > 0
    ensures var after := FeedSession(Install(s, offset, Some(n), false), initial, run);
      Close(after.watch) == Watch(None, Digest(Slice(stream, offset, n))) <==>
      after.half.Position() >= offset + n || after.half.Position() - offset > MAX_STREAM_HASH
  {
    hide Faithful, Admissible, Slice, FeedAll, FeedSession, Install, Digest, Close, Run;
    DigestOnClose(s, stream, initial, fed, run, offset, Some(n), false);
    TapSeesStream(s, stream, initial, fed, run, offset, Some(n), false);
    RunFollowsStream(s.half, stream, initial, fed, run);
    BufferIsBehind(s.half, stream, initial, fed, offset);
    var m := FeedSession(Install(s, offset, Some(n), false), initial, run).half.Position() - offset;
    PrefixOfSlice(stream, offset, m, n);
    WholeSlice(stream, offset, n, Slice(stream, offset, n));
    DigestOfPrefixIff(Slice(stream, offset, n), Min(m, n));
  }

  /** Nothing has been reported and nothing will be: what the tap holds is known to be wrong. */
  predicate Doomed(w: Watch) {
    w.finished == None && (w.tap.Some? ==> w.tap.value.incomplete)
  }

  lemma DoomedForGood(w: Watch, data: seq<byte>)
    requires Doomed(w)
    ensures Doomed(Observe(w, data)) && Close(w).finished == None
  {
  }

  /** Bytes dropped before the tap was installed: no run and no close ever yields a digest. */
  lemma {:induction false} NoDigestAfterLoss(s: Session, initial: u32, run: seq<Segment>, offset: nat,
      contentLength: Option<nat>, chunked: bool)
    requires s.watch == Watch(None, None) && s.half.dropped > 0
    ensures var after := FeedSession(Install(s, offset, contentLength, chunked), initial, run).watch;
      Doomed(after) && after.finished == None && Close(after).finished == None
  {
    hide Observe, Feed;
    if run == [] {
    } else {
      var front, g := run[..|run| - 1], run[|run| - 1];
      NoDigestAfterLoss(s, initial, front, offset, contentLength, chunked);
      var before := FeedSession(Install(s, offset, contentLength, chunked), initial, front);
      DoomedForGood(before.watch, Feed(before.half, SeqOf(initial, g.offset), g.data).bytes);
    }
  }

  // ----- A slot already in use -----

  /**
   * Two bodies at once. A tap that is installed while another is open takes its place, and the other body is never
   * reported; one that is finished by what is already buffered leaves the other open and only its report behind.
   */
  lemma InstallOverOpenTap(s: Session, offset: nat, contentLength: Option<nat>, chunked: bool)
    requires s.watch.Valid() && s.watch.tap.Some? && (contentLength != Some(0) || chunked)
    ensures var alone := Install(s.(watch := Watch(None, s.watch.finished)), offset, contentLength, chunked);
      Install(s, offset, contentLength, chunked) ==
      if alone.watch.tap.Some? then alone else alone.(watch := Watch(s.watch.tap, alone.watch.finished))
    ensures var alone := Install(s.(watch := Watch(None, s.watch.finished)), offset, contentLength, chunked);
      alone.watch.tap.Some? ==> alone.watch.finished == s.watch.finished && !alone.watch.tap.value.done
  {
    hide TapFeed, NewTap, TapFinish;
  }

  /** Only the latest report waits to be collected: whatever a tap leaves, nothing included, takes its place. */
  lemma ReportReplaces(w: Watch, earlier: Option<FileInfo>, data: seq<byte>)
    requires w.Valid() && w.tap.Some?
    ensures var fed := TapFeed(w.tap.value, data);
      && (fed.done ==> Observe(w, data) == Watch(None, TapFinish(fed)))
      && (!fed.done ==> Observe(w, data) == Watch(Some(fed), w.finished))
      && (fed.done ==> Observe(w.(finished := earlier), data) == Observe(w, data))
      && Close(w.(finished := earlier)) == Close(w)
  {
    hide TapFeed, TapFinish;
  }
}
