/** The message cursors on top of reassembly (src/engine.rs): what a peer sends is what the parsers are given. */
module StreamMessages {
  import opened Base
  import opened SeqNum
  import opened Reassembly
  import opened ReassemblyTheorems
  import opened Framing

  ghost function HalfAfter(cap: nat, initial: u32, run: seq<Segment>): Half {
    FeedAll(Fresh(cap, initial), initial, run).half
  }

  /** The buffer only grows, whatever is fed. */
  lemma {:induction false} BufferGrows(cap: nat, initial: u32, run: seq<Segment>)
    ensures Settled(HalfAfter(cap, initial, run))
    ensures run != [] ==> HalfAfter(cap, initial, run[..|run| - 1]).buffer <= HalfAfter(cap, initial, run).buffer
  {
    if run != [] {
      hide Feed, SeqOf, Settled;
      var front, g := run[..|run| - 1], run[|run| - 1];
      BufferGrows(cap, initial, front);
      FeedIsAppendOnly(HalfAfter(cap, initial, front), SeqOf(initial, g.offset), g.data);
    }
  }

  /** The cursor polled after every segment fed. */
  ghost function MessagesOf(p: Protocol, cap: nat, initial: u32, run: seq<Segment>): (r: Polled)
    ensures r.cursor.pos <= |HalfAfter(cap, initial, run).buffer|
  {
    if run == [] then Polled([], START)
    else
      var before := MessagesOf(p, cap, initial, run[..|run| - 1]);
      BufferGrows(cap, initial, run);
      var now := Poll(p, HalfAfter(cap, initial, run).buffer, before.cursor);
      Polled(before.messages + now.messages, now.cursor)
  }

  /**
   * For any run of segments, consistent or not, however often the buffer is looked at on the way: the messages are
   * those of one look at the final buffer.
   */
  lemma {:induction false} MessagesAreOfTheBuffer(p: Protocol, cap: nat, initial: u32, run: seq<Segment>)
    ensures var f := Extract(p, HalfAfter(cap, initial, run).buffer);
            MessagesOf(p, cap, initial, run) == Polled(f.messages, Cursor(f.used, f.stopped))
  {
    hide Extract, FeedAll;
    if run == [] {
      assert HalfAfter(cap, initial, run).buffer == [] by { NothingFed(cap, initial); }
      CutsAreInvisible(p, []);
    } else {
      var front := run[..|run| - 1];
      MessagesAreOfTheBuffer(p, cap, initial, front);
      BufferGrows(cap, initial, run);
      var b, c := HalfAfter(cap, initial, front).buffer, HalfAfter(cap, initial, run).buffer;
      assert c == b + c[|b|..];
      ExtractGrows(p, b, c[|b|..]);
    }
  }

  lemma NothingFed(cap: nat, initial: u32)
    ensures HalfAfter(cap, initial, []).buffer == []
  {
  }

  /**
   * A peer's messages, sent as one stream and cut into segments that arrive in any order, repeated, overlapping and
   * across any wrap of the sequence numbers: once the stream has been delivered, and if the buffer could hold it,
   * the cursor has returned exactly those messages.
   */
  lemma SentMessagesArrive(
    p: Protocol, cap: nat, s: Stream, initial: u32, run: seq<Segment>, messages: seq<seq<byte>>, wires: seq<seq<byte>>)
    requires Admissible(Fresh(cap, initial), s, initial, run) && Sent(p, messages, wires)
    requires var n := |Joined(wires)|;
             && Slice(s, 0, n) == Joined(wires) && n <= cap
             && LongestCoveredPrefix(Accepted(Fresh(cap, initial), initial, run), n)
    ensures MessagesOf(p, cap, initial, run).messages == messages
  {
    hide Extract, FeedAll, Sent, Slice, Admissible;
    var n := |Joined(wires)|;
    var h := HalfAfter(cap, initial, run);
    ReassemblyIsExact(cap, s, initial, run);
    LongestCoveredPrefixUnique(Accepted(Fresh(cap, initial), initial, run), n, h.Position());
    assert h.buffer == Joined(wires);
    MessagesAreOfTheBuffer(p, cap, initial, run);
    SentIsFound(p, messages, wires);
  }
}
