/**
 * One direction of a TCP connection: the reassembly step as a function on values.
 *
 * `StreamHalf` in StreamHalf.dfy is the mutable object; its methods are proved equal to the
 * functions here, and ReassemblyTheorems.dfy proves what these functions mean.
 */
module Reassembly {
  import opened Base
  import opened SeqNum

  const MAX_OOO_SEGMENTS: nat := 16

  /** The reassembly fields of one stream half, once a starting sequence number is known. */
  datatype Half = Half(
    cap: nat,
    buffer: seq<byte>,
    next: u32,
    held: map<u32, seq<byte>>,
    dropped: nat
  )
  {
    /** How many bytes of the stream have been delivered. */
    function Position(): nat { |buffer| + dropped }
  }

  /** What a step leaves behind, and the bytes it handed to `append`, in order. */
  datatype Delivery = Delivery(half: Half, bytes: seq<byte>)

  function Fresh(cap: nat, next: u32): Half {
    Half(cap, [], next, map[], 0)
  }

  function Append(h: Half, data: seq<byte>): Half {
    var room := Max(h.cap - |h.buffer|, 0);
    var take := Min(|data|, room);
    h.(buffer := h.buffer + data[..take],
       dropped := h.dropped + (|data| - take),
       next := WrappingAdd(h.next, |data|))
  }

  /** A held segment the stream has reached: it starts at or before the next expected byte. */
  predicate Reached(h: Half, k: u32) {
    k in h.held && !SeqAfter(k, h.next)
  }

  /** The reached segment that an ascending walk over the held keys meets first. */
  ghost predicate FirstReached(h: Half, k: u32) {
    Reached(h, k) && forall j: u32 :: Reached(h, j) ==> k <= j
  }

  lemma FirstReachedExists(h: Half, k: u32)
    requires Reached(h, k)
    ensures exists first: u32 :: FirstReached(h, first)
    decreases k
  {
    if !FirstReached(h, k) {
      var j: u32 :| Reached(h, j) && j < k;
      FirstReachedExists(h, j);
    }
  }

  ghost function NextReached(h: Half): (k: u32)
    requires exists j: u32 :: Reached(h, j)
    ensures FirstReached(h, k)
  {
    var j: u32 :| Reached(h, j);
    FirstReachedExists(h, j);
    var k: u32 :| FirstReached(h, k);
    k
  }

  /** Takes one held segment out and delivers what of it is new. */
  function Release(h: Half, k: u32): Delivery
    requires Reached(h, k)
  {
    var data := h.held[k];
    var rest := h.(held := h.held - {k});
    if SeqAfter(WrappingAdd(k, |data|), h.next) then
      TrimInBounds(k, |data|, h.next);
      var tail := data[WrappingSub(h.next, k)..];
      Delivery(Append(rest, tail), tail)
    else
      Delivery(rest, [])
  }

  ghost function Drain(h: Half): Delivery
    decreases |h.held|
  {
    if exists k: u32 :: Reached(h, k) then
      var step := Release(h, NextReached(h));
      var rest := Drain(step.half);
      Delivery(rest.half, step.bytes + rest.bytes)
    else
      Delivery(h, [])
  }

  /** Draining one segment at a time, in the order an ascending walk meets them, is draining. */
  lemma DrainStep(h: Half, k: u32)
    requires FirstReached(h, k)
    ensures var step := Release(h, k);
      && Drain(h).half == Drain(step.half).half
      && Drain(h).bytes == step.bytes + Drain(step.half).bytes
      && |step.half.held| < |h.held|
  {
    assert Reached(h, k) && NextReached(h) == k;
  }

  lemma DrainStops(h: Half)
    requires forall k: u32 :: !Reached(h, k)
    ensures Drain(h) == Delivery(h, [])
  {
  }

  ghost function AppendAndDrain(h: Half, data: seq<byte>): Delivery {
    var rest := Drain(Append(h, data));
    Delivery(rest.half, data + rest.bytes)
  }

  /** Keeps a segment that is ahead of the stream: first copy wins, a longer copy adds its tail. */
  function Hold(h: Half, start: u32, data: seq<byte>): Half {
    if start in h.held then
      var kept := h.held[start];
      if |data| > |kept| then h.(held := h.held[start := kept + data[|kept|..]]) else h
    else if |h.held| < MAX_OOO_SEGMENTS then
      h.(held := h.held[start := data])
    else
      h
  }

  /** The segment is ahead of the stream and there is no room to remember it. */
  predicate Refused(h: Half, start: u32, data: seq<byte>) {
    data != [] && start != h.next && SeqAfter(start, h.next) &&
    start !in h.held && |h.held| >= MAX_OOO_SEGMENTS
  }

  ghost function Feed(h: Half, start: u32, data: seq<byte>): Delivery {
    if data == [] then
      Delivery(h, [])
    else if start == h.next then
      AppendAndDrain(h, data)
    else if SeqAfter(start, h.next) then
      Delivery(Hold(h, start, data), [])
    else if SeqAfter(WrappingAdd(start, |data|), h.next) then
      var skip := WrappingSub(h.next, start);
      if skip < |data| then AppendAndDrain(h, data[skip..]) else Delivery(h, [])
    else
      Delivery(h, [])
  }
}
