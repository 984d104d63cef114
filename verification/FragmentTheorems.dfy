/**
 * Fragmenting and reassembling: any partition of a payload, in any order, among any other
 * traffic, gives back the payload exactly when its last piece arrives.
 */
module FragmentTheorems {
  import opened Base
  import opened Fragments

  // ----- Pieces that agree with one payload -----

  predicate PieceOfPayload(piece: Piece, payload: seq<byte>) {
    piece.offset + |piece.data| <= |payload| &&
    piece.data == payload[piece.offset..piece.offset + |piece.data|]
  }

  lemma CoveredHasByte(pieces: seq<Piece>, policy: Policy, at: nat, j: nat)
    requires j < |pieces| && pieces[j].Covers(at)
    ensures ByteAt(pieces, policy, at).Some?
  {
    OverlapByArrival(pieces, policy, at);
  }

  lemma UncoveredHasNoByte(pieces: seq<Piece>, policy: Policy, at: nat)
    requires forall j :: 0 <= j < |pieces| ==> !pieces[j].Covers(at)
    ensures ByteAt(pieces, policy, at) == None
  {
    OverlapByArrival(pieces, policy, at);
  }

  lemma ConsistentByte(pieces: seq<Piece>, policy: Policy, payload: seq<byte>, at: nat)
    requires forall i :: 0 <= i < |pieces| ==> PieceOfPayload(pieces[i], payload)
    requires at < |payload|
    ensures ByteAt(pieces, policy, at).Some? ==> ByteAt(pieces, policy, at) == Some(payload[at])
  {
    var order := ClaimOrder(pieces, policy);
    ClaimedOfPayload(pieces, policy, payload);
    hide ClaimOrder, PieceOfPayload;
    FirstCoveringIsFirst(order, at);
    hide FirstCovering;
    if FirstCovering(order, at).Some? {
      var i :| 0 <= i < |order| && order[i].Covers(at) &&
        FirstCovering(order, at).value == order[i].data[at - order[i].offset] &&
        forall j :: 0 <= j < i ==> !order[j].Covers(at);
      PieceHasByte(order[i], payload, at);
    }
  }

  lemma ClaimedOfPayload(pieces: seq<Piece>, policy: Policy, payload: seq<byte>)
    requires forall i :: 0 <= i < |pieces| ==> PieceOfPayload(pieces[i], payload)
    ensures forall i :: 0 <= i < |ClaimOrder(pieces, policy)| ==> PieceOfPayload(ClaimOrder(pieces, policy)[i], payload)
  {
    hide PieceOfPayload;
  }

  lemma PieceHasByte(piece: Piece, payload: seq<byte>, at: nat)
    requires PieceOfPayload(piece, payload) && piece.Covers(at) && at < |payload|
    ensures piece.data[at - piece.offset] == payload[at]
  {
  }

  /** Overlapping or repeated pieces do no harm under either policy as long as they agree. */
  lemma ConsistentPiecesAssemble(p: Partial, policy: Policy, payload: seq<byte>)
    requires p.total == Some(|payload|)
    requires forall i :: 0 <= i < |p.pieces| ==> PieceOfPayload(p.pieces[i], payload)
    ensures Assembled(p, policy) == if AllCovered(p.pieces, policy, |payload|) then Some(payload) else None
  {
    if AllCovered(p.pieces, policy, |payload|) {
      forall at: nat | at < |payload|
        ensures ByteAt(p.pieces, policy, at) == Some(payload[at])
      {
        ConsistentByte(p.pieces, policy, payload, at);
      }
      assert Assembled(p, policy).value == payload;
    }
  }

  // ----- Partitions -----

  /** Cut points of a payload into consecutive non-empty pieces. */
  ghost predicate IsPartition(cuts: seq<nat>, payload: seq<byte>) {
    && |cuts| >= 2 && cuts[0] == 0 && cuts[|cuts| - 1] == |payload|
    && forall i, j :: 0 <= i < j < |cuts| ==> cuts[i] < cuts[j]
  }

  function Pieces(cuts: seq<nat>): int {
    |cuts| - 1
  }

  function PieceAt(cuts: seq<nat>, payload: seq<byte>, i: nat): Piece
    requires i + 1 < |cuts| && cuts[i] <= cuts[i + 1] <= |payload|
  {
    Piece(cuts[i], payload[cuts[i]..cuts[i + 1]])
  }

  /** Every index below `n` exactly once. */
  ghost predicate IsPermutation(order: seq<nat>, n: int) {
    && |order| == n
    && (forall i :: 0 <= i < |order| ==> order[i] < n)
    && (forall i, j :: 0 <= i < j < |order| ==> order[i] != order[j])
    && (forall x: nat :: x < n ==> x in order)
  }

  lemma {:induction false} LocateCut(cuts: seq<nat>, payload: seq<byte>, at: nat, n: nat) returns (i: nat)
    requires IsPartition(cuts, payload) && n < |cuts| && at < cuts[n]
    ensures i < n && cuts[i] <= at < cuts[i + 1]
  {
    if n >= 1 && cuts[n - 1] <= at {
      i := n - 1;
    } else {
      i := LocateCut(cuts, payload, at, n - 1);
    }
  }

  function LengthOf(cuts: seq<nat>, i: nat): int
    requires i + 1 < |cuts|
  {
    cuts[i + 1] as int - cuts[i] as int
  }

  /** Total length of the chosen pieces among the first `m`. */
  ghost function Weight(cuts: seq<nat>, chosen: set<nat>, m: nat): int
    requires m < |cuts|
  {
    if m == 0 then 0
    else Weight(cuts, chosen, m - 1) + if m - 1 in chosen then LengthOf(cuts, m - 1) else 0
  }

  lemma {:induction false} WeightBound(cuts: seq<nat>, payload: seq<byte>, chosen: set<nat>, m: nat)
    requires IsPartition(cuts, payload) && m < |cuts|
    ensures 0 <= Weight(cuts, chosen, m) <= cuts[m]
  {
    if m > 0 {
      WeightBound(cuts, payload, chosen, m - 1);
    }
  }

  lemma {:induction false} WeightAdds(cuts: seq<nat>, chosen: set<nat>, i: nat, m: nat)
    requires m < |cuts| && i + 1 < |cuts| && i !in chosen
    ensures Weight(cuts, chosen + {i}, m) == Weight(cuts, chosen, m) + if i < m then LengthOf(cuts, i) else 0
  {
    if m > 0 {
      WeightAdds(cuts, chosen, i, m - 1);
    }
  }

  // ----- How far one datagram has come -----

  /** A datagram being sent: how it is cut, the order of arrival, and what its first piece carries. */
  datatype Sending = Sending(key: FragKey, payload: seq<byte>, cuts: seq<nat>, order: seq<nat>, header: seq<byte>,
      nextHeader: Option<byte>, start: int)
  {
    ghost predicate Valid() {
      && IsPartition(cuts, payload) && IsPermutation(order, Pieces(cuts))
      && header != [] && (nextHeader == None ==> |header| >= 8)
    }

    ghost predicate Fits(limits: Limits) {
      |payload| <= limits.maxBytesPerDatagram && Pieces(cuts) <= limits.maxFragmentsPerDatagram
    }

    /** The `k`th fragment to arrive. Only a fragment at offset zero need carry the right header. */
    ghost predicate Sends(k: nat, f: Fragment)
      requires Valid() && k < |order|
    {
      var piece := PieceAt(cuts, payload, order[k]);
      && f.key == key && f.offset == piece.offset && f.payload == piece.data
      && (f.more <==> order[k] + 1 < Pieces(cuts))
      && f.Patchable()
      && (order[k] == 0 ==> f.header == header && f.nextHeader == nextHeader)
    }
  }

  ghost function Arrived(s: Sending, k: nat): set<nat>
    requires k <= |s.order|
  {
    set x | x in s.order[..k]
  }

  /** The table entry after the first `k` fragments. */
  ghost predicate Progress(p: Partial, s: Sending, k: nat)
    requires s.Valid() && k <= |s.order|
  {
    && |p.pieces| == k
    && (forall j :: 0 <= j < k ==> p.pieces[j] == PieceAt(s.cuts, s.payload, s.order[j]))
    && p.bytes == Weight(s.cuts, Arrived(s, k), Pieces(s.cuts))
    && p.total == (if Pieces(s.cuts) - 1 in s.order[..k] then Some(|s.payload|) else None)
    && (if 0 in s.order[..k] then p.header == s.header && p.nextHeader == s.nextHeader else p.header == [])
    && p.firstSeen == s.start
  }

  lemma WeightProgresses(s: Sending, k: nat)
    requires s.Valid() && k < |s.order|
    ensures var n := Pieces(s.cuts);
      && Weight(s.cuts, Arrived(s, k + 1), n) == Weight(s.cuts, Arrived(s, k), n) + LengthOf(s.cuts, s.order[k])
      && Weight(s.cuts, Arrived(s, k + 1), n) <= |s.payload|
  {
    var i := s.order[k];
    assert s.order[..k + 1] == s.order[..k] + [i];
    assert Arrived(s, k + 1) == Arrived(s, k) + {i};
    WeightAdds(s.cuts, Arrived(s, k), i, Pieces(s.cuts));
    WeightBound(s.cuts, s.payload, Arrived(s, k + 1), Pieces(s.cuts));
  }

  lemma AbsorbProgresses(p: Partial, s: Sending, k: nat, f: Fragment)
    requires s.Valid() && k < |s.order| && Progress(p, s, k) && s.Sends(k, f)
    ensures Progress(Absorb(p, f), s, k + 1)
    ensures p.bytes + |f.payload| <= |s.payload|
  {
    hide Arrived, IsPartition, IsPermutation, Weight, Sending.Valid;
    hide Sending.Sends, PieceAt, LengthOf;
    WeightProgresses(s, k);
    SentPiece(s, k, f);
    assert s.order[..k + 1] == s.order[..k] + [s.order[k]];
  }

  /** What each fragment says of its own place. */
  lemma SentPiece(s: Sending, k: nat, f: Fragment)
    requires s.Valid() && k < |s.order| && s.Sends(k, f)
    ensures var i := s.order[k];
      && i < Pieces(s.cuts)
      && Piece(f.offset, f.payload) == PieceAt(s.cuts, s.payload, i)
      && |f.payload| == LengthOf(s.cuts, i)
      && (f.more <==> i != Pieces(s.cuts) - 1)
      && (!f.more ==> f.offset + |f.payload| == |s.payload|)
      && (f.offset == 0 <==> i == 0)
      && (i == 0 ==> f.header == s.header && f.nextHeader == s.nextHeader)
  {
    var i := s.order[k];
    assert i + 1 < |s.cuts| && s.cuts[i] < s.cuts[i + 1];
    assert i > 0 ==> s.cuts[0] < s.cuts[i];
  }

  /** While a piece is missing, so is its first byte. */
  lemma MissingPieceLeavesHole(p: Partial, s: Sending, k: nat, policy: Policy)
    requires s.Valid() && k < |s.order| && Progress(p, s, k)
    ensures Assembled(p, policy) == None
  {
    var i := s.order[k];
    var at := s.cuts[i];
    hide Weight, Arrived, ByteAt;
    forall j | 0 <= j < |p.pieces|
      ensures !p.pieces[j].Covers(at)
    {
      assert s.order[j] != i;
      if s.order[j] < i {
        assert s.cuts[s.order[j] + 1] <= s.cuts[i];
      }
    }
    UncoveredHasNoByte(p.pieces, policy, at);
    assert at < |s.payload|;
  }

  lemma CoveringPiece(s: Sending, at: nat) returns (j: nat)
    requires s.Valid() && at < |s.payload|
    ensures j < |s.order| && PieceAt(s.cuts, s.payload, s.order[j]).Covers(at)
  {
    var i := LocateCut(s.cuts, s.payload, at, Pieces(s.cuts));
    assert i in s.order;
    j :| j < |s.order| && s.order[j] == i;
    assert s.cuts[i + 1] <= |s.payload|;
  }

  /** With every piece there, the payload comes back, under either policy. */
  lemma AllPiecesAssemble(p: Partial, s: Sending, policy: Policy)
    requires s.Valid() && Progress(p, s, |s.order|)
    ensures Assembled(p, policy) == Some(s.payload)
    ensures p.header == s.header && p.nextHeader == s.nextHeader
  {
    hide Weight, Arrived, ByteAt;
    var n := Pieces(s.cuts);
    assert s.order[..|s.order|] == s.order;
    assert 0 in s.order && n - 1 in s.order;
    forall at: nat | at < |s.payload|
      ensures ByteAt(p.pieces, policy, at).Some?
    {
      var j := CoveringPiece(s, at);
      CoveredHasByte(p.pieces, policy, at, j);
    }
    forall j | 0 <= j < |p.pieces|
      ensures PieceOfPayload(p.pieces[j], s.payload)
    {
      assert s.cuts[s.order[j] + 1] <= s.cuts[n];
    }
    assert AllCovered(p.pieces, policy, |s.payload|);
    ConsistentPiecesAssemble(p, policy, s.payload);
  }

  // ----- One event at a time, whatever else is on the wire -----

  /** A captured frame: when, and the fragment in it if it is one. */
  datatype Event = Event(now: int, fragment: Option<Fragment>)
  {
    predicate Patchable() { fragment.Some? ==> fragment.value.Patchable() }

    predicate Concerns(key: FragKey) { fragment.Some? && fragment.value.key == key }
  }

  /** What the decoder does with every frame: sweep on its clock, and offer the fragment if there is one. */
  ghost function Process(limits: Limits, d: Defrag, e: Event): (r: Outcome)
    requires TableSound(d) && e.Patchable()
    ensures TableSound(r.state)
  {
    var swept := Swept(limits, d, e.now);
    if e.fragment.Some? then Offered(limits, swept, e.fragment.value, e.now) else Outcome(swept, None)
  }

  /** The table between the arrivals of fragment `k - 1` and fragment `k`. */
  ghost predicate Awaiting(d: Defrag, s: Sending, k: nat)
    requires s.Valid() && k <= |s.order|
  {
    && TableSound(d)
    && if k == 0 || k == |s.order| then s.key !in d.table
       else s.key in d.table && Progress(d.table[s.key], s, k)
  }

  /** Other frames, and fragments of other datagrams, neither see nor touch this one. */
  lemma OtherTrafficIsInvisible(limits: Limits, d: Defrag, s: Sending, k: nat, e: Event)
    requires s.Valid() && k <= |s.order| && Awaiting(d, s, k)
    requires e.Patchable() && !e.Concerns(s.key)
    requires 0 < k < |s.order| ==> e.now < s.start + limits.timeoutSecs
    ensures Awaiting(Process(limits, d, e).state, s, k)
  {
    SweepSpares(limits, d, s, k, e.now);
    hide Awaiting, Swept;
    if e.fragment.Some? {
      OfferElsewhere(limits, Swept(limits, d, e.now), s, k, e.fragment.value, e.now);
    }
  }

  /** A sweep that is not too late leaves the entry alone. */
  lemma SweepSpares(limits: Limits, d: Defrag, s: Sending, k: nat, now: int)
    requires s.Valid() && k <= |s.order| && Awaiting(d, s, k)
    requires 0 < k < |s.order| ==> now < s.start + limits.timeoutSecs
    ensures Awaiting(Swept(limits, d, now), s, k)
  {
    assert 0 < k < |s.order| ==> d.table[s.key].firstSeen == s.start;
    hide Progress, EntrySound;
  }

  lemma OfferElsewhere(limits: Limits, d: Defrag, s: Sending, k: nat, f: Fragment, now: int)
    requires s.Valid() && k <= |s.order| && Awaiting(d, s, k) && f.Patchable() && f.key != s.key
    ensures Awaiting(Offered(limits, d, f, now).state, s, k)
  {
    hide Progress, Assembled, RebuildDatagram, EntrySound, Absorb;
  }

  /** The next fragment of this datagram: silence, or the whole payload if it was the last. */
  lemma OwnFragmentProgresses(limits: Limits, d: Defrag, s: Sending, k: nat, e: Event)
    requires s.Valid() && s.Fits(limits) && k < |s.order| && Awaiting(d, s, k)
    requires e.fragment.Some? && s.Sends(k, e.fragment.value)
    requires if k == 0 then e.now == s.start && |Swept(limits, d, e.now).table| < limits.maxDatagrams
             else e.now < s.start + limits.timeoutSecs
    ensures var r := Process(limits, d, e);
      && Awaiting(r.state, s, k + 1)
      && r.datagram == if k + 1 < |s.order| then None else Some(RebuildDatagram(s.header, s.nextHeader, s.payload))
  {
    SweepSpares(limits, d, s, k, e.now);
    hide Swept;
    OwnOfferProgresses(limits, Swept(limits, d, e.now), s, k, e.fragment.value, e.now);
  }

  lemma OwnOfferProgresses(limits: Limits, d: Defrag, s: Sending, k: nat, f: Fragment, now: int)
    requires s.Valid() && s.Fits(limits) && k < |s.order| && Awaiting(d, s, k) && s.Sends(k, f)
    requires k == 0 ==> now == s.start && |d.table| < limits.maxDatagrams
    ensures var r := Offered(limits, d, f, now);
      && Awaiting(r.state, s, k + 1)
      && r.datagram == if k + 1 < |s.order| then None else Some(RebuildDatagram(s.header, s.nextHeader, s.payload))
  {
    hide Awaiting, Offered, Finished, Progress, EntryFor, Assembled, RebuildDatagram, EntrySound, IsPartition,
      IsPermutation;
    hide Absorb, Sending.Sends;
    var entry := EntryFor(d, s.key, now);
    OwnEntry(d, s, k, now);
    PieceFits(s, k, f);
    AbsorbProgresses(entry, s, k, f);
    OfferIsTaken(limits, d, f, now, |s.payload|);
    OwnFinish(limits.policy, d.(table := d.table[s.key := Absorb(entry, f)]), s, k + 1);
  }

  lemma PieceFits(s: Sending, k: nat, f: Fragment)
    requires s.Valid() && k < |s.order| && s.Sends(k, f)
    ensures f.key == s.key && f.Patchable() && f.offset + |f.payload| <= |s.payload| && |s.order| == Pieces(s.cuts)
  {
    var i := s.order[k];
    assert s.cuts[i] < s.cuts[i + 1] <= |s.payload|;
  }

  lemma OwnEntry(d: Defrag, s: Sending, k: nat, now: int)
    requires s.Valid() && k < |s.order| && Awaiting(d, s, k) && (k == 0 ==> now == s.start)
    ensures Progress(EntryFor(d, s.key, now), s, k) && EntrySound(EntryFor(d, s.key, now))
    ensures |EntryFor(d, s.key, now).pieces| == k && (s.key in d.table <==> k > 0) && TableSound(d)
  {
    if k == 0 {
      FirstEntry(s);
    }
  }

  /** An offer that no limit stands against is absorbed into its entry, which is then finished if it can be. */
  lemma OfferIsTaken(limits: Limits, d: Defrag, f: Fragment, now: int, bytes: nat)
    requires TableSound(d) && f.Patchable() && EntrySound(EntryFor(d, f.key, now))
    requires f.key in d.table || |d.table| < limits.maxDatagrams
    requires f.offset + |f.payload| <= bytes <= limits.maxBytesPerDatagram
    requires |EntryFor(d, f.key, now).pieces| < limits.maxFragmentsPerDatagram
    requires EntryFor(d, f.key, now).bytes + |f.payload| <= bytes
    ensures var grown := d.(table := d.table[f.key := Absorb(EntryFor(d, f.key, now), f)]);
      TableSound(grown) && Offered(limits, d, f, now) == Finished(limits.policy, grown, f.key)
  {
    hide Finished;
  }

  /** With a piece still missing the entry stays; with the last one in it leaves as the datagram. */
  lemma OwnFinish(policy: Policy, d: Defrag, s: Sending, k: nat)
    requires s.Valid() && 0 < k <= |s.order| && TableSound(d) && s.key in d.table && Progress(d.table[s.key], s, k)
    ensures var r := Finished(policy, d, s.key);
      && Awaiting(r.state, s, k)
      && r.datagram == if k < |s.order| then None else Some(RebuildDatagram(s.header, s.nextHeader, s.payload))
  {
    hide Progress, Assembled, RebuildDatagram, EntrySound, IsPartition, IsPermutation;
    if k < |s.order| {
      MissingPieceLeavesHole(d.table[s.key], s, k, policy);
    } else {
      AllPiecesAssemble(d.table[s.key], s, policy);
    }
  }

  lemma FirstEntry(s: Sending)
    requires s.Valid()
    ensures Progress(FreshEntry(s.start), s, 0)
  {
    WeightOfNone(s.cuts, Pieces(s.cuts));
    assert Arrived(s, 0) == {};
  }

  lemma {:induction false} WeightOfNone(cuts: seq<nat>, m: nat)
    requires m < |cuts|
    ensures Weight(cuts, {}, m) == 0
  {
    if m > 0 {
      WeightOfNone(cuts, m - 1);
    }
  }

  // ----- Any run of events -----

  /**
   * A run of frames in which the fragments of one sending arrive in its order, from the `k`th on,
   * among any other traffic; the table has room when the first arrives, and none is late.
   */
  ghost predicate Script(limits: Limits, d: Defrag, s: Sending, k: nat, events: seq<Event>)
    requires s.Valid() && k <= |s.order| && TableSound(d)
    decreases |events|
  {
    if events == [] then k == |s.order|
    else
      var e := events[0];
      && e.Patchable()
      && (0 < k < |s.order| ==> e.now < s.start + limits.timeoutSecs)
      && if e.Concerns(s.key) then
           && k < |s.order| && s.Sends(k, e.fragment.value)
           && (k == 0 ==> e.now == s.start && |Swept(limits, d, e.now).table| < limits.maxDatagrams)
           && Script(limits, Process(limits, d, e).state, s, k + 1, events[1..])
         else
           Script(limits, Process(limits, d, e).state, s, k, events[1..])
  }

  /** What the events of one key yield, in order. */
  ghost function Yields(limits: Limits, d: Defrag, key: FragKey, events: seq<Event>): seq<Option<seq<byte>>>
    requires TableSound(d) && forall i :: 0 <= i < |events| ==> events[i].Patchable()
    decreases |events|
  {
    if events == [] then []
    else
      var r := Process(limits, d, events[0]);
      var rest := Yields(limits, r.state, key, events[1..]);
      if events[0].Concerns(key) then [r.datagram] + rest else rest
  }

  /** Nothing, then nothing, then at last the datagram. */
  function Silence(n: nat, datagram: seq<byte>): seq<Option<seq<byte>>> {
    if n == 0 then [] else if n == 1 then [Some(datagram)] else [None] + Silence(n - 1, datagram)
  }

  /**
   * Any partition of a payload into non-empty pieces, in any order of arrival, interleaved with
   * any other fragments, under either overlap policy: every fragment but the last yields nothing,
   * and the last yields the first piece's header joined to exactly the original payload.
   */
  lemma {:induction false} PartitionReassembles(limits: Limits, d: Defrag, s: Sending, k: nat, events: seq<Event>)
    requires s.Valid() && s.Fits(limits) && k <= |s.order|
    requires Awaiting(d, s, k) && Script(limits, d, s, k, events)
    requires forall i :: 0 <= i < |events| ==> events[i].Patchable()
    ensures Yields(limits, d, s.key, events) ==
      Silence(|s.order| - k, RebuildDatagram(s.header, s.nextHeader, s.payload))
    decreases |events|
  {
    hide Progress, RebuildDatagram, Offered, Swept, IsPartition, IsPermutation;
    if events != [] {
      var e := events[0];
      var next := Process(limits, d, e).state;
      if e.Concerns(s.key) {
        OwnFragmentProgresses(limits, d, s, k, e);
        PartitionReassembles(limits, next, s, k + 1, events[1..]);
      } else {
        OtherTrafficIsInvisible(limits, d, s, k, e);
        PartitionReassembles(limits, next, s, k, events[1..]);
      }
    }
  }
}
