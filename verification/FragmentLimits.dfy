/**
 * What bounds the reassembler on every run of frames, what its counters add up to, and what each fragment leaves in
 * its entry.
 */
module FragmentLimits {
  import opened Base
  import opened Fragments
  import opened FragmentTheorems

  function TotalBytes(pieces: seq<Piece>): nat {
    if pieces == [] then 0 else TotalBytes(pieces[..|pieces| - 1]) + |pieces[|pieces| - 1].data|
  }

  ghost predicate EntryBounded(limits: Limits, p: Partial) {
    && |p.pieces| <= limits.maxFragmentsPerDatagram
    && p.bytes == TotalBytes(p.pieces) <= limits.maxBytesPerDatagram
    && forall i :: 0 <= i < |p.pieces| ==> p.pieces[i].offset + |p.pieces[i].data| <= limits.maxBytesPerDatagram
  }

  ghost predicate Bounded(limits: Limits, d: Defrag) {
    && |d.table| <= limits.maxDatagrams
    && forall key :: key in d.table ==> EntryBounded(limits, d.table[key])
  }

  // ----- One fragment -----

  /** The four ways a fragment is refused. */
  predicate TooFar(limits: Limits, f: Fragment) {
    f.offset + |f.payload| > limits.maxBytesPerDatagram
  }

  predicate NoRoom(limits: Limits, d: Defrag, f: Fragment) {
    f.key !in d.table && |d.table| >= limits.maxDatagrams
  }

  predicate EntryFull(limits: Limits, p: Partial, f: Fragment) {
    |p.pieces| >= limits.maxFragmentsPerDatagram || p.bytes + |f.payload| > limits.maxBytesPerDatagram
  }

  predicate Refused(limits: Limits, d: Defrag, f: Fragment, now: int) {
    TooFar(limits, f) || NoRoom(limits, d, f) || EntryFull(limits, EntryFor(d, f.key, now), f)
  }

  /** A refused fragment is counted and yields nothing; no entry changes, though an empty one may be opened. */
  ghost predicate TurnedAway(limits: Limits, d: Defrag, f: Fragment, now: int, r: Outcome) {
    && r.datagram == None
    && r.state.dropped == d.dropped + 1 && r.state.reassembled == d.reassembled
    && r.state.table ==
       if TooFar(limits, f) || NoRoom(limits, d, f) then d.table else d.table[f.key := EntryFor(d, f.key, now)]
  }

  /** Any other is absorbed into its entry, which stays or leaves as a datagram. */
  ghost predicate TakenIn(d: Defrag, f: Fragment, now: int, r: Outcome) {
    && r.state.dropped == d.dropped
    && if r.datagram == None then
         && r.state.reassembled == d.reassembled
         && r.state.table == d.table[f.key := Absorb(EntryFor(d, f.key, now), f)]
       else
         && r.state.reassembled == d.reassembled + 1
         && r.state.table == d.table - {f.key}
  }

  lemma OfferIs(limits: Limits, d: Defrag, f: Fragment, now: int)
    requires TableSound(d) && f.Patchable()
    ensures var r := Offered(limits, d, f, now);
      && r.state.lastSwept == d.lastSwept && r.state.expired == d.expired
      && if Refused(limits, d, f, now) then TurnedAway(limits, d, f, now, r) else TakenIn(d, f, now, r)
  {
    hide Assembled, RebuildDatagram, Absorb, EntrySound;
    if !Refused(limits, d, f, now) {
      AbsorbSound(limits, d, f, now);
    }
  }

  lemma AbsorbSound(limits: Limits, d: Defrag, f: Fragment, now: int)
    requires TableSound(d) && f.Patchable()
    ensures EntrySound(Absorb(EntryFor(d, f.key, now), f))
    ensures TableSound(d.(table := d.table[f.key := Absorb(EntryFor(d, f.key, now), f)]))
  {
  }

  ghost predicate HasArrived(pieces: seq<Piece>, at: nat) {
    exists i :: 0 <= i < |pieces| && pieces[i].Covers(at)
  }

  ghost predicate AllArrived(p: Partial) {
    p.total.Some? && forall at: nat :: at < p.total.value ==> HasArrived(p.pieces, at)
  }

  /** The byte of the piece that the policy prefers of those covering it. */
  ghost predicate PreferredByte(pieces: seq<Piece>, policy: Policy, at: nat, b: byte) {
    exists i: nat :: Wins(pieces, policy, at, i) && b == pieces[i].data[at - pieces[i].offset]
  }

  ghost predicate SettledByArrival(p: Partial, policy: Policy, bytes: seq<byte>) {
    p.total == Some(|bytes|) && forall at: nat :: at < |bytes| ==> PreferredByte(p.pieces, policy, at, bytes[at])
  }

  lemma {:induction false} SomePieceWins(pieces: seq<Piece>, policy: Policy, at: nat, n: nat) returns (i: nat)
    requires n <= |pieces| && exists j :: |pieces| - n <= j < |pieces| && pieces[j].Covers(at)
    requires policy.FirstWins? ==> forall j :: 0 <= j < |pieces| - n ==> !pieces[j].Covers(at)
    ensures policy.FirstWins? ==> Wins(pieces, policy, at, i)
    ensures policy.LastWins? ==> |pieces| - n <= i && Wins(pieces, policy, at, i)
    decreases n
  {
    var head := |pieces| - n;
    if policy.FirstWins? && pieces[head].Covers(at) {
      i := head;
    } else if j :| head < j < |pieces| && pieces[j].Covers(at) {
      i := SomePieceWins(pieces, policy, at, n - 1);
    } else {
      i := head;
    }
  }

  lemma ByteIsPreferred(pieces: seq<Piece>, policy: Policy, at: nat)
    ensures ByteAt(pieces, policy, at).Some? <==> HasArrived(pieces, at)
    ensures ByteAt(pieces, policy, at).Some? ==> PreferredByte(pieces, policy, at, ByteAt(pieces, policy, at).value)
  {
    hide ByteAt, Wins, Piece.Covers;
    OverlapByArrival(pieces, policy, at);
    if ByteAt(pieces, policy, at).Some? {
      var i := SomePieceWins(pieces, policy, at, |pieces|);
    }
  }

  /**
   * A datagram is complete when its length is known and every byte of it has arrived, and then each byte is the one
   * the policy prefers.
   */
  lemma CompleteIff(p: Partial, policy: Policy)
    ensures Assembled(p, policy).Some? <==> AllArrived(p)
    ensures Assembled(p, policy).Some? ==> SettledByArrival(p, policy, Assembled(p, policy).value)
  {
    hide ByteAt, HasArrived, PreferredByte;
    if p.total.Some? {
      forall at: nat | at < p.total.value
        ensures ByteAt(p.pieces, policy, at).Some? <==> HasArrived(p.pieces, at)
        ensures ByteAt(p.pieces, policy, at).Some? ==>
          PreferredByte(p.pieces, policy, at, ByteAt(p.pieces, policy, at).value)
      {
        ByteIsPreferred(p.pieces, policy, at);
      }
    }
  }

  ghost predicate Reassembles(policy: Policy, entry: Partial, datagram: seq<byte>)
    requires EntrySound(entry) && entry.header != []
  {
    exists bytes :: SettledByArrival(entry, policy, bytes) &&
                    datagram == RebuildDatagram(entry.header, entry.nextHeader, bytes)
  }

  /**
   * A fragment that completes its datagram hands back the remembered header joined to the bytes that arrival settles;
   * if header, length or any byte is still missing there is nothing yet.
   */
  lemma OfferCompletesIff(limits: Limits, d: Defrag, f: Fragment, now: int)
    requires TableSound(d) && f.Patchable()
    ensures var r, entry := Offered(limits, d, f, now), Absorb(EntryFor(d, f.key, now), f);
      && EntrySound(entry)
      && (r.datagram.Some? <==> !Refused(limits, d, f, now) && entry.header != [] && AllArrived(entry))
      && (r.datagram.Some? ==> Reassembles(limits.policy, entry, r.datagram.value))
  {
    hide Assembled, RebuildDatagram, Absorb, SettledByArrival, AllArrived, EntryFor, EntrySound;
    AbsorbSound(limits, d, f, now);
    var entry := Absorb(EntryFor(d, f.key, now), f);
    CompleteIff(entry, limits.policy);
  }

  // ----- What an entry remembers -----

  /** An entry after a row of fragments, all taken in. */
  function Remembered(fragments: seq<Fragment>, start: int): Partial {
    if fragments == [] then FreshEntry(start)
    else Absorb(Remembered(fragments[..|fragments| - 1], start), fragments[|fragments| - 1])
  }

  /** The latest fragment at offset zero, and the latest with no more to follow. */
  ghost predicate LatestHead(fragments: seq<Fragment>, i: nat) {
    i < |fragments| && fragments[i].offset == 0 && forall j :: i < j < |fragments| ==> fragments[j].offset > 0
  }

  ghost predicate LatestTail(fragments: seq<Fragment>, i: nat) {
    i < |fragments| && !fragments[i].more && forall j :: i < j < |fragments| ==> fragments[j].more
  }

  /** Every piece is kept in order of arrival, whatever it overlaps. */
  lemma {:induction false} EntryKeepsPieces(fragments: seq<Fragment>, start: int)
    ensures var p := Remembered(fragments, start);
      && p.firstSeen == start && |p.pieces| == |fragments|
      && forall i :: 0 <= i < |fragments| ==> p.pieces[i] == Piece(fragments[i].offset, fragments[i].payload)
  {
    if fragments != [] {
      EntryKeepsPieces(fragments[..|fragments| - 1], start);
    }
  }

  lemma HeadOfLonger(front: seq<Fragment>, last: Fragment, i: nat)
    requires LatestHead(front + [last], i)
    ensures
      if last.offset == 0 then i == |front| else i < |front| && LatestHead(front, i) && front[i] == (front + [last])[i]
  {
    var all := front + [last];
    assert all[|front|] == last;
    assert forall j :: 0 <= j < |front| ==> front[j] == all[j];
  }

  lemma TailOfLonger(front: seq<Fragment>, last: Fragment, i: nat)
    requires LatestTail(front + [last], i)
    ensures if !last.more then i == |front| else i < |front| && LatestTail(front, i) && front[i] == (front + [last])[i]
  {
    var all := front + [last];
    assert all[|front|] == last;
    assert forall j :: 0 <= j < |front| ==> front[j] == all[j];
  }

  lemma AbsorbRemembers(p: Partial, f: Fragment)
    ensures var q := Absorb(p, f);
      && (if f.offset == 0 then q.header == f.header && q.nextHeader == f.nextHeader
          else q.header == p.header && q.nextHeader == p.nextHeader)
      && q.total == if f.more then p.total else Some(f.offset + |f.payload|)
  {
  }

  /** The header is that of the latest fragment at offset zero; before any there is none. */
  lemma {:induction false} EntryKeepsLatestHead(fragments: seq<Fragment>, start: int)
    ensures var p := Remembered(fragments, start);
      && (forall i: nat :: LatestHead(fragments, i) ==>
            p.header == fragments[i].header && p.nextHeader == fragments[i].nextHeader)
      && ((forall i :: 0 <= i < |fragments| ==> fragments[i].offset > 0) ==> p.header == [] && p.nextHeader == None)
  {
    hide LatestHead, Absorb;
    if fragments != [] {
      var front, last := fragments[..|fragments| - 1], fragments[|fragments| - 1];
      EntryKeepsLatestHead(front, start);
      AbsorbRemembers(Remembered(front, start), last);
      forall i: nat | LatestHead(fragments, i)
        ensures
          if last.offset == 0 then i == |front| else i < |front| && LatestHead(front, i) && front[i] == fragments[i]
      {
        assert fragments == front + [last];
        HeadOfLonger(front, last, i);
      }
      hide Remembered;
    } else {
      NoLatest();
    }
  }

  lemma NoLatest()
    ensures forall i: nat :: !LatestHead([], i) && !LatestTail([], i)
  {
  }

  /** The length is as the latest last fragment has it; before any it is not known. */
  lemma {:induction false} EntryKeepsLatestTail(fragments: seq<Fragment>, start: int)
    ensures var p := Remembered(fragments, start);
      && (forall i: nat :: LatestTail(fragments, i) ==>
            p.total == Some(fragments[i].offset + |fragments[i].payload|))
      && ((forall i :: 0 <= i < |fragments| ==> fragments[i].more) ==> p.total == None)
  {
    hide LatestTail, Absorb;
    if fragments != [] {
      var front, last := fragments[..|fragments| - 1], fragments[|fragments| - 1];
      EntryKeepsLatestTail(front, start);
      AbsorbRemembers(Remembered(front, start), last);
      forall i: nat | LatestTail(fragments, i)
        ensures if !last.more then i == |front| else i < |front| && LatestTail(front, i) && front[i] == fragments[i]
      {
        assert fragments == front + [last];
        TailOfLonger(front, last, i);
      }
    } else {
      NoLatest();
    }
  }

  // ----- Any run of frames -----

  const START: Defrag := Defrag(map[], 0, 0, 0, 0)

  ghost function RunDefrag(limits: Limits, events: seq<Event>): (d: Defrag)
    requires forall i :: 0 <= i < |events| ==> events[i].Patchable()
    ensures TableSound(d)
  {
    if events == [] then START
    else Process(limits, RunDefrag(limits, events[..|events| - 1]), events[|events| - 1]).state
  }

  /** Whether the last frame of a run opens an entry, and whether its fragment is refused. */
  ghost predicate Opens(limits: Limits, events: seq<Event>)
    requires events != [] && forall i :: 0 <= i < |events| ==> events[i].Patchable()
  {
    var e := events[|events| - 1];
    var d := Swept(limits, RunDefrag(limits, events[..|events| - 1]), e.now);
    && e.fragment.Some? && e.fragment.value.key !in d.table
    && !TooFar(limits, e.fragment.value) && !NoRoom(limits, d, e.fragment.value)
  }

  ghost predicate TurnsAway(limits: Limits, events: seq<Event>)
    requires events != [] && forall i :: 0 <= i < |events| ==> events[i].Patchable()
  {
    var e := events[|events| - 1];
    e.fragment.Some? &&
    Refused(limits, Swept(limits, RunDefrag(limits, events[..|events| - 1]), e.now), e.fragment.value, e.now)
  }

  ghost function OpenedIn(limits: Limits, events: seq<Event>): nat
    requires forall i :: 0 <= i < |events| ==> events[i].Patchable()
  {
    if events == [] then 0
    else OpenedIn(limits, events[..|events| - 1]) + if Opens(limits, events) then 1 else 0
  }

  ghost function RefusedIn(limits: Limits, events: seq<Event>): nat
    requires forall i :: 0 <= i < |events| ==> events[i].Patchable()
  {
    if events == [] then 0
    else RefusedIn(limits, events[..|events| - 1]) + if TurnsAway(limits, events) then 1 else 0
  }

  /** An entry leaves with a sweep exactly when the timeout has passed since it was opened, and is counted. */
  lemma SweepIs(limits: Limits, d: Defrag, now: int)
    ensures var r := Swept(limits, d, now);
      && r.lastSwept == Max(d.lastSwept, now)
      && (forall key :: key in r.table <==>
            key in d.table && (now <= d.lastSwept || now - d.table[key].firstSeen < limits.timeoutSecs))
      && (forall key :: key in r.table ==> r.table[key] == d.table[key])
      && |r.table| + r.expired == |d.table| + d.expired
      && r.dropped == d.dropped && r.reassembled == d.reassembled
  {
    var r := Swept(limits, d, now);
    assert d.table.Keys == r.table.Keys + (d.table.Keys - r.table.Keys);
    assert |d.table| == |d.table.Keys| && |r.table| == |r.table.Keys|;
  }

  lemma SweepKeepsBounds(limits: Limits, d: Defrag, now: int)
    requires Bounded(limits, d)
    ensures Bounded(limits, Swept(limits, d, now))
  {
    hide EntryBounded, Swept;
    SweepIs(limits, d, now);
    var r := Swept(limits, d, now);
    assert r.table.Keys <= d.table.Keys;
    assert d.table.Keys == r.table.Keys + (d.table.Keys - r.table.Keys);
    assert |d.table| == |d.table.Keys| && |r.table| == |r.table.Keys|;
  }

  lemma AbsorbKeepsBounds(limits: Limits, p: Partial, f: Fragment)
    requires EntryBounded(limits, p) && !EntryFull(limits, p, f) && !TooFar(limits, f)
    ensures EntryBounded(limits, Absorb(p, f))
  {
    var q := Absorb(p, f);
    assert q.pieces[..|q.pieces| - 1] == p.pieces;
  }

  lemma EntrySize(table: map<FragKey, Partial>, key: FragKey, p: Partial)
    ensures |table[key := p]| == |table| + if key in table then 0 else 1
    ensures |table - {key}| == |table| - if key in table then 1 else 0
  {
    assert table[key := p].Keys == table.Keys + {key} && (table - {key}).Keys == table.Keys - {key};
    assert |table| == |table.Keys| && |table[key := p]| == |table[key := p].Keys|;
    assert |table - {key}| == |(table - {key}).Keys|;
  }

  lemma OfferKeepsBounds(limits: Limits, d: Defrag, f: Fragment, now: int)
    requires TableSound(d) && f.Patchable() && Bounded(limits, d)
    ensures Bounded(limits, Offered(limits, d, f, now).state)
  {
    hide Offered, Absorb, EntryBounded, EntrySound;
    OfferIs(limits, d, f, now);
    var entry := EntryFor(d, f.key, now);
    FreshIsBounded(limits, now);
    EntrySize(d.table, f.key, entry);
    EntrySize(d.table, f.key, Absorb(entry, f));
    if !Refused(limits, d, f, now) {
      AbsorbKeepsBounds(limits, entry, f);
    }
  }

  lemma FreshIsBounded(limits: Limits, now: int)
    ensures EntryBounded(limits, FreshEntry(now))
  {
  }

  lemma OfferKeepsCount(limits: Limits, d: Defrag, f: Fragment, now: int)
    requires TableSound(d) && f.Patchable()
    ensures var r := Offered(limits, d, f, now).state;
      |r.table| + r.reassembled + r.expired == |d.table| + d.reassembled + d.expired +
      if f.key !in d.table && !TooFar(limits, f) && !NoRoom(limits, d, f) then 1 else 0
  {
    hide Offered, Absorb, EntrySound;
    OfferIs(limits, d, f, now);
    EntrySize(d.table, f.key, EntryFor(d, f.key, now));
    EntrySize(d.table, f.key, Absorb(EntryFor(d, f.key, now), f));
  }

  /**
   * On every run the table, each entry's pieces and each entry's bytes stay within the limits; every entry ever opened
   * is still there, was reassembled or has expired; and exactly the refused fragments are counted as dropped.
   */
  lemma {:induction false} RunIsBounded(limits: Limits, events: seq<Event>)
    requires forall i :: 0 <= i < |events| ==> events[i].Patchable()
    ensures var d := RunDefrag(limits, events);
      && Bounded(limits, d)
      && |d.table| + d.reassembled + d.expired == OpenedIn(limits, events)
      && d.dropped == RefusedIn(limits, events)
  {
    if events != [] {
      var front, e := events[..|events| - 1], events[|events| - 1];
      hide Bounded, Offered, Swept, TableSound, EntryFull, Refused;
      RunIsBounded(limits, front);
      var d := RunDefrag(limits, front);
      SweepIs(limits, d, e.now);
      SweepKeepsBounds(limits, d, e.now);
      if e.fragment.Some? {
        var swept := Swept(limits, d, e.now);
        OfferIs(limits, swept, e.fragment.value, e.now);
        OfferKeepsBounds(limits, swept, e.fragment.value, e.now);
        OfferKeepsCount(limits, swept, e.fragment.value, e.now);
      }
    }
  }

  /** In order of time, an entry is younger than the timeout whenever a frame has just been handled, or just opened. */
  lemma {:induction false} NothingOutstays(limits: Limits, events: seq<Event>)
    requires forall i :: 0 <= i < |events| ==> events[i].Patchable() && events[i].now >= 0
    requires forall i, j :: 0 <= i < j < |events| ==> events[i].now <= events[j].now
    ensures var d := RunDefrag(limits, events);
      && d.lastSwept == (if events == [] then 0 else events[|events| - 1].now)
      && forall key :: key in d.table ==>
           d.table[key].firstSeen <= d.lastSwept < d.table[key].firstSeen + Max(limits.timeoutSecs, 1)
  {
    if events != [] {
      var front, e := events[..|events| - 1], events[|events| - 1];
      hide Offered, Swept, TableSound, Absorb, Refused, EntrySound;
      NothingOutstays(limits, front);
      var d := RunDefrag(limits, front);
      SweepIs(limits, d, e.now);
      assert front != [] ==> front[|front| - 1] == events[|front| - 1];
      if e.fragment.Some? {
        OfferKeepsAges(limits, Swept(limits, d, e.now), e.fragment.value, e.now);
      }
    }
  }

  lemma AbsorbKeepsAge(p: Partial, f: Fragment)
    ensures Absorb(p, f).firstSeen == p.firstSeen
  {
  }

  lemma OfferKeepsAges(limits: Limits, d: Defrag, f: Fragment, now: int)
    requires TableSound(d) && f.Patchable()
    ensures var r := Offered(limits, d, f, now).state;
      && r.lastSwept == d.lastSwept
      && forall key :: key in r.table ==>
           r.table[key].firstSeen == if key in d.table then d.table[key].firstSeen else now
  {
    hide Offered, Absorb, Refused, EntrySound, TooFar, NoRoom;
    OfferIs(limits, d, f, now);
    AbsorbKeepsAge(EntryFor(d, f.key, now), f);
  }
}
