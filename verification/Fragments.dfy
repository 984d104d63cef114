/**
 * IP fragment reassembly: a bounded table of partial datagrams, overlap resolution by arrival
 * order, and the rebuilt datagram (section 3.2 of RFC 791, section 4.5 of RFC 8200).
 */
module Fragments {
  import opened Base

  /** Whose bytes survive where fragments overlap. */
  datatype Policy = FirstWins | LastWins

  datatype Limits = Limits(
    maxDatagrams: nat,
    maxFragmentsPerDatagram: nat,
    maxBytesPerDatagram: nat,
    timeoutSecs: int,
    policy: Policy
  )

  datatype FragKey = FragKey(src: seq<byte>, dst: seq<byte>, id: u32, protocol: byte)

  datatype Piece = Piece(offset: nat, data: seq<byte>)
  {
    predicate Covers(at: nat) { offset <= at < offset + |data| }
  }

  /** The pieces of one datagram in arrival order, and what is known about the whole. */
  datatype Partial = Partial(
    pieces: seq<Piece>,
    bytes: nat,
    total: Option<nat>,
    header: seq<byte>,
    nextHeader: Option<byte>,
    firstSeen: int
  )

  // ----- Overlap resolution -----

  /** The byte at `at` in the first listed piece that covers it. */
  function FirstCovering(pieces: seq<Piece>, at: nat): Option<byte> {
    if pieces == [] then None
    else if pieces[0].Covers(at) then Some(pieces[0].data[at - pieces[0].offset])
    else FirstCovering(pieces[1..], at)
  }

  function Reversed<T>(s: seq<T>): (r: seq<T>)
    ensures |r| == |s|
    ensures forall i :: 0 <= i < |s| ==> r[i] == s[|s| - 1 - i]
  {
    if s == [] then [] else Reversed(s[1..]) + [s[0]]
  }

  /** The order in which pieces get to claim bytes. */
  function ClaimOrder(pieces: seq<Piece>, policy: Policy): seq<Piece> {
    match policy
    case FirstWins => pieces
    case LastWins => Reversed(pieces)
  }

  function ByteAt(pieces: seq<Piece>, policy: Policy, at: nat): Option<byte> {
    FirstCovering(ClaimOrder(pieces, policy), at)
  }

  ghost predicate AllCovered(pieces: seq<Piece>, policy: Policy, total: nat) {
    forall at: nat :: at < total ==> ByteAt(pieces, policy, at).Some?
  }

  ghost function Assembled(p: Partial, policy: Policy): Option<seq<byte>> {
    if p.total == None || !AllCovered(p.pieces, policy, p.total.value) then None
    else Some(seq(p.total.value, at requires 0 <= at < p.total.value => ByteAt(p.pieces, policy, at).value))
  }

  lemma {:induction false} FirstCoveringIsFirst(pieces: seq<Piece>, at: nat)
    ensures FirstCovering(pieces, at).Some? <==> exists i :: 0 <= i < |pieces| && pieces[i].Covers(at)
    ensures FirstCovering(pieces, at).Some? ==>
      exists i :: 0 <= i < |pieces| && pieces[i].Covers(at) &&
        FirstCovering(pieces, at).value == pieces[i].data[at - pieces[i].offset] &&
        forall j :: 0 <= j < i ==> !pieces[j].Covers(at)
  {
    if pieces != [] && !pieces[0].Covers(at) {
      FirstCoveringIsFirst(pieces[1..], at);
      if FirstCovering(pieces[1..], at).Some? {
        var i :| 0 <= i < |pieces[1..]| && pieces[1..][i].Covers(at) &&
          FirstCovering(pieces[1..], at).value == pieces[1..][i].data[at - pieces[1..][i].offset] &&
          forall j :: 0 <= j < i ==> !pieces[1..][j].Covers(at);
        assert pieces[i + 1].Covers(at);
      }
      forall i | 0 <= i < |pieces| && pieces[i].Covers(at)
        ensures FirstCovering(pieces, at).Some?
      {
        assert pieces[1..][i - 1].Covers(at);
      }
    }
  }

  /** The piece whose byte survives at `at`: it covers `at`, and no piece that beats it does. */
  ghost predicate Wins(pieces: seq<Piece>, policy: Policy, at: nat, i: nat) {
    && i < |pieces| && pieces[i].Covers(at)
    && forall j: nat :: j < |pieces| && pieces[j].Covers(at) ==> if policy.FirstWins? then i <= j else j <= i
  }

  /**
   * Overlaps are resolved by arrival alone. A byte has a value exactly when some piece covers it,
   * and the value is that of the earliest such piece, or of the latest, as the policy says.
   */
  lemma OverlapByArrival(pieces: seq<Piece>, policy: Policy, at: nat)
    ensures ByteAt(pieces, policy, at).Some? <==> exists i :: 0 <= i < |pieces| && pieces[i].Covers(at)
    ensures forall i: nat :: Wins(pieces, policy, at, i) ==>
      ByteAt(pieces, policy, at) == Some(pieces[i].data[at - pieces[i].offset])
  {
    var order := ClaimOrder(pieces, policy);
    FirstCoveringIsFirst(order, at);
    if policy.LastWins? {
      forall i | 0 <= i < |pieces| && pieces[i].Covers(at)
        ensures order[|pieces| - 1 - i].Covers(at)
      {
      }
      forall i | 0 <= i < |order| && order[i].Covers(at)
        ensures pieces[|pieces| - 1 - i].Covers(at)
      {
      }
    }
    if ByteAt(pieces, policy, at).Some? {
      var k :| 0 <= k < |order| && order[k].Covers(at) &&
        FirstCovering(order, at).value == order[k].data[at - order[k].offset] &&
        forall j :: 0 <= j < k ==> !order[j].Covers(at);
      var winner := if policy.FirstWins? then k else |pieces| - 1 - k;
      assert pieces[winner] == order[k];
      forall i: nat | Wins(pieces, policy, at, i)
        ensures i == winner
      {
        assert order[if policy.FirstWins? then i else |pieces| - 1 - i].Covers(at);
      }
    }
  }

  lemma {:induction false} FirstCoveringAppend(pieces: seq<Piece>, last: Piece, at: nat)
    ensures FirstCovering(pieces + [last], at) ==
      if FirstCovering(pieces, at).Some? then FirstCovering(pieces, at)
      else if last.Covers(at) then Some(last.data[at - last.offset]) else None
  {
    if pieces == [] {
      assert pieces + [last] == [last];
    } else {
      assert (pieces + [last])[1..] == pieces[1..] + [last];
      if !pieces[0].Covers(at) {
        FirstCoveringAppend(pieces[1..], last, at);
      }
    }
  }

  /** Copies one piece into the bytes nobody has claimed yet. */
  method Claim(buf: array<byte>, covered: array<bool>, piece: Piece, ghost done: seq<Piece>)
    requires buf.Length == covered.Length && buf as object != covered
    requires forall at: nat :: at < buf.Length ==>
      (covered[at] <==> FirstCovering(done, at).Some?) && (covered[at] ==> buf[at] == FirstCovering(done, at).value)
    modifies buf, covered
    ensures forall at: nat :: at < buf.Length ==>
      && (covered[at] <==> FirstCovering(done + [piece], at).Some?)
      && (covered[at] ==> buf[at] == FirstCovering(done + [piece], at).value)
  {
    var i := 0;
    while i < |piece.data| && piece.offset + i < buf.Length
      invariant 0 <= i <= |piece.data|
      invariant forall at: nat :: at < buf.Length ==>
        var claimed := piece.offset <= at < piece.offset + i;
        && (covered[at] <==> FirstCovering(done, at).Some? || claimed)
        && (covered[at] ==>
              buf[at] == if FirstCovering(done, at).Some? then FirstCovering(done, at).value
                         else piece.data[at - piece.offset])
    {
      var at := piece.offset + i;
      if !covered[at] {
        buf[at] := piece.data[i];
        covered[at] := true;
      }
      i := i + 1;
    }
    forall at: nat | at < buf.Length
      ensures FirstCovering(done + [piece], at) ==
        if FirstCovering(done, at).Some? then FirstCovering(done, at)
        else if piece.Covers(at) then Some(piece.data[at - piece.offset]) else None
    {
      FirstCoveringAppend(done, piece, at);
    }
  }

  method Assemble(p: Partial, policy: Policy) returns (r: Option<seq<byte>>)
    ensures r == Assembled(p, policy)
  {
    if p.total == None {
      return None;
    }
    var total := p.total.value;
    var buf := new byte[total](_ => 0);
    var covered := new bool[total](_ => false);
    var order := ClaimOrder(p.pieces, policy);
    var n := 0;
    while n < |order|
      invariant 0 <= n <= |order|
      invariant forall at: nat :: at < total ==>
        && (covered[at] <==> FirstCovering(order[..n], at).Some?)
        && (covered[at] ==> buf[at] == FirstCovering(order[..n], at).value)
    {
      assert order[..n] + [order[n]] == order[..n + 1];
      Claim(buf, covered, order[n], order[..n]);
      n := n + 1;
    }
    assert order[..n] == order;
    assert forall at: nat :: at < total ==>
      (covered[at] <==> ByteAt(p.pieces, policy, at).Some?) &&
        (covered[at] ==> buf[at] == ByteAt(p.pieces, policy, at).value);
    if forall at | 0 <= at < total :: covered[at] {
      assert forall at: nat :: at < total ==> covered[at];
      assert buf[..] == Assembled(p, policy).value;
      return Some(buf[..]);
    }
    ghost var hole: nat :| hole < total && !covered[hole];
    assert ByteAt(p.pieces, policy, hole) == None;
    return None;
  }

  // ----- The table of partial datagrams -----

  /** The reassembler's state, with its counters of dropped, finished and expired work. */
  datatype Defrag = Defrag(table: map<FragKey, Partial>, lastSwept: int, dropped: nat, reassembled: nat, expired: nat)

  datatype Fragment = Fragment(key: FragKey, offset: nat, more: bool, payload: seq<byte>, header: seq<byte>,
      nextHeader: Option<byte>)
  {
    /** An IPv4 fragment brings a header long enough to hold the fields that rebuilding patches. */
    predicate Patchable() { nextHeader == None ==> |header| >= 8 }
  }

  /** A state after one step, and the datagram the step completed, if any. */
  datatype Outcome = Outcome(state: Defrag, datagram: Option<seq<byte>>)

  function FreshEntry(now: int): Partial {
    Partial([], 0, None, [], None, now)
  }

  function EntryFor(d: Defrag, key: FragKey, now: int): Partial {
    if key in d.table then d.table[key] else FreshEntry(now)
  }

  function Absorb(p: Partial, f: Fragment): Partial {
    p.(header := if f.offset == 0 then f.header else p.header,
       nextHeader := if f.offset == 0 then f.nextHeader else p.nextHeader,
       total := if f.more then p.total else Some(f.offset + |f.payload|),
       pieces := p.pieces + [Piece(f.offset, f.payload)],
       bytes := p.bytes + |f.payload|)
  }

  /** Two bytes written big-endian at `at`. */
  function Put16(s: seq<byte>, at: nat, n: nat): seq<byte>
    requires at + 2 <= |s| && n < 0x1_0000
  {
    s[at := n / 0x100][at + 1 := n % 0x100]
  }

  /** Splices a payload back onto its IP header so that the result reads as a whole datagram. */
  function RebuildDatagram(header: seq<byte>, nextHeader: Option<byte>, payload: seq<byte>): seq<byte>
    requires nextHeader == None ==> |header| >= 8
  {
    match nextHeader
    case None =>
      Put16(header, 2, Min(|header| + |payload|, 0xFFFF))[6 := 0][7 := 0] + payload
    case Some(next) =>
      var fixed := header[..Min(40, |header|)];
      (if |fixed| == 40 then Put16(fixed, 4, Min(|payload|, 0xFFFF))[6 := next] else fixed) + payload
  }

  /** Takes the datagram under `key` out of the table if it is complete. */
  ghost function Finished(policy: Policy, d: Defrag, key: FragKey): (r: Outcome)
    requires key in d.table && TableSound(d)
    ensures TableSound(r.state)
  {
    var entry := d.table[key];
    var assembled := if entry.header == [] then None else Assembled(entry, policy);
    if assembled == None then
      Outcome(d, None)
    else
      Outcome(d.(table := d.table - {key}, reassembled := d.reassembled + 1),
              Some(RebuildDatagram(entry.header, entry.nextHeader, assembled.value)))
  }

  ghost function Offered(limits: Limits, d: Defrag, f: Fragment, now: int): (r: Outcome)
    requires TableSound(d) && f.Patchable()
    ensures TableSound(r.state)
  {
    if f.offset + |f.payload| > limits.maxBytesPerDatagram then
      Outcome(d.(dropped := d.dropped + 1), None)
    else if f.key !in d.table && |d.table| >= limits.maxDatagrams then
      Outcome(d.(dropped := d.dropped + 1), None)
    else
      var entry := EntryFor(d, f.key, now);
      if |entry.pieces| >= limits.maxFragmentsPerDatagram || entry.bytes + |f.payload| > limits.maxBytesPerDatagram then
        Outcome(d.(table := d.table[f.key := entry], dropped := d.dropped + 1), None)
      else
        Finished(limits.policy, d.(table := d.table[f.key := Absorb(entry, f)]), f.key)
  }

  /** A stored header can always be patched: it is empty, or it came with a fragment. */
  predicate EntrySound(p: Partial) {
    p.nextHeader == None ==> p.header == [] || |p.header| >= 8
  }

  ghost predicate TableSound(d: Defrag) {
    forall k :: k in d.table ==> EntrySound(d.table[k])
  }

  /** Drops entries older than the timeout, at most once per second of capture time. */
  function Swept(limits: Limits, d: Defrag, now: int): (r: Defrag)
    ensures TableSound(d) ==> TableSound(r)
  {
    if now <= d.lastSwept then d
    else
      var kept := map k | k in d.table && d.table[k].firstSeen > now - limits.timeoutSecs :: d.table[k];
      assert d.table.Keys == kept.Keys + (d.table.Keys - kept.Keys);
      d.(table := kept, lastSwept := now, expired := d.expired + (|d.table| - |kept|))
  }

  class Defragmenter {
    const limits: Limits
    var table: map<FragKey, Partial>
    var lastSwept: int
    var fragmentsDropped: nat
    var datagramsReassembled: nat
    var incompleteExpired: nat

    ghost function View(): Defrag
      reads this
    {
      Defrag(table, lastSwept, fragmentsDropped, datagramsReassembled, incompleteExpired)
    }

    ghost predicate Valid()
      reads this
    {
      TableSound(View())
    }

    constructor (l: Limits)
      ensures Valid() && limits == l && View() == Defrag(map[], 0, 0, 0, 0)
    {
      limits, table, lastSwept := l, map[], 0;
      fragmentsDropped, datagramsReassembled, incompleteExpired := 0, 0, 0;
    }

    method Sweep(now: int)
      requires Valid()
      modifies this
      ensures Valid() && View() == Swept(limits, old(View()), now)
    {
      if now <= lastSwept {
        return;
      }
      ghost var before := View();
      lastSwept := now;
      var cutoff := now - limits.timeoutSecs;
      var had := |table|;
      table := map k | k in table && table[k].firstSeen > cutoff :: table[k];
      assert table == Swept(limits, before, now).table;
      assert before.table.Keys == table.Keys + (before.table.Keys - table.Keys);
      incompleteExpired := incompleteExpired + (had - |table|);
    }

    method TryFinish(key: FragKey) returns (datagram: Option<seq<byte>>)
      requires Valid() && key in table
      modifies this
      ensures Valid()
      ensures Outcome(View(), datagram) == Finished(limits.policy, old(View()), key)
    {
      hide AllCovered, ByteAt, RebuildDatagram;
      var entry := table[key];
      if entry.total == None || entry.header == [] {
        return None;
      }
      var assembled := Assemble(entry, limits.policy);
      if assembled == None {
        return None;
      }
      table := table - {key};
      datagramsReassembled := datagramsReassembled + 1;
      return Some(RebuildDatagram(entry.header, entry.nextHeader, assembled.value));
    }

    /** Absorbs one fragment; the rebuilt datagram once the last hole closes. */
    method Offer(f: Fragment, now: int) returns (datagram: Option<seq<byte>>)
      requires Valid() && f.Patchable()
      modifies this
      ensures Valid()
      ensures Outcome(View(), datagram) == Offered(limits, old(View()), f, now)
    {
      hide Finished;
      if f.offset + |f.payload| > limits.maxBytesPerDatagram {
        fragmentsDropped := fragmentsDropped + 1;
        return None;
      }
      if f.key !in table && |table| >= limits.maxDatagrams {
        fragmentsDropped := fragmentsDropped + 1;
        return None;
      }
      var entry := if f.key in table then table[f.key] else FreshEntry(now);
      table := table[f.key := entry];
      if |entry.pieces| >= limits.maxFragmentsPerDatagram || entry.bytes + |f.payload| > limits.maxBytesPerDatagram {
        fragmentsDropped := fragmentsDropped + 1;
        return None;
      }
      if f.offset == 0 {
        entry := entry.(header := f.header, nextHeader := f.nextHeader);
      }
      if !f.more {
        entry := entry.(total := Some(f.offset + |f.payload|));
      }
      entry := entry.(pieces := entry.pieces + [Piece(f.offset, f.payload)], bytes := entry.bytes + |f.payload|);
      assert table[f.key := entry] == old(table)[f.key := entry];
      table := table[f.key := entry];
      datagram := TryFinish(f.key);
    }
  }
}
