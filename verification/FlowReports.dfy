/**
 * Whom and when the flow table's reports are about (src/engine.rs, `FlowTable`), said of the packets counted to each
 * flow alone: its first packet names its ends and its start, its last one decides when it has lapsed, and the bytes
 * since the last report and the time since then decide each interim report.
 */
module FlowReports {
  import opened Base
  import opened Observations
  import opened FlowTables
  import opened FlowTableTheorems

  // ------------------------------------------------------- what the packets say

  predicate CountedTo(x: Fate, s: nat) {
    x.Counted? && x.serial == s
  }

  /** The packet that opened a flow. */
  function Opener(fates: seq<Fate>, packets: seq<Packet>, s: nat): Option<Packet>
    requires |fates| == |packets|
  {
    if fates == [] then None
    else
      var n := |fates| - 1;
      var before := Opener(fates[..n], packets[..n], s);
      if before.None? && CountedTo(fates[n], s) then Some(packets[n]) else before
  }

  /** When the latest packet was counted to a flow. */
  function LastActive(fates: seq<Fate>, packets: seq<Packet>, s: nat): Option<int>
    requires |fates| == |packets|
  {
    if fates == [] then None
    else
      var n := |fates| - 1;
      if CountedTo(fates[n], s) then Some(packets[n].now) else LastActive(fates[..n], packets[..n], s)
  }

  /** Since when a flow's next interim report is awaited: its first packet, and then every one thirty seconds on. */
  function AwaitedSince(fates: seq<Fate>, packets: seq<Packet>, s: nat): Option<int>
    requires |fates| == |packets|
  {
    if fates == [] then None
    else
      var n := |fates| - 1;
      var since := AwaitedSince(fates[..n], packets[..n], s);
      if CountedTo(fates[n], s) && (since.None? || packets[n].now >= since.value + 30) then Some(packets[n].now)
      else since
  }

  function Sum(os: seq<Observation>, c: Column): nat {
    if os == [] then 0 else Sum(os[..|os| - 1], c) + Amount(os[|os| - 1], c)
  }

  /** Thirty seconds on, a packet of a flow brings a report of the bytes not reported yet, if there are any. */
  function InterimDue(p: Packet, since: Option<int>, opener: Option<Packet>, bytesOut: int, bytesIn: int):
      seq<Observation> {
    if since.Some? && opener.Some? && p.now >= since.value + 30 && bytesOut >= 0 && bytesIn >= 0
       && bytesOut + bytesIn > 0 then
      [Traffic(p.now, opener.value.src.ip, opener.value.dst.ip, opener.value.dst.port, bytesOut, bytesIn)]
    else []
  }

  /** The interim reports a flow deserves once one more packet has come. */
  function InterimsNext(before: seq<Observation>, fates: seq<Fate>, packets: seq<Packet>, x: Fate, p: Packet, s: nat):
      seq<Observation>
    requires |fates| == |packets|
  {
    if CountedTo(x, s) then
      before + InterimDue(p, AwaitedSince(fates, packets, s), Opener(fates, packets, s),
                          BytesCounted(fates + [x], s, true) - Sum(before, OutBytes),
                          BytesCounted(fates + [x], s, false) - Sum(before, InBytes))
    else before
  }

  /** The interim reports a flow deserves, by the packets counted to it. */
  function InterimsDue(fates: seq<Fate>, packets: seq<Packet>, s: nat): seq<Observation>
    requires |fates| == |packets|
  {
    if fates == [] then []
    else
      var n := |fates| - 1;
      InterimsNext(InterimsDue(fates[..n], packets[..n], s), fates[..n], packets[..n], fates[n], packets[n], s)
  }

  /** The interim reports made about one flow. */
  function InterimsMade(rs: seq<Report>, s: nat): seq<Observation> {
    if rs == [] then []
    else
      var r := rs[|rs| - 1];
      InterimsMade(rs[..|rs| - 1], s) + if r.serial == s && r.o.Traffic? then [r.o] else []
  }

  lemma NotesGrow(fates: seq<Fate>, packets: seq<Packet>, x: Fate, p: Packet, s: nat)
    requires |fates| == |packets|
    ensures Opener(fates + [x], packets + [p], s) ==
      if Opener(fates, packets, s).None? && CountedTo(x, s) then Some(p) else Opener(fates, packets, s)
    ensures LastActive(fates + [x], packets + [p], s) ==
      if CountedTo(x, s) then Some(p.now) else LastActive(fates, packets, s)
    ensures var since := AwaitedSince(fates, packets, s);
      AwaitedSince(fates + [x], packets + [p], s) ==
      if CountedTo(x, s) && (since.None? || p.now >= since.value + 30) then Some(p.now) else since
  {
    var n := |fates|;
    assert (fates + [x])[..n] == fates && (packets + [p])[..n] == packets;
  }

  lemma InterimsGrow(fates: seq<Fate>, packets: seq<Packet>, x: Fate, p: Packet, s: nat)
    requires |fates| == |packets|
    ensures InterimsDue(fates + [x], packets + [p], s) ==
      InterimsNext(InterimsDue(fates, packets, s), fates, packets, x, p, s)
  {
    hide InterimsNext;
    assert (fates + [x])[..|fates|] == fates && (packets + [p])[..|packets|] == packets;
  }

  // ------------------------------------------------------------------ the invariant

  /** An entry knows its flow by its packets. */
  ghost predicate EntryKnows(f: Flow, fates: seq<Fate>, packets: seq<Packet>)
    requires |fates| == |packets|
  {
    && (var o := Opener(fates, packets, f.serial);
        o.Some? && f.client == o.value.src && f.server == o.value.dst && f.firstAt == o.value.at)
    && LastActive(fates, packets, f.serial) == Some(f.lastSeen)
    && AwaitedSince(fates, packets, f.serial) == Some(f.lastReport)
  }

  /**
   * A report is about the two ends of its flow, the opener's source the source; a finished flow is dated by its first
   * packet, or by some packet's clock when that was before the epoch.
   */
  ghost predicate ReportNames(r: Report, fates: seq<Fate>, packets: seq<Packet>, clocks: set<int>)
    requires |fates| == |packets|
  {
    var o := Opener(fates, packets, r.serial);
    && o.Some? && (r.o.Flow? || r.o.Traffic?)
    && r.o.src == o.value.src.ip && r.o.dst == o.value.dst.ip && r.o.dstPort == o.value.dst.port
    && (r.o.Flow? ==> if o.value.at >= 0 then r.o.ts == o.value.at / 1_000_000_000 else r.o.ts in clocks)
  }

  ghost predicate OriginsAreOpeners(origins: seq<Origin>, fates: seq<Fate>, packets: seq<Packet>)
    requires |fates| == |packets|
  {
    forall s: nat ::
      if s < |origins| then
        var o := Opener(fates, packets, s);
        o.Some? && origins[s] == Origin(o.value.src, o.value.dst)
      else
        && Opener(fates, packets, s) == None && LastActive(fates, packets, s) == None
        && AwaitedSince(fates, packets, s) == None && InterimsDue(fates, packets, s) == []
  }

  ghost predicate InterimsAreDue(rs: seq<Report>, fates: seq<Fate>, packets: seq<Packet>)
    requires |fates| == |packets|
  {
    forall s: nat :: InterimsMade(rs, s) == InterimsDue(fates, packets, s)
  }

  ghost predicate AllNamed(rs: seq<Report>, fates: seq<Fate>, packets: seq<Packet>, clocks: set<int>)
    requires |fates| == |packets|
  {
    forall i :: 0 <= i < |rs| ==> ReportNames(rs[i], fates, packets, clocks)
  }

  ghost predicate AllKnow(flows: map<FlowKey, Flow>, fates: seq<Fate>, packets: seq<Packet>)
    requires |fates| == |packets|
  {
    forall k :: k in flows ==> EntryKnows(flows[k], fates, packets)
  }

  ghost predicate Named(t: Table, packets: seq<Packet>, clocks: set<int>) {
    && |t.fates| == |packets|
    && AllKnow(t.flows, t.fates, packets)
    && OriginsAreOpeners(t.origins, t.fates, packets)
    && InterimsAreDue(t.observations, t.fates, packets)
    && AllNamed(t.observations, t.fates, packets, clocks)
  }

  lemma MoreClocks(t: Table, packets: seq<Packet>, clocks: set<int>, more: set<int>)
    requires Named(t, packets, clocks) && clocks <= more
    ensures Named(t, packets, more)
  {
    hide AllKnow, OriginsAreOpeners, InterimsAreDue, Opener;
  }

  // -------------------------------------------------------------------- retiring

  lemma {:induction false} InterimsMadeAdd(a: seq<Report>, b: seq<Report>, s: nat)
    requires forall i :: 0 <= i < |b| ==> !b[i].o.Traffic?
    ensures InterimsMade(a + b, s) == InterimsMade(a, s)
  {
    if b == [] {
      assert a + b == a;
    } else {
      assert (a + b)[..|a + b| - 1] == a + b[..|b| - 1];
      InterimsMadeAdd(a, b[..|b| - 1], s);
    }
  }

  lemma RetiringNames(t: Table, gone: map<FlowKey, Flow>, more: seq<Report>, at: Option<int>, u: Table,
      packets: seq<Packet>, clocks: set<int>)
    requires Named(t, packets, clocks)
    requires forall k :: k in gone ==> k in t.flows && gone[k] == t.flows[k]
    requires if at.Some? then at.value in clocks else forall k :: k in gone ==> gone[k].lastSeen in clocks
    requires if t.observing then Retirements(more, gone, at) else more == []
    requires u.flows == t.flows - gone.Keys && u.observations == t.observations + more
    requires u.origins == t.origins && u.fates == t.fates
    ensures Named(u, packets, clocks)
  {
    hide OriginsAreOpeners, Opener, InterimsMade, InterimsDue, Retirements, EntryKnows;
    forall i | 0 <= i < |more|
      ensures ReportNames(more[i], t.fates, packets, clocks) && more[i].o.Flow?
    {
      RetirementOf(more, gone, at, i);
      var k :| k in gone && more[i] == Retirement(gone[k], if at.Some? then at.value else gone[k].lastSeen);
      KnownIsNamed(t.flows[k], t.fates, packets, if at.Some? then at.value else gone[k].lastSeen, clocks);
    }
    forall s: nat
      ensures InterimsMade(u.observations, s) == InterimsDue(u.fates, packets, s)
    {
      InterimsMadeAdd(t.observations, more, s);
    }
  }

  lemma KnownIsNamed(f: Flow, fates: seq<Fate>, packets: seq<Packet>, clock: int, clocks: set<int>)
    requires |fates| == |packets| && EntryKnows(f, fates, packets) && clock in clocks
    ensures ReportNames(Retirement(f, clock), fates, packets, clocks) && Retirement(f, clock).o.Flow?
  {
    hide Opener, LastActive, AwaitedSince;
  }

  lemma ExpiredNames(t: Table, now: int, idle: int, u: Table, packets: seq<Packet>, clocks: set<int>)
    requires Named(t, packets, clocks) && Expired(t, now, idle, u) && now in clocks
    ensures Named(u, packets, clocks)
  {
    hide Named, Dead;
    var more :| && u == t.(flows := Survivors(t.flows, now, idle), observations := t.observations + more)
                && if t.observing then Retirements(more, Departed(t.flows, now, idle), Some(now)) else more == [];
    var gone := Departed(t.flows, now, idle);
    assert u.flows == t.flows - gone.Keys;
    RetiringNames(t, gone, more, Some(now), u, packets, clocks);
  }

  lemma ClosedNames(t: Table, key: FlowKey, now: int, packets: seq<Packet>, clocks: set<int>)
    requires Named(t, packets, clocks) && key in t.flows && now in clocks
    ensures Named(Closed(t, key, now), packets, clocks)
  {
    hide Named, Retirements;
    if t.flows[key].closed {
      var gone, more := ClosedRetires(t, key, now);
      hide Closed;
      RetiringNames(t, gone, more, Some(now), Closed(t, key, now), packets, clocks);
    }
  }

  // ---------------------------------------------------------- a packet not counted

  lemma NotedNames(t: Table, x: Fate, refused: nat, p: Packet, packets: seq<Packet>, clocks: set<int>)
    requires Named(t, packets, clocks) && !x.Counted?
    ensures Named(t.(fates := t.fates + [x], refused := refused), packets + [p], clocks)
  {
    hide Opener, LastActive, AwaitedSince, InterimsDue, InterimsMade;
    forall s: nat
      ensures && Opener(t.fates + [x], packets + [p], s) == Opener(t.fates, packets, s)
              && LastActive(t.fates + [x], packets + [p], s) == LastActive(t.fates, packets, s)
              && AwaitedSince(t.fates + [x], packets + [p], s) == AwaitedSince(t.fates, packets, s)
              && InterimsDue(t.fates + [x], packets + [p], s) == InterimsDue(t.fates, packets, s)
    {
      NotesGrow(t.fates, packets, x, p, s);
      InterimsGrow(t.fates, packets, x, p, s);
    }
  }

  // -------------------------------------------------------------- a packet counted

  lemma {:induction false} LedgerIsSum(rs: seq<Report>, s: nat)
    requires Ledger(rs, s, Ends) == 0
    ensures Ledger(rs, s, OutBytes) == Sum(InterimsMade(rs, s), OutBytes)
    ensures Ledger(rs, s, InBytes) == Sum(InterimsMade(rs, s), InBytes)
  {
    if rs != [] {
      var front, r := rs[..|rs| - 1], rs[|rs| - 1];
      LedgerIsSum(front, s);
      if r.serial == s && r.o.Traffic? {
        var os := InterimsMade(front, s) + [r.o];
        assert InterimsMade(rs, s) == os && os[..|os| - 1] == InterimsMade(front, s);
      } else {
        assert InterimsMade(front, s) + [] == InterimsMade(front, s);
      }
    }
  }

  lemma InterimsMadeGrow(rs: seq<Report>, r: Report, s: nat)
    ensures InterimsMade(rs + [r], s) == InterimsMade(rs, s) + if r.serial == s && r.o.Traffic? then [r.o] else []
  {
    assert (rs + [r])[..|rs|] == rs;
  }

  /** Whoever has been found a flow for is known, unless the packet opens the flow. */
  ghost predicate Known(t: Table, p: Packet, key: FlowKey, packets: seq<Packet>)
    requires |t.fates| == |packets|
  {
    var f := FlowFor(t, p, key);
    if key in t.flows then
      EntryKnows(f, t.fates, packets)
    else
      && f == NewFlow(|t.origins|, p)
      && Opener(t.fates, packets, f.serial) == None && AwaitedSince(t.fates, packets, f.serial) == None
      && InterimsDue(t.fates, packets, f.serial) == []
  }

  lemma IsKnown(t: Table, p: Packet, key: FlowKey, packets: seq<Packet>, clocks: set<int>)
    requires Named(t, packets, clocks)
    ensures Known(t, p, key, packets)
  {
    hide EntryKnows, InterimsAreDue, AllNamed, InterimsDue, Opener, AwaitedSince;
  }

  lemma TakenEntryKnows(t: Table, p: Packet, key: FlowKey, packets: seq<Packet>)
    requires FlowsReportable(t) && |t.fates| == |packets| && Known(t, p, key, packets)
    ensures var u := Taken(t, p, key); |u.fates| == |packets| + 1 && EntryKnows(u.flows[key], u.fates, packets + [p])
  {
    hide Opener, LastActive, AwaitedSince, InterimsDue, FlowsReportable, Interim;
    var f := FlowFor(t, p, key);
    NotesGrow(t.fates, packets, Counted(f.serial, ToServer(f, p), p.frameLen), p, f.serial);
  }

  lemma OtherStillKnows(f: Flow, fates: seq<Fate>, packets: seq<Packet>, x: Fate, p: Packet)
    requires |fates| == |packets| && EntryKnows(f, fates, packets) && !CountedTo(x, f.serial)
    ensures EntryKnows(f, fates + [x], packets + [p])
  {
    hide Opener, LastActive, AwaitedSince, InterimsDue;
    NotesGrow(fates, packets, x, p, f.serial);
  }

  lemma TakenKnows(t: Table, p: Packet, key: FlowKey, packets: seq<Packet>)
    requires EntriesSound(t) && FlowsReportable(t) && |t.fates| == |packets| && AllKnow(t.flows, t.fates, packets)
    requires Known(t, p, key, packets)
    ensures var u := Taken(t, p, key); |u.fates| == |packets| + 1 && AllKnow(u.flows, u.fates, packets + [p])
  {
    TakenEntryKnows(t, p, key, packets);
    var f := FlowFor(t, p, key);
    var x := Counted(f.serial, ToServer(f, p), p.frameLen);
    hide EntryKnows, FlowsReportable, Interim, Tallied, Reported, Flagged, Known;
    forall k | k in t.flows && k != key
      ensures EntryKnows(t.flows[k], t.fates + [x], packets + [p])
    {
      OtherStillKnows(t.flows[k], t.fates, packets, x, p);
    }
  }

  lemma TakenOpeners(t: Table, p: Packet, key: FlowKey, packets: seq<Packet>)
    requires EntriesSound(t) && FlowsReportable(t) && |t.fates| == |packets|
    requires OriginsAreOpeners(t.origins, t.fates, packets) && Known(t, p, key, packets)
    ensures var u := Taken(t, p, key);
      |u.fates| == |packets| + 1 && OriginsAreOpeners(u.origins, u.fates, packets + [p])
  {
    hide Opener, LastActive, AwaitedSince, InterimsDue, FlowsReportable, Interim, Tallied, Reported, Flagged;
    var f, u := FlowFor(t, p, key), Taken(t, p, key);
    var x := Counted(f.serial, ToServer(f, p), p.frameLen);
    forall s: nat
      ensures if s < |u.origins| then
                var o := Opener(u.fates, packets + [p], s);
                o.Some? && u.origins[s] == Origin(o.value.src, o.value.dst)
              else
                && Opener(u.fates, packets + [p], s) == None && LastActive(u.fates, packets + [p], s) == None
                && AwaitedSince(u.fates, packets + [p], s) == None && InterimsDue(u.fates, packets + [p], s) == []
    {
      NotesGrow(t.fates, packets, x, p, s);
      InterimsGrow(t.fates, packets, x, p, s);
    }
  }

  /** The interim report made, if any, is the one due. */
  lemma TakenInterim(t: Table, p: Packet, key: FlowKey, packets: seq<Packet>)
    requires FlowsReportable(t) && |t.fates| == |packets| && Known(t, p, key, packets)
    requires InterimsAreDue(t.observations, t.fates, packets)
    requires key in t.flows ==> EntryBalanced(t, t.flows[key])
    ensures var u, s := Taken(t, p, key), FlowFor(t, p, key).serial;
      |u.fates| == |packets| + 1 && InterimsMade(u.observations, s) == InterimsDue(u.fates, packets + [p], s)
  {
    hide Opener, LastActive, AwaitedSince, InterimsDue, InterimsMade, BytesCounted, Ledger, Sum, InterimDue;
    hide Interim, Flagged, Reported, FlowsReportable;
    var f := FlowFor(t, p, key);
    var s, g, x := f.serial, Tallied(f, p), Counted(f.serial, ToServer(f, p), p.frameLen);
    InterimsGrow(t.fates, packets, x, p, s);
    assert Taken(t, p, key).fates == t.fates + [x];
    var before := InterimsMade(t.observations, s);
    var opener, since := Opener(t.fates, packets, s), AwaitedSince(t.fates, packets, s);
    if key in t.flows {
      LedgerIsSum(t.observations, s);
      TakenCounts(t, p, key, true);
      TakenCounts(t, p, key, false);
      InterimIsDue(g, p, since, opener);
    } else {
      NewcomerOwesNothing(|t.origins|, p, since, opener, BytesCounted(t.fates + [x], s, true) - Sum(before, OutBytes),
                          BytesCounted(t.fates + [x], s, false) - Sum(before, InBytes));
    }
    InterimsMadeMore(t.observations, g, p.now);
  }

  lemma NewcomerOwesNothing(serial: nat, p: Packet, since: Option<int>, opener: Option<Packet>, bytesOut: int,
      bytesIn: int)
    requires since == None
    ensures Interim(Tallied(NewFlow(serial, p), p), p.now) == []
    ensures InterimDue(p, since, opener, bytesOut, bytesIn) == []
  {
  }

  lemma InterimIsDue(g: Flow, p: Packet, since: Option<int>, opener: Option<Packet>)
    requires since == Some(g.lastReport)
    requires opener.Some? && g.client == opener.value.src && g.server == opener.value.dst
    requires g.reportedOut <= g.bytesToServer && g.reportedIn <= g.bytesToClient
    ensures InterimDue(p, since, opener, g.bytesToServer - g.reportedOut, g.bytesToClient - g.reportedIn) ==
      if Interim(g, p.now) == [] then [] else [Interim(g, p.now)[0].o]
    ensures Interim(g, p.now) != [] ==> Interim(g, p.now)[0].serial == g.serial
  {
  }

  lemma InterimsMadeMore(rs: seq<Report>, g: Flow, now: int)
    requires g.reportedOut <= g.bytesToServer && g.reportedIn <= g.bytesToClient
    ensures InterimsMade(rs + Interim(g, now), g.serial) ==
      InterimsMade(rs, g.serial) + if Interim(g, now) == [] then [] else [Interim(g, now)[0].o]
  {
    if Interim(g, now) != [] {
      InterimsMadeGrow(rs, Interim(g, now)[0], g.serial);
    } else {
      assert rs + [] == rs;
    }
  }

  lemma TakenInterims(t: Table, p: Packet, key: FlowKey, packets: seq<Packet>)
    requires FlowsReportable(t) && |t.fates| == |packets| && Known(t, p, key, packets)
    requires InterimsAreDue(t.observations, t.fates, packets)
    requires key in t.flows ==> EntryBalanced(t, t.flows[key])
    ensures var u := Taken(t, p, key);
      |u.fates| == |packets| + 1 && InterimsAreDue(u.observations, u.fates, packets + [p])
  {
    TakenInterim(t, p, key, packets);
    hide InterimsDue, InterimsMade, EntryBalanced, Tallied, Reported, Flagged, FlowsReportable, Known;
    var f, u := FlowFor(t, p, key), Taken(t, p, key);
    var x := Counted(f.serial, ToServer(f, p), p.frameLen);
    forall s: nat
      ensures InterimsMade(u.observations, s) == InterimsDue(u.fates, packets + [p], s)
    {
      if s != f.serial {
        InterimsGrow(t.fates, packets, x, p, s);
        OtherInterims(t.observations, Tallied(f, p), p.now, s);
      }
    }
  }

  lemma OtherInterims(rs: seq<Report>, g: Flow, now: int, s: nat)
    requires g.reportedOut <= g.bytesToServer && g.reportedIn <= g.bytesToClient && s != g.serial
    ensures InterimsMade(rs + Interim(g, now), s) == InterimsMade(rs, s)
  {
    if Interim(g, now) != [] {
      InterimsMadeGrow(rs, Interim(g, now)[0], s);
    } else {
      assert rs + [] == rs;
    }
  }

  lemma TakenNamesAll(t: Table, p: Packet, key: FlowKey, packets: seq<Packet>, clocks: set<int>)
    requires FlowsReportable(t) && |t.fates| == |packets| && Known(t, p, key, packets)
    requires AllNamed(t.observations, t.fates, packets, clocks)
    ensures var u := Taken(t, p, key);
      |u.fates| == |packets| + 1 && AllNamed(u.observations, u.fates, packets + [p], clocks)
  {
    hide Opener, LastActive, AwaitedSince, InterimsDue, FlowsReportable, Reported, Flagged;
    var f, u := FlowFor(t, p, key), Taken(t, p, key);
    var x := Counted(f.serial, ToServer(f, p), p.frameLen);
    forall i | 0 <= i < |u.observations|
      ensures ReportNames(u.observations[i], u.fates, packets + [p], clocks)
    {
      NotesGrow(t.fates, packets, x, p, u.observations[i].serial);
      if i < |t.observations| {
        assert ReportNames(t.observations[i], t.fates, packets, clocks);
      }
    }
  }

  lemma TakenNames(t: Table, p: Packet, key: FlowKey, packets: seq<Packet>, clocks: set<int>)
    requires Sound(t, packets) && FlowsReportable(t) && Named(t, packets, clocks)
    ensures Named(Taken(t, p, key), packets + [p], clocks)
  {
    IsKnown(t, p, key, packets, clocks);
    assert key in t.flows ==> EntryBalanced(t, t.flows[key]);
    hide Balanced, EntriesSound, Journal, FlowsReportable, Known, Taken;
    hide AllKnow, OriginsAreOpeners, InterimsAreDue, AllNamed, EntryBalanced;
    TakenKnows(t, p, key, packets);
    TakenOpeners(t, p, key, packets);
    TakenInterims(t, p, key, packets);
    TakenNamesAll(t, p, key, packets, clocks);
  }

  // ------------------------------------------------------------------- a whole step

  function ClocksOf(packets: seq<Packet>): set<int> {
    set i | 0 <= i < |packets| :: packets[i].now
  }

  lemma ClocksGrow(packets: seq<Packet>, p: Packet)
    ensures ClocksOf(packets) <= ClocksOf(packets + [p]) && p.now in ClocksOf(packets + [p])
  {
    var more := packets + [p];
    assert more[|packets|] == p;
    forall c | c in ClocksOf(packets)
      ensures c in ClocksOf(more)
    {
      var i :| 0 <= i < |packets| && packets[i].now == c;
      assert more[i] == packets[i];
    }
  }

  lemma RelievedNames(t: Table, p: Packet, key: FlowKey, v: Table, packets: seq<Packet>, clocks: set<int>)
    requires Named(t, packets, clocks) && Relieved(t, p, key, v) && p.now in clocks
    ensures Named(v, packets, clocks)
  {
    hide Named, Expired;
    if Full(t, key) {
      ExpiredNames(t, p.now, FLOW_PRESSURE_IDLE_SECS, v, packets, clocks);
    }
  }

  lemma AcceptedNames(t: Table, p: Packet, key: FlowKey, packets: seq<Packet>, clocks: set<int>)
    requires Sound(t, packets) && Named(t, packets, clocks) && FlowsReportable(t) && p.now in clocks
    ensures Named(Accepted(t, p, key), packets + [p], clocks)
  {
    TakenNames(t, p, key, packets, clocks);
    TakenHasKey(t, p, key);
    hide Named, Sound, Taken, Closed;
    ClosedNames(Taken(t, p, key), key, p.now, packets + [p], clocks);
  }

  lemma SweptNames(t: Table, now: int, u: Table, packets: seq<Packet>, clocks: set<int>)
    requires Named(t, packets, clocks) && Swept(t, now, u) && now in clocks
    ensures Named(u, packets, clocks)
  {
    if SweepDue(t, now) {
      var v := t.(sinceSweep := 0, lastSweptAt := now);
      assert Named(v, packets, clocks);
      hide Named, Expired;
      ExpiredNames(v, now, FLOW_IDLE_TIMEOUT_SECS, u, packets, clocks);
    }
  }

  /** Every packet keeps entries and reports named rightly, and interim reports as they are due. */
  lemma ObservedNames(t: Table, p: Packet, u: Table, packets: seq<Packet>)
    requires Sound(t, packets) && Named(t, packets, ClocksOf(packets)) && FlowsReportable(t) && Observed(t, p, u)
    ensures Named(u, packets + [p], ClocksOf(packets + [p]))
  {
    hide Sound, Named, Expired, Accepted, Swept, KeyOf, FlowsReportable, ClocksOf;
    var key, clocks := KeyOf(p.src, p.dst), ClocksOf(packets + [p]);
    ClocksGrow(packets, p);
    MoreClocks(t, packets, ClocksOf(packets), clocks);
    var v := ObservedThrough(t, p, key, u);
    RelievedIsSound(t, p, key, v, packets);
    RelievedNames(t, p, key, v, packets, clocks);
    if Full(t, key) && |v.flows| >= v.maxFlows {
      NotedNames(v, Refused, v.refused + 1, p, packets, clocks);
    } else if Bare(v, p, key) {
      NotedNames(v, Ignored, v.refused, p, packets, clocks);
    } else {
      AcceptedNames(v, p, key, packets, clocks);
      SweptNames(Accepted(v, p, key), p.now, u, packets + [p], clocks);
    }
  }

  lemma {:induction false} ReachedIsNamed(limit: nat, packets: seq<Packet>, t: Table)
    requires Reaches(Observing(limit), packets, t)
    ensures Named(t, packets, ClocksOf(packets))
    decreases |packets|
  {
    hide Sound, Told, Named, Observed, FlowsReportable, ClocksOf;
    if packets == [] {
      NothingNamed(limit);
    } else {
      hide Reaches, Observing;
      var front, p := packets[..|packets| - 1], packets[|packets| - 1];
      var mid := ReachedFrom(Observing(limit), packets, t);
      ReachedIsSound(limit, front, mid);
      ReachedIsNamed(limit, front, mid);
      ObservedNames(mid, p, t, front);
      assert packets == front + [p];
    }
  }

  lemma NothingNamed(limit: nat)
    ensures Named(Observing(limit), [], ClocksOf([]))
  {
  }

  lemma {:induction false} LastActiveIsAClock(fates: seq<Fate>, packets: seq<Packet>, s: nat)
    requires |fates| == |packets|
    ensures LastActive(fates, packets, s).Some? ==> LastActive(fates, packets, s).value in ClocksOf(packets)
  {
    if fates != [] {
      var n := |fates| - 1;
      LastActiveIsAClock(fates[..n], packets[..n], s);
      assert packets == packets[..n] + [packets[n]];
      ClocksGrow(packets[..n], packets[n]);
    }
  }

  lemma FlushedNames(t: Table, u: Table, packets: seq<Packet>)
    requires Named(t, packets, ClocksOf(packets)) && Flushed(t, u)
    ensures Named(u, packets, ClocksOf(packets))
  {
    var more :| && u == t.(flows := map[], observations := t.observations + more)
                && if t.observing then Retirements(more, t.flows, None) else more == [];
    assert u.flows == t.flows - t.flows.Keys;
    forall k | k in t.flows
      ensures t.flows[k].lastSeen in ClocksOf(packets)
    {
      assert EntryKnows(t.flows[k], t.fates, packets);
      LastActiveIsAClock(t.fates, packets, t.flows[k].serial);
    }
    hide Named, ClocksOf, Retirements;
    RetiringNames(t, t.flows, more, None, u, packets, ClocksOf(packets));
  }

  /** Whom each report of a finished run is about, and when. */
  ghost predicate RightlyNamed(reports: seq<Report>, fates: seq<Fate>, origins: seq<Origin>, packets: seq<Packet>)
    requires |fates| == |packets|
  {
    && OriginsAreOpeners(origins, fates, packets)
    && AllNamed(reports, fates, packets, ClocksOf(packets))
    && (forall i :: 0 <= i < |reports| ==>
          var r := reports[i];
          && r.serial < |origins| && (r.o.Flow? || r.o.Traffic?)
          && r.o.src == origins[r.serial].client.ip && r.o.dst == origins[r.serial].server.ip
          && r.o.dstPort == origins[r.serial].server.port)
    && InterimsAreDue(reports, fates, packets)
  }

  /**
   * Over every whole run: each report names as its source the address that opened the flow, and as its destination the
   * address and port that was opened; a finished flow is dated by its first packet; and the interim reports of a flow
   * are exactly those that its own packets make due.
   */
  lemma WholeRunNames(limit: nat, packets: seq<Packet>, u: Table)
    requires WholeRun(limit, packets, u)
    ensures |u.fates| == |packets| && RightlyNamed(u.observations, u.fates, u.origins, packets)
  {
    hide Reaches, Flushed, Observing, Named, ClocksOf, RightlyNamed;
    var t :| Reaches(Observing(limit), packets, t) && Flushed(t, u);
    ReachedIsNamed(limit, packets, t);
    FlushedNames(t, u, packets);
    NamedIsRightly(u, packets);
  }

  lemma NamedIsRightly(u: Table, packets: seq<Packet>)
    requires Named(u, packets, ClocksOf(packets))
    ensures |u.fates| == |packets| && RightlyNamed(u.observations, u.fates, u.origins, packets)
  {
    hide Opener, AwaitedSince, InterimsDue, InterimsMade, ClocksOf;
    forall i | 0 <= i < |u.observations|
      ensures var r := u.observations[i];
        && r.serial < |u.origins| && (r.o.Flow? || r.o.Traffic?)
        && r.o.src == u.origins[r.serial].client.ip && r.o.dst == u.origins[r.serial].server.ip
        && r.o.dstPort == u.origins[r.serial].server.port
    {
      assert ReportNames(u.observations[i], u.fates, packets, ClocksOf(packets));
    }
  }

  // --------------------------------------------------- when nobody is observing

  /** Nothing but interim reports has been made. */
  ghost predicate OnlyInterims(t: Table) {
    !t.observing && forall i :: 0 <= i < |t.observations| ==> t.observations[i].o.Traffic?
  }

  lemma ExpiredIsSilent(t: Table, now: int, idle: int, u: Table)
    requires OnlyInterims(t) && Expired(t, now, idle, u)
    ensures OnlyInterims(u)
  {
    hide Dead, Retirements;
    assert u.observations == t.observations + [];
  }

  lemma AcceptedIsSilent(t: Table, p: Packet, key: FlowKey)
    requires OnlyInterims(t) && FlowsReportable(t)
    ensures OnlyInterims(Accepted(t, p, key))
  {
    hide Tallied, Reported, Flagged, Retirement;
  }

  lemma ObservedIsSilent(t: Table, p: Packet, u: Table)
    requires OnlyInterims(t) && FlowsReportable(t) && Observed(t, p, u)
    ensures OnlyInterims(u)
  {
    hide Expired, Accepted, KeyOf, FlowsReportable;
    var key := KeyOf(p.src, p.dst);
    var v := ObservedThrough(t, p, key, u);
    if Full(t, key) {
      ExpiredIsSilent(t, p.now, FLOW_PRESSURE_IDLE_SECS, v);
    }
    if !(Full(t, key) && |v.flows| >= v.maxFlows) && !Bare(v, p, key) {
      AcceptedIsSilent(v, p, key);
      var r := Accepted(v, p, key);
      if SweepDue(r, p.now) {
        ExpiredIsSilent(r.(sinceSweep := 0, lastSweptAt := p.now), p.now, FLOW_IDLE_TIMEOUT_SECS, u);
      }
    }
  }

  /** Unless observations are enabled no flow is reported as finished, though interim reports are made all the same. */
  lemma {:induction false} UnobservedRunIsSilent(limit: nat, packets: seq<Packet>, t: Table)
    requires Reaches(NewTable(limit), packets, t)
    ensures OnlyInterims(t) && forall u :: Flushed(t, u) ==> OnlyInterims(u)
    decreases |packets|
  {
    if packets != [] {
      hide Reaches, Observed, FlowsReportable, OnlyInterims;
      var front := packets[..|packets| - 1];
      var mid := ReachedFrom(NewTable(limit), packets, t);
      UnobservedRunIsSilent(limit, front, mid);
      ObservedIsSilent(mid, packets[|packets| - 1], t);
    }
    forall u | Flushed(t, u)
      ensures OnlyInterims(u)
    {
      FlushedIsSilent(t, u);
    }
  }

  lemma FlushedIsSilent(t: Table, u: Table)
    requires OnlyInterims(t) && Flushed(t, u)
    ensures OnlyInterims(u)
  {
    assert u.observations == t.observations + [];
  }

  /** The worker: one table, its observations taken after every packet, and the flush when it stops. */
  method RunWorker(packets: seq<Packet>, limit: nat)
    returns (reports: seq<Report>, refused: nat, fates: seq<Fate>, origins: seq<Origin>)
    ensures exists u :: && WholeRun(limit, packets, u)
                        && reports == u.observations && refused == u.refused && fates == u.fates && origins == u.origins
    ensures Journal(fates, packets, origins, refused)
    ensures Reconciled(reports, fates, origins, packets)
    ensures |fates| == |packets| && RightlyNamed(reports, fates, origins, packets)
  {
    hide Reaches, Observed, Reconciled, RightlyNamed, Flushed, Journal, Sound, Told, FlowsReportable;
    var table := new FlowTable(limit);
    table.EnableObservations();
    reports := [];
    NothingReached(limit);
    for i := 0 to |packets|
      invariant Reaches(Observing(limit), packets[..i], table.State())
      invariant table.observations == [] && reports == table.handedOver
    {
      ghost var t := table.State();
      ReachedIsSound(limit, packets[..i], t);
      SoundIsReportable(t, packets[..i]);
      table.Observe(packets[i]);
      ReachesFurther(Observing(limit), packets[..i], t, packets[i], table.State());
      assert packets[..i] + [packets[i]] == packets[..i + 1];
      var taken := table.TakeObservations();
      reports := reports + taken;
    }
    assert packets[..|packets|] == packets;
    table.FlushOpenFlows();
    ghost var u := table.State();
    assert WholeRun(limit, packets, u);
    WholeRunReconciles(limit, packets, u);
    WholeRunNames(limit, packets, u);
    var taken := table.TakeObservations();
    reports := reports + taken;
    refused, fates, origins := table.refused, table.fates, table.origins;
    assert reports == u.observations;
  }
}
