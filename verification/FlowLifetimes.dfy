/**
 * How long a flow stays in the table (src/engine.rs, `expire`, `sweep_if_due` and `observe`), said of the packets
 * counted to it: when it lapses, when the table is swept, and that it leaves for no other reason.
 */
module FlowLifetimes {
  import opened FlowTables
  import opened FlowTableTheorems
  import opened FlowReports

  /** Nothing for the idle time, or nothing for ten seconds and no reply ever. */
  ghost predicate Lapsed(fates: seq<Fate>, packets: seq<Packet>, s: nat, now: int, idle: int)
    requires |fates| == |packets|
  {
    var last := LastActive(fates, packets, s);
    && last.Some?
    && (now - last.value >= idle || (now - last.value >= 10 && !Seen(fates, packets, s, Reply)))
  }

  /** Both sides have finished, or one has reset. */
  ghost predicate Over(fates: seq<Fate>, packets: seq<Packet>, s: nat) {
    || Seen(fates, packets, s, Reset)
    || (Seen(fates, packets, s, FinFromClient) && Seen(fates, packets, s, FinFromServer))
  }

  lemma DeadIff(f: Flow, fates: seq<Fate>, packets: seq<Packet>, now: int, idle: int)
    requires |fates| == |packets| && EntryKnows(f, fates, packets) && EntryTells(f, fates, packets) && !f.closed
    ensures Dead(f, now, idle) <==> Lapsed(fates, packets, f.serial, now, idle)
  {
    hide Opener, LastActive, AwaitedSince, Seen;
  }

  /** Everything known of a table that a run of packets has led to. */
  ghost predicate WellKept(t: Table, packets: seq<Packet>, clocks: set<int>) {
    Sound(t, packets) && Told(t, packets) && Named(t, packets, clocks)
  }

  lemma EntryFacts(t: Table, packets: seq<Packet>, clocks: set<int>, k: FlowKey)
    requires WellKept(t, packets, clocks) && k in t.flows
    ensures |t.fates| == |packets| && EntryKnows(t.flows[k], t.fates, packets)
    ensures EntryTells(t.flows[k], t.fates, packets) && !t.flows[k].closed
  {
    hide Balanced, EntriesSound, Journal, Departures, OriginsAreOpeners, InterimsAreDue, AllNamed, EntryKnows;
    hide EntryTells, ReportTells;
  }

  lemma SameSerialSameKey(t: Table, j: FlowKey, k: FlowKey)
    requires EntriesSound(t) && j in t.flows && k in t.flows && t.flows[j].serial == t.flows[k].serial
    ensures j == k
  {
  }

  /** An expiry takes exactly the flows that have lapsed. */
  lemma ExpiryIff(t: Table, now: int, idle: int, u: Table, packets: seq<Packet>, clocks: set<int>, s: nat)
    requires WellKept(t, packets, clocks) && Expired(t, now, idle, u)
    ensures |t.fates| == |packets| && (InTable(u, s) <==> InTable(t, s) && !Lapsed(t.fates, packets, s, now, idle))
  {
    hide Lapsed, Dead, Retirements;
    assert u.flows == Survivors(t.flows, now, idle);
    assert |t.fates| == |packets|;
    if InTable(t, s) {
      var k :| k in t.flows && t.flows[k].serial == s;
      EntryFacts(t, packets, clocks, k);
      DeadIff(t.flows[k], t.fates, packets, now, idle);
      if k in u.flows {
        InTableBy(u, k);
      }
      if InTable(u, s) {
        var j :| j in u.flows && u.flows[j].serial == s;
        SameSerialSameKey(t, j, k);
      }
    }
    hide WellKept;
    if InTable(u, s) {
      var k :| k in u.flows && u.flows[k].serial == s;
      InTableBy(t, k);
    }
  }

  lemma TakenInTable(t: Table, p: Packet, key: FlowKey, s: nat)
    requires FlowsReportable(t)
    ensures InTable(Taken(t, p, key), s) <==> InTable(t, s) || s == FlowFor(t, p, key).serial
  {
    hide Interim, FlowsReportable;
    TakenShape(t, p, key);
    hide Taken;
    var u := Taken(t, p, key);
    InTableBy(u, key);
    if InTable(t, s) {
      var k :| k in t.flows && t.flows[k].serial == s;
      InTableBy(u, k);
    }
    if InTable(u, s) {
      var k :| k in u.flows && u.flows[k].serial == s;
      if k != key {
        InTableBy(t, k);
      }
    }
  }

  lemma ClosedInTable(t: Table, key: FlowKey, now: int, s: nat)
    requires EntriesSound(t) && key in t.flows
    ensures InTable(Closed(t, key, now), s) <==> InTable(t, s) && !(t.flows[key].serial == s && t.flows[key].closed)
  {
    var u := Closed(t, key, now);
    if InTable(t, s) {
      var k :| k in t.flows && t.flows[k].serial == s;
      if k in u.flows {
        InTableBy(u, k);
      }
    }
    if InTable(u, s) {
      var k :| k in u.flows && u.flows[k].serial == s;
      InTableBy(t, k);
    }
  }

  // --------------------------------------------------------------- when to sweep

  /** Counted packets since the last sweep, and the second of that sweep. */
  datatype Clock = Clock(since: nat, at: int)

  /** A sweep is due after 4096 counted packets, or at the first of a later second. */
  predicate TimeToSweep(c: Clock, now: int) {
    c.since >= 4095 || now > c.at
  }

  function SweepClock(fates: seq<Fate>, packets: seq<Packet>): Clock
    requires |fates| == |packets|
  {
    if fates == [] then Clock(0, 0)
    else
      var n := |fates| - 1;
      var c := SweepClock(fates[..n], packets[..n]);
      if !fates[n].Counted? then c
      else if TimeToSweep(c, packets[n].now) then Clock(0, packets[n].now)
      else Clock(c.since + 1, c.at)
  }

  ghost predicate Clocked(t: Table, packets: seq<Packet>) {
    |t.fates| == |packets| && SweepClock(t.fates, packets) == Clock(t.sinceSweep, t.lastSweptAt)
  }

  lemma SweepClockGrows(fates: seq<Fate>, packets: seq<Packet>, x: Fate, p: Packet)
    requires |fates| == |packets|
    ensures var c := SweepClock(fates, packets);
      SweepClock(fates + [x], packets + [p]) ==
      if !x.Counted? then c else if TimeToSweep(c, p.now) then Clock(0, p.now) else Clock(c.since + 1, c.at)
  {
    assert (fates + [x])[..|fates|] == fates && (packets + [p])[..|packets|] == packets;
  }

  /** What a step does to the fates and to the clock of the sweep. */
  lemma StepClock(t: Table, p: Packet, u: Table)
    requires FlowsReportable(t) && Observed(t, p, u)
    ensures |u.fates| == |t.fates| + 1 && u.fates[..|t.fates|] == t.fates
    ensures var due := t.sinceSweep + 1 >= SWEEP_PACKETS || p.now > t.lastSweptAt;
      if !u.fates[|t.fates|].Counted? then u.sinceSweep == t.sinceSweep && u.lastSweptAt == t.lastSweptAt
      else if due then u.sinceSweep == 0 && u.lastSweptAt == p.now
      else u.sinceSweep == t.sinceSweep + 1 && u.lastSweptAt == t.lastSweptAt
  {
    hide KeyOf;
    var key := KeyOf(p.src, p.dst);
    var v := ObservedThrough(t, p, key, u);
    ReliefKeepsClock(t, p, key, v);
    hide Relieved, FlowsReportable;
    if !(Full(t, key) && |v.flows| >= v.maxFlows) && !Bare(v, p, key) {
      AcceptedFate(v, p, key);
      AcceptedKeepsClock(v, p, key);
      hide Accepted;
      SweptClock(Accepted(v, p, key), p.now, u);
    }
  }

  lemma ReliefKeepsClock(t: Table, p: Packet, key: FlowKey, v: Table)
    requires Relieved(t, p, key, v)
    ensures v.fates == t.fates && v.sinceSweep == t.sinceSweep && v.lastSweptAt == t.lastSweptAt
  {
  }

  lemma AcceptedKeepsClock(v: Table, p: Packet, key: FlowKey)
    requires FlowsReportable(v)
    ensures var r := Accepted(v, p, key); r.sinceSweep == v.sinceSweep && r.lastSweptAt == v.lastSweptAt
  {
    hide Tallied, Reported, Flagged, Interim, Retirement;
  }

  lemma SweptClock(t: Table, now: int, u: Table)
    requires Swept(t, now, u)
    ensures u.fates == t.fates
    ensures if t.sinceSweep + 1 >= SWEEP_PACKETS || now > t.lastSweptAt then u.sinceSweep == 0 && u.lastSweptAt == now
            else u.sinceSweep == t.sinceSweep + 1 && u.lastSweptAt == t.lastSweptAt
  {
  }

  lemma {:induction false} ReachedIsClocked(limit: nat, packets: seq<Packet>, t: Table)
    requires Reaches(Observing(limit), packets, t)
    ensures Clocked(t, packets)
    decreases |packets|
  {
    hide Observed, FlowsReportable;
    if packets != [] {
      hide Reaches, Observing;
      var front, p := packets[..|packets| - 1], packets[|packets| - 1];
      var mid := ReachedFrom(Observing(limit), packets, t);
      ReachedIsClocked(limit, front, mid);
      StepClock(mid, p, t);
      SweepClockGrows(mid.fates, front, t.fates[|mid.fates|], p);
      assert packets == front + [p] && t.fates == mid.fates + [t.fates[|mid.fates|]];
    }
  }

  // --------------------------------------------------------------- a whole step

  lemma RelievedIsKept(t: Table, p: Packet, key: FlowKey, v: Table, packets: seq<Packet>, clocks: set<int>, s: nat)
    requires WellKept(t, packets, clocks) && Relieved(t, p, key, v) && p.now in clocks
    ensures WellKept(v, packets, clocks) && |t.fates| == |packets| && v.fates == t.fates
    ensures InTable(v, s) <==> InTable(t, s) && !(Full(t, key) && Lapsed(t.fates, packets, s, p.now, 10))
  {
    hide Sound, Told, Named, Lapsed, Expired, InTable;
    RelievedIsSound(t, p, key, v, packets);
    RelievedTells(t, p, key, v, packets);
    RelievedNames(t, p, key, v, packets, clocks);
    ReliefKeepsClock(t, p, key, v);
    FatesAsMany(t, packets, clocks);
    if Full(t, key) {
      ExpiryIff(t, p.now, FLOW_PRESSURE_IDLE_SECS, v, packets, clocks, s);
    }
  }

  lemma FatesAsMany(t: Table, packets: seq<Packet>, clocks: set<int>)
    requires WellKept(t, packets, clocks)
    ensures |t.fates| == |packets|
  {
  }

  /** A packet that is counted puts its flow in, and takes it out again when it ends the flow. */
  lemma AcceptedInTable(t: Table, p: Packet, key: FlowKey, packets: seq<Packet>, clocks: set<int>, s: nat)
    requires WellKept(t, packets, clocks) && FlowsReportable(t) && key == KeyOf(p.src, p.dst)
    ensures var r := Accepted(t, p, key);
      InTable(r, s) <==>
        (InTable(t, s) || s == FlowFor(t, p, key).serial) &&
        !(s == FlowFor(t, p, key).serial && Over(r.fates, packets + [p], s))
  {
    hide InTable, Seen, Named, Sound, Told, KeyOf;
    var w := Taken(t, p, key);
    TakenInTable(t, p, key, s);
    TakenShape(t, p, key);
    TakenIsClosedIff(t, p, key, packets);
    hide Taken, FlowFor, EntriesSound;
    ClosedInTable(w, key, p.now, s);
    ClosedKeepsJournal(w, key, p.now);
  }

  lemma TakenIsClosedIff(t: Table, p: Packet, key: FlowKey, packets: seq<Packet>)
    requires Sound(t, packets) && Told(t, packets) && FlowsReportable(t) && key == KeyOf(p.src, p.dst)
    ensures var w := Taken(t, p, key);
      EntriesSound(w) && key in w.flows &&
      (w.flows[key].closed <==> Over(w.fates, packets + [p], FlowFor(t, p, key).serial))
  {
    hide Balanced, Journal, Seen, FlowsReportable, Departures, ReportTells, KeyOf, EntriesSound;
    TakenSound(t, p, key);
    TakenTells(t, p, key, packets);
    TakenShape(t, p, key);
    hide Taken;
    assert EntryTells(Taken(t, p, key).flows[key], Taken(t, p, key).fates, packets + [p]);
  }

  lemma AcceptedIsKept(t: Table, p: Packet, key: FlowKey, packets: seq<Packet>, clocks: set<int>)
    requires WellKept(t, packets, clocks) && FlowsReportable(t) && key == KeyOf(p.src, p.dst) && p.now in clocks
    requires key in t.flows || |t.flows| < t.maxFlows
    ensures WellKept(Accepted(t, p, key), packets + [p], clocks)
  {
    hide Sound, Told, Named, Accepted, KeyOf, FlowsReportable;
    TakenIsSound(t, p, key, packets);
    AcceptedTells(t, p, key, packets);
    AcceptedNames(t, p, key, packets, clocks);
  }

  lemma SweptInTable(t: Table, now: int, u: Table, packets: seq<Packet>, clocks: set<int>, s: nat)
    requires WellKept(t, packets, clocks) && Swept(t, now, u)
    ensures |t.fates| == |packets| && u.fates == t.fates
    ensures var due := t.sinceSweep + 1 >= 4096 || now > t.lastSweptAt;
      InTable(u, s) <==> InTable(t, s) && !(due && Lapsed(t.fates, packets, s, now, 300))
  {
    hide Lapsed;
    FatesAsMany(t, packets, clocks);
    SweptFate(t, now, u);
    if SweepDue(t, now) {
      var v := t.(sinceSweep := 0, lastSweptAt := now);
      ClockIsKept(t, v, packets, clocks);
      hide WellKept, Expired;
      ExpiryIff(v, now, FLOW_IDLE_TIMEOUT_SECS, u, packets, clocks, s);
    }
    hide WellKept, Expired;
  }

  lemma ClockIsKept(t: Table, v: Table, packets: seq<Packet>, clocks: set<int>)
    requires WellKept(t, packets, clocks) && v == t.(sinceSweep := v.sinceSweep, lastSweptAt := v.lastSweptAt)
    ensures WellKept(v, packets, clocks)
    ensures forall s: nat :: InTable(v, s) <==> InTable(t, s)
  {
    ClockIsIrrelevant(t, v, packets);
    ClockTells(t, v, packets);
    hide Sound, Told, AllKnow, OriginsAreOpeners, InterimsAreDue, AllNamed;
  }

  /**
   * A flow stays in the table for as long as three things have not happened: a newcomer found the table full when the
   * flow had lapsed at ten seconds; a packet counted to it ended it; or a sweep was due when it had lapsed at three
   * hundred.
   */
  ghost predicate Stays(t: Table, p: Packet, u: Table, packets: seq<Packet>, s: nat)
    requires |t.fates| == |packets| && |u.fates| == |packets| + 1
  {
    var x, all := u.fates[|packets|], packets + [p];
    && !(Full(t, KeyOf(p.src, p.dst)) && Lapsed(t.fates, packets, s, p.now, 10))
    && !(CountedTo(x, s) && Over(u.fates, all, s))
    && !(x.Counted? && TimeToSweep(SweepClock(t.fates, packets), p.now) && Lapsed(u.fates, all, s, p.now, 300))
  }

  lemma NewcomerHasNotLapsed(t: Table, packets: seq<Packet>, clocks: set<int>, s: nat, now: int, idle: int)
    requires WellKept(t, packets, clocks)
    ensures InTable(t, s) ==> s < |t.origins|
    ensures |t.fates| == |packets| && (s >= |t.origins| ==> !Lapsed(t.fates, packets, s, now, idle))
  {
    hide Balanced, Journal, Told, AllKnow, InterimsAreDue, AllNamed, Opener, AwaitedSince, InterimsDue, LastActive;
    hide Seen;
  }

  lemma WellKeptParts(t: Table, packets: seq<Packet>, clocks: set<int>)
    requires WellKept(t, packets, clocks)
    ensures Sound(t, packets) && Told(t, packets) && Named(t, packets, clocks) && FlowsReportable(t)
    ensures |t.flows| <= t.maxFlows
  {
    SoundIsReportable(t, packets);
    hide Told, Named, EntriesSound, Balanced, Journal;
  }

  lemma CountedStays(t: Table, p: Packet, v: Table, u: Table, packets: seq<Packet>, clocks: set<int>, s: nat)
    requires WellKept(v, packets, clocks) && p.now in clocks && FlowsReportable(v)
    requires var key := KeyOf(p.src, p.dst);
      (key in v.flows || |v.flows| < v.maxFlows) && Swept(Accepted(v, p, key), p.now, u)
    ensures var x := Counted(FlowFor(v, p, KeyOf(p.src, p.dst)).serial, ToServer(FlowFor(v, p, KeyOf(p.src, p.dst)), p),
                             p.frameLen);
      && |v.fates| == |packets| && u.fates == v.fates + [x]
      && (InTable(u, s) <==>
            && (InTable(v, s) || CountedTo(x, s))
            && !(CountedTo(x, s) && Over(u.fates, packets + [p], s))
            && !((v.sinceSweep + 1 >= 4096 || p.now > v.lastSweptAt) &&
                 Lapsed(u.fates, packets + [p], s, p.now, 300)))
  {
    hide InTable, WellKept, Lapsed, Over, Swept, KeyOf, FlowsReportable, Accepted;
    var key := KeyOf(p.src, p.dst);
    FatesAsMany(v, packets, clocks);
    AcceptedFate(v, p, key);
    AcceptedKeepsClock(v, p, key);
    AcceptedInTable(v, p, key, packets, clocks, s);
    AcceptedIsKept(v, p, key, packets, clocks);
    SweptInTable(Accepted(v, p, key), p.now, u, packets + [p], clocks, s);
  }

  /** Exactly the flows that stay are in the table after a packet, and the packet's own if it has one. */
  lemma StaysIff(t: Table, p: Packet, u: Table, packets: seq<Packet>, s: nat)
    requires WellKept(t, packets, ClocksOf(packets)) && Clocked(t, packets) && Observed(t, p, u)
    ensures |u.fates| == |packets| + 1 && |t.fates| == |packets|
    ensures InTable(u, s) <==> (InTable(t, s) || CountedTo(u.fates[|packets|], s)) && Stays(t, p, u, packets, s)
  {
    hide InTable, WellKept, Lapsed, Over, Swept, KeyOf, FlowsReportable, Accepted, Relieved, ClocksOf, SweepClock;
    var key, clocks := KeyOf(p.src, p.dst), ClocksOf(packets + [p]);
    StartsKept(t, p, packets, clocks);
    var v := ObservedThrough(t, p, key, u);
    RelievedIsKept(t, p, key, v, packets, clocks, s);
    NewcomerHasNotLapsed(t, packets, clocks, s, p.now, 10);
    ReliefKeepsClock(t, p, key, v);
    WellKeptParts(v, packets, clocks);
    RelievedKeys(t, p, key, v, packets, clocks);
    if (Full(t, key) && |v.flows| >= v.maxFlows) || Bare(v, p, key) {
      OnlyNoted(v, u, s);
    } else {
      CountedStays(t, p, v, u, packets, clocks, s);
      FlowForNewcomer(t, v, p, key, packets, clocks);
    }
  }

  lemma StartsKept(t: Table, p: Packet, packets: seq<Packet>, clocks: set<int>)
    requires WellKept(t, packets, ClocksOf(packets)) && clocks == ClocksOf(packets + [p])
    ensures WellKept(t, packets, clocks) && FlowsReportable(t) && p.now in clocks
  {
    WellKeptParts(t, packets, ClocksOf(packets));
    hide Sound, Told, Named, ClocksOf;
    ClocksGrow(packets, p);
    MoreClocks(t, packets, ClocksOf(packets), clocks);
  }

  lemma RelievedKeys(t: Table, p: Packet, key: FlowKey, v: Table, packets: seq<Packet>, clocks: set<int>)
    requires WellKept(t, packets, clocks) && Relieved(t, p, key, v)
    ensures v.origins == t.origins && v.maxFlows == t.maxFlows
    ensures key in v.flows <==> key in t.flows
    ensures !Full(t, key) ==> v == t && (key in v.flows || |v.flows| < v.maxFlows)
  {
    WellKeptParts(t, packets, clocks);
    hide WellKept, Sound, Told, Named, Dead;
  }

  lemma OnlyNoted(v: Table, u: Table, s: nat)
    requires u.flows == v.flows
    ensures InTable(u, s) <==> InTable(v, s)
  {
  }

  /** A packet that finds the table full can only be counted to a flow that it opens. */
  lemma FlowForNewcomer(t: Table, v: Table, p: Packet, key: FlowKey, packets: seq<Packet>, clocks: set<int>)
    requires v.origins == t.origins && (key in v.flows <==> key in t.flows)
    ensures Full(t, key) ==> FlowFor(v, p, key).serial == |t.origins|
  {
  }

  /**
   * On every run, whatever the order in which tables are walked: after a packet a flow is in the table if it was
   * before, or is the packet's own, and has no reason to leave; and it leaves for those reasons alone.
   */
  lemma FlowLeavesIff(limit: nat, packets: seq<Packet>, t: Table, p: Packet, u: Table, s: nat)
    requires Reaches(Observing(limit), packets, t) && FlowsReportable(t) && Observed(t, p, u)
    ensures |t.fates| == |packets| && |u.fates| == |packets| + 1 && u.fates[..|packets|] == t.fates
    ensures InTable(u, s) <==> (InTable(t, s) || CountedTo(u.fates[|packets|], s)) && Stays(t, p, u, packets, s)
  {
    hide Reaches, Observing, Observed, Sound, Told, Named, InTable, Stays, FlowsReportable, ClocksOf, Clocked;
    ReachedIsSound(limit, packets, t);
    ReachedIsNamed(limit, packets, t);
    ReachedIsClocked(limit, packets, t);
    StaysIff(t, p, u, packets, s);
    StepClock(t, p, u);
  }
}
