/**
 * The flow table's books (src/engine.rs, `FlowTable`): over any run that ends in a flush, every flow is retired once
 * and every counted byte is reported once, in its own direction.
 */
module FlowTableTheorems {
  import opened Base
  import opened Observations
  import opened FlowTables

  // ------------------------------------------------------------------ the books

  /** What the books add up: bytes away from the client, bytes towards it, and flows reported as finished. */
  datatype Column = OutBytes | InBytes | Ends

  function Amount(o: Observation, c: Column): nat {
    match c
    case OutBytes => if o.Flow? || o.Traffic? then o.bytesOut else 0
    case InBytes => if o.Flow? || o.Traffic? then o.bytesIn else 0
    case Ends => if o.Flow? then 1 else 0
  }

  /** The sum of one column over the reports about one flow. */
  function Ledger(rs: seq<Report>, serial: nat, c: Column): nat {
    if rs == [] then 0
    else
      var r := rs[|rs| - 1];
      Ledger(rs[..|rs| - 1], serial, c) + (if r.serial == serial then Amount(r.o, c) else 0)
  }

  /** Frame bytes of the packets counted to one flow, in one direction. */
  function BytesCounted(fates: seq<Fate>, serial: nat, toServer: bool): nat {
    if fates == [] then 0
    else
      var x := fates[|fates| - 1];
      BytesCounted(fates[..|fates| - 1], serial, toServer) +
      (if x.Counted? && x.serial == serial && x.toServer == toServer then x.bytes else 0)
  }

  /** What the table's entry for a flow says agrees with what was counted and reported. */
  ghost predicate EntryBalanced(t: Table, f: Flow) {
    && f.reportedOut <= f.bytesToServer && f.reportedIn <= f.bytesToClient
    && f.bytesToServer == BytesCounted(t.fates, f.serial, true)
    && f.bytesToClient == BytesCounted(t.fates, f.serial, false)
    && f.reportedOut == Ledger(t.observations, f.serial, OutBytes)
    && f.reportedIn == Ledger(t.observations, f.serial, InBytes)
    && Ledger(t.observations, f.serial, Ends) == 0
  }

  /** A flow that has left was reported as finished once, and in full. */
  ghost predicate SettledInFull(t: Table, serial: nat) {
    && Ledger(t.observations, serial, OutBytes) == BytesCounted(t.fates, serial, true)
    && Ledger(t.observations, serial, InBytes) == BytesCounted(t.fates, serial, false)
    && Ledger(t.observations, serial, Ends) == 1
  }

  ghost predicate NothingYet(t: Table, serial: nat) {
    && Ledger(t.observations, serial, OutBytes) == 0 && Ledger(t.observations, serial, InBytes) == 0
    && BytesCounted(t.fates, serial, true) == 0 && BytesCounted(t.fates, serial, false) == 0
    && Ledger(t.observations, serial, Ends) == 0
  }

  ghost predicate InTable(t: Table, serial: nat) {
    exists k :: k in t.flows && t.flows[k].serial == serial
  }

  ghost predicate EntriesSound(t: Table) {
    && (forall k :: k in t.flows ==>
          && t.flows[k].serial < |t.origins|
          && t.origins[t.flows[k].serial] == Origin(t.flows[k].client, t.flows[k].server)
          && k == KeyOf(t.flows[k].client, t.flows[k].server))
    && (forall j, k :: j in t.flows && k in t.flows && t.flows[j].serial == t.flows[k].serial ==> j == k)
  }

  ghost predicate Balanced(t: Table) {
    && (forall k :: k in t.flows ==> EntryBalanced(t, t.flows[k]))
    && (forall s: nat :: s < |t.origins| && !InTable(t, s) && t.observing ==> SettledInFull(t, s))
    && (forall s: nat :: s >= |t.origins| ==> NothingYet(t, s))
  }

  // ------------------------------------------------------------ retiring flows

  lemma {:induction false} LedgerAdds(a: seq<Report>, b: seq<Report>, serial: nat, c: Column)
    ensures Ledger(a + b, serial, c) == Ledger(a, serial, c) + Ledger(b, serial, c)
  {
    if b == [] {
      assert a + b == a;
    } else {
      assert (a + b)[..|a + b| - 1] == a + b[..|b| - 1];
      LedgerAdds(a, b[..|b| - 1], serial, c);
    }
  }

  lemma ReportsAdd(a: seq<Report>, b: seq<Report>, serial: nat)
    ensures forall c :: Ledger(a + b, serial, c) == Ledger(a, serial, c) + Ledger(b, serial, c)
  {
    forall c
      ensures Ledger(a + b, serial, c) == Ledger(a, serial, c) + Ledger(b, serial, c)
    {
      LedgerAdds(a, b, serial, c);
    }
  }

  /** A walk over departing flows reports nothing of any other flow. */
  lemma {:induction false} NotRetired(more: seq<Report>, gone: map<FlowKey, Flow>, at: Option<int>, serial: nat)
    requires Retirements(more, gone, at)
    requires forall k :: k in gone ==> gone[k].serial != serial
    ensures Ledger(more, serial, OutBytes) == 0 && Ledger(more, serial, InBytes) == 0 && Ledger(more, serial, Ends) == 0
    decreases |more|
  {
    if more != [] {
      var n := |more| - 1;
      var k :| k in gone && more[n] == Retirement(gone[k], if at.Some? then at.value else gone[k].lastSeen)
               && Retirements(more[..n], gone - {k}, at);
      NotRetired(more[..n], gone - {k}, at, serial);
    }
  }

  /** And it reports each departing flow once, with what the flow still owed. */
  lemma {:induction false} RetiredOnce(more: seq<Report>, gone: map<FlowKey, Flow>, at: Option<int>, j: FlowKey)
    requires Retirements(more, gone, at) && j in gone
    requires forall k :: k in gone && gone[k].serial == gone[j].serial ==> k == j
    ensures Ledger(more, gone[j].serial, OutBytes) == Max(gone[j].bytesToServer - gone[j].reportedOut, 0)
    ensures Ledger(more, gone[j].serial, InBytes) == Max(gone[j].bytesToClient - gone[j].reportedIn, 0)
    ensures Ledger(more, gone[j].serial, Ends) == 1
    decreases |more|
  {
    var n := |more| - 1;
    var k :| k in gone && more[n] == Retirement(gone[k], if at.Some? then at.value else gone[k].lastSeen)
             && Retirements(more[..n], gone - {k}, at);
    if k == j {
      NotRetired(more[..n], gone - {k}, at, gone[j].serial);
    } else {
      RetiredOnce(more[..n], gone - {k}, at, j);
    }
  }

  /** Part of the table leaves and is reported: the books stay balanced. */
  lemma RetiringBalances(t: Table, gone: map<FlowKey, Flow>, more: seq<Report>, at: Option<int>, u: Table)
    requires EntriesSound(t) && Balanced(t)
    requires forall k :: k in gone ==> k in t.flows && gone[k] == t.flows[k]
    requires if t.observing then Retirements(more, gone, at) else more == []
    requires u.flows == t.flows - gone.Keys && u.observations == t.observations + more
    requires u.observing == t.observing && u.origins == t.origins && u.fates == t.fates
    ensures EntriesSound(u) && Balanced(u)
  {
    forall k | k in u.flows
      ensures EntryBalanced(u, u.flows[k])
    {
      RetiringKeepsEntry(t, gone, more, at, u, k);
    }
    forall s: nat | s < |u.origins| && !InTable(u, s) && u.observing
      ensures SettledInFull(u, s)
    {
      RetiringSettles(t, gone, more, at, u, s);
    }
    forall s: nat | s >= |u.origins|
      ensures NothingYet(u, s)
    {
      assert NothingYet(t, s);
      ReportsAdd(t.observations, more, s);
      if t.observing {
        NotRetired(more, gone, at, s);
      }
    }
  }

  lemma InTableBy(t: Table, k: FlowKey)
    requires k in t.flows
    ensures InTable(t, t.flows[k].serial)
  {
  }

  lemma RetiringKeepsEntry(t: Table, gone: map<FlowKey, Flow>, more: seq<Report>, at: Option<int>, u: Table, k: FlowKey)
    requires EntriesSound(t) && k in t.flows && k !in gone && EntryBalanced(t, t.flows[k])
    requires forall j :: j in gone ==> j in t.flows && gone[j] == t.flows[j]
    requires if t.observing then Retirements(more, gone, at) else more == []
    requires u.observations == t.observations + more && u.fates == t.fates
    ensures EntryBalanced(u, t.flows[k])
  {
    hide Ledger, BytesCounted, Retirements;
    ReportsAdd(t.observations, more, t.flows[k].serial);
    if t.observing {
      NotRetired(more, gone, at, t.flows[k].serial);
    } else {
      assert t.observations + [] == t.observations;
    }
  }

  lemma NotInTable(t: Table, gone: map<FlowKey, Flow>, s: nat)
    requires !InTable(t, s) && forall k :: k in gone ==> k in t.flows && gone[k] == t.flows[k]
    ensures forall k :: k in gone ==> gone[k].serial != s
  {
  }

  lemma RetiringSettles(t: Table, gone: map<FlowKey, Flow>, more: seq<Report>, at: Option<int>, u: Table, s: nat)
    requires EntriesSound(t) && Balanced(t)
    requires forall k :: k in gone ==> k in t.flows && gone[k] == t.flows[k]
    requires t.observing && Retirements(more, gone, at)
    requires u.flows == t.flows - gone.Keys && u.observations == t.observations + more && u.fates == t.fates
    requires s < |t.origins| && !InTable(u, s)
    ensures SettledInFull(u, s)
  {
    hide EntriesSound, Balanced, InTable, Retirements, Ledger, BytesCounted;
    if InTable(t, s) {
      var k := GoneWith(t, gone, u, s);
      GoneSettles(t, gone, more, at, u, k);
    } else {
      OutsideIsSettled(t, s);
      NotInTable(t, gone, s);
      ReportsAdd(t.observations, more, s);
      NotRetired(more, gone, at, s);
    }
  }

  lemma OutsideIsSettled(t: Table, s: nat)
    requires Balanced(t) && t.observing && s < |t.origins| && !InTable(t, s)
    ensures SettledInFull(t, s)
  {
  }

  lemma GoneSettles(t: Table, gone: map<FlowKey, Flow>, more: seq<Report>, at: Option<int>, u: Table, k: FlowKey)
    requires Retirements(more, gone, at) && u.observations == t.observations + more && u.fates == t.fates
    requires k in gone && EntryBalanced(t, gone[k])
    requires forall j :: j in gone && gone[j].serial == gone[k].serial ==> j == k
    ensures SettledInFull(u, gone[k].serial)
  {
    hide Retirements, Ledger, BytesCounted;
    ReportsAdd(t.observations, more, gone[k].serial);
    RetiredOnce(more, gone, at, k);
  }

  lemma GoneWith(t: Table, gone: map<FlowKey, Flow>, u: Table, s: nat) returns (k: FlowKey)
    requires EntriesSound(t) && Balanced(t) && InTable(t, s) && !InTable(u, s)
    requires u.flows == t.flows - gone.Keys && forall j :: j in gone ==> j in t.flows && gone[j] == t.flows[j]
    ensures k in gone && gone[k].serial == s && EntryBalanced(t, gone[k])
    ensures forall j :: j in gone && gone[j].serial == s ==> j == k
  {
    k :| k in t.flows && t.flows[k].serial == s;
    if k in u.flows {
      InTableBy(u, k);
    }
    hide EntryBalanced;
  }

  lemma ExpiredBalances(t: Table, now: int, idle: int, u: Table)
    requires EntriesSound(t) && Balanced(t) && Expired(t, now, idle, u)
    ensures EntriesSound(u) && Balanced(u)
    ensures |u.flows| <= |t.flows| && u.flows.Keys <= t.flows.Keys
    ensures forall k :: k in u.flows ==> u.flows[k] == t.flows[k]
    ensures u == t.(flows := u.flows, observations := u.observations)
  {
    hide Balanced, EntriesSound, Dead;
    var more :| && u == t.(flows := Survivors(t.flows, now, idle), observations := t.observations + more)
                && if t.observing then Retirements(more, Departed(t.flows, now, idle), Some(now)) else more == [];
    var gone := Departed(t.flows, now, idle);
    assert u.flows == t.flows - gone.Keys;
    RetiringBalances(t, gone, more, Some(now), u);
    SubmapIsNoLarger(u.flows, t.flows);
  }

  lemma SubmapIsNoLarger(a: map<FlowKey, Flow>, b: map<FlowKey, Flow>)
    requires a.Keys <= b.Keys
    ensures |a| <= |b|
  {
    var rest := b.Keys - a.Keys;
    assert b.Keys == a.Keys + rest && |b.Keys| == |a.Keys| + |rest|;
  }

  // ------------------------------------------------------------ counting a packet

  /** Nothing counted or reported of this flow in between. */
  ghost predicate SameBooks(t: Table, u: Table, s: nat) {
    && Ledger(u.observations, s, OutBytes) == Ledger(t.observations, s, OutBytes)
    && Ledger(u.observations, s, InBytes) == Ledger(t.observations, s, InBytes)
    && Ledger(u.observations, s, Ends) == Ledger(t.observations, s, Ends)
    && BytesCounted(u.fates, s, true) == BytesCounted(t.fates, s, true)
    && BytesCounted(u.fates, s, false) == BytesCounted(t.fates, s, false)
  }

  lemma TakenLeavesOthers(t: Table, p: Packet, key: FlowKey, s: nat)
    requires FlowsReportable(t) && s != FlowFor(t, p, key).serial
    ensures SameBooks(t, Taken(t, p, key), s)
  {
    hide Interim, Ledger;
    var f := FlowFor(t, p, key);
    InterimReports(Tallied(f, p), p.now, s);
    ReportsAdd(t.observations, Interim(Tallied(f, p), p.now), s);
    var u := Taken(t, p, key);
    assert u.fates[..|u.fates| - 1] == t.fates;
  }

  lemma InterimReports(g: Flow, now: int, s: nat)
    requires g.reportedOut <= g.bytesToServer && g.reportedIn <= g.bytesToClient
    ensures var due := s == g.serial && ReportDue(g, now);
            && Ledger(Interim(g, now), s, OutBytes) == (if due then g.bytesToServer - g.reportedOut else 0)
            && Ledger(Interim(g, now), s, InBytes) == (if due then g.bytesToClient - g.reportedIn else 0)
            && Ledger(Interim(g, now), s, Ends) == 0
  {
    if Interim(g, now) != [] {
      assert Interim(g, now)[..0] == [];
    }
  }

  lemma TakenReports(t: Table, p: Packet, key: FlowKey)
    requires FlowsReportable(t)
    ensures var f := FlowFor(t, p, key); var g := Tallied(f, p); var u := Taken(t, p, key);
      var due := ReportDue(g, p.now);
            && Ledger(u.observations, f.serial, OutBytes) ==
               Ledger(t.observations, f.serial, OutBytes) + (if due then g.bytesToServer - g.reportedOut else 0)
            && Ledger(u.observations, f.serial, InBytes) ==
               Ledger(t.observations, f.serial, InBytes) + (if due then g.bytesToClient - g.reportedIn else 0)
            && Ledger(u.observations, f.serial, Ends) == Ledger(t.observations, f.serial, Ends)
  {
    var f := FlowFor(t, p, key);
    InterimReports(Tallied(f, p), p.now, f.serial);
    ReportsAdd(t.observations, Interim(Tallied(f, p), p.now), f.serial);
    hide Ledger, Interim;
  }

  lemma TakenCounts(t: Table, p: Packet, key: FlowKey, toServer: bool)
    requires FlowsReportable(t)
    ensures var f := FlowFor(t, p, key);
            BytesCounted(Taken(t, p, key).fates, f.serial, toServer) ==
            BytesCounted(t.fates, f.serial, toServer) + (if toServer == ToServer(f, p) then p.frameLen else 0)
  {
    var u := Taken(t, p, key);
    assert u.fates[..|u.fates| - 1] == t.fates;
  }

  lemma TakenBalancesEntry(t: Table, p: Packet, key: FlowKey)
    requires FlowsReportable(t)
    requires var f := FlowFor(t, p, key); EntryBalanced(t, f)
    ensures EntryBalanced(Taken(t, p, key), Taken(t, p, key).flows[key])
  {
    hide Ledger, BytesCounted, Interim;
    TakenReports(t, p, key);
    TakenCounts(t, p, key, true);
    TakenCounts(t, p, key, false);
  }

  lemma TakenSound(t: Table, p: Packet, key: FlowKey)
    requires EntriesSound(t) && FlowsReportable(t) && key == KeyOf(p.src, p.dst)
    ensures EntriesSound(Taken(t, p, key))
  {
    hide KeyOf, FlowsReportable, Interim, Tallied, Reported, Flagged, NewFlow;
    TakenKeepsEnds(t, p, key);
  }

  /** Counting a packet leaves a flow its number and its ends. */
  lemma TakenKeepsEnds(t: Table, p: Packet, key: FlowKey)
    requires FlowsReportable(t)
    ensures var f, g := FlowFor(t, p, key), Taken(t, p, key).flows[key];
      && g.serial == f.serial && g.client == f.client && g.server == f.server
      && (key !in t.flows ==> f.serial == |t.origins| && f.client == p.src && f.server == p.dst)
  {
    hide FlowsReportable, Interim;
  }

  lemma TakenBalances(t: Table, p: Packet, key: FlowKey)
    requires EntriesSound(t) && Balanced(t) && FlowsReportable(t) && key == KeyOf(p.src, p.dst)
    ensures EntriesSound(Taken(t, p, key)) && Balanced(Taken(t, p, key))
  {
    TakenSound(t, p, key);
    TakenShape(t, p, key);
    hide EntriesSound, Balanced, EntryBalanced, SettledInFull, NothingYet, InTable, SameBooks, Taken, FlowFor, KeyOf;
    var u := Taken(t, p, key);
    forall k | k in u.flows
      ensures EntryBalanced(u, u.flows[k])
    {
      TakenEntry(t, p, key, k);
    }
    forall s: nat | s < |u.origins| && !InTable(u, s) && u.observing
      ensures SettledInFull(u, s)
    {
      TakenOutside(t, p, key, s);
      OutsideIsSettled(t, s);
      TakenLeavesOthers(t, p, key, s);
      SameBooksKeep(t, u, s);
    }
    forall s: nat | s >= |u.origins|
      ensures NothingYet(u, s)
    {
      TakenLeavesUncreated(t, p, key, s);
    }
    AllBalanced(u);
  }

  lemma AllBalanced(u: Table)
    requires forall k :: k in u.flows ==> EntryBalanced(u, u.flows[k])
    requires forall s: nat :: s < |u.origins| && !InTable(u, s) && u.observing ==> SettledInFull(u, s)
    requires forall s: nat :: s >= |u.origins| ==> NothingYet(u, s)
    ensures Balanced(u)
  {
    hide EntryBalanced, SettledInFull, NothingYet, InTable;
  }

  lemma SameBooksKeep(t: Table, u: Table, s: nat)
    requires SameBooks(t, u, s)
    ensures SettledInFull(t, s) ==> SettledInFull(u, s)
    ensures NothingYet(t, s) ==> NothingYet(u, s)
  {
  }

  lemma TakenShape(t: Table, p: Packet, key: FlowKey)
    requires FlowsReportable(t)
    ensures var u := Taken(t, p, key);
            && key in u.flows && u.flows[key].serial == FlowFor(t, p, key).serial &&
              u.flows == t.flows[key := u.flows[key]]
            && u.observing == t.observing && |t.origins| <= |u.origins|
  {
    hide Interim;
  }

  lemma TakenLeavesUncreated(t: Table, p: Packet, key: FlowKey, s: nat)
    requires EntriesSound(t) && Balanced(t) && FlowsReportable(t) && s >= |Taken(t, p, key).origins|
    ensures NothingYet(Taken(t, p, key), s)
  {
    assert NothingYet(t, s);
    hide Ledger, BytesCounted, Interim, EntryBalanced, Balanced;
    TakenLeavesOthers(t, p, key, s);
  }

  lemma TakenEntry(t: Table, p: Packet, key: FlowKey, k: FlowKey)
    requires EntriesSound(t) && Balanced(t) && FlowsReportable(t) && (k == key || k in t.flows)
    ensures EntryBalanced(Taken(t, p, key), Taken(t, p, key).flows[k])
  {
    hide Ledger, BytesCounted, Interim, Tallied, Reported, Flagged;
    if k == key {
      if key !in t.flows {
        assert NothingYet(t, |t.origins|);
      }
      TakenBalancesEntry(t, p, key);
    } else {
      assert EntryBalanced(t, t.flows[k]);
      TakenLeavesOthers(t, p, key, t.flows[k].serial);
    }
  }

  lemma TakenOutside(t: Table, p: Packet, key: FlowKey, s: nat)
    requires EntriesSound(t) && FlowsReportable(t)
    requires s < |Taken(t, p, key).origins| && !InTable(Taken(t, p, key), s)
    ensures s < |t.origins| && !InTable(t, s) && s != FlowFor(t, p, key).serial
  {
    var u := Taken(t, p, key);
    assert key in u.flows && u.flows[key].serial == FlowFor(t, p, key).serial;
    if InTable(t, s) {
      var k :| k in t.flows && t.flows[k].serial == s;
      InTableBy(u, k);
    }
  }

  /** Closing a finished flow is retiring that flow alone. */
  lemma ClosedRetires(t: Table, key: FlowKey, now: int) returns (gone: map<FlowKey, Flow>, more: seq<Report>)
    requires key in t.flows && t.flows[key].closed
    ensures gone == map[key := t.flows[key]]
    ensures if t.observing then Retirements(more, gone, Some(now)) else more == []
    ensures var u := Closed(t, key, now);
            && u.flows == t.flows - gone.Keys && u.observations == t.observations + more
            && u == t.(flows := u.flows, observations := u.observations)
  {
    gone := map[key := t.flows[key]];
    more := if t.observing then [Retirement(t.flows[key], now)] else [];
    if t.observing {
      assert more[..0] == [] && gone - {key} == map[];
      assert Retirements(more[..0], gone - {key}, Some(now));
    }
    assert t.flows - gone.Keys == t.flows - {key};
  }

  lemma ClosedBalances(t: Table, key: FlowKey, now: int)
    requires EntriesSound(t) && Balanced(t) && key in t.flows
    ensures EntriesSound(Closed(t, key, now)) && Balanced(Closed(t, key, now))
  {
    hide EntriesSound, Balanced, Retirements;
    if t.flows[key].closed {
      var gone, more := ClosedRetires(t, key, now);
      hide Closed;
      RetiringBalances(t, gone, more, Some(now), Closed(t, key, now));
    }
  }

  // ---------------------------------------------------------------- a whole step

  function RefusedCount(fates: seq<Fate>): nat {
    if fates == [] then 0 else RefusedCount(fates[..|fates| - 1]) + (if fates[|fates| - 1].Refused? then 1 else 0)
  }

  /**
   * A packet counted to a flow runs between its ends, with its frame bytes, towards the server when the client sent
   * it.
   */
  predicate CountedRightly(x: Fate, p: Packet, origins: seq<Origin>) {
    x.Counted? ==>
      && x.serial < |origins|
      && x.bytes == p.frameLen
      && x.toServer == (p.src == origins[x.serial].client)
      && KeyOf(p.src, p.dst) == KeyOf(origins[x.serial].client, origins[x.serial].server)
  }

  /** Every packet so far has its one entry, and refusals are what the counter says. */
  ghost predicate Journal(fates: seq<Fate>, packets: seq<Packet>, origins: seq<Origin>, refused: nat) {
    && |fates| == |packets|
    && refused == RefusedCount(fates)
    && forall i :: 0 <= i < |fates| ==> CountedRightly(fates[i], packets[i], origins)
  }

  lemma JournalGrows(
    fates: seq<Fate>, packets: seq<Packet>, origins: seq<Origin>, refused: nat, x: Fate, p: Packet, more: seq<Origin>)
    requires Journal(fates, packets, origins, refused) && CountedRightly(x, p, origins + more)
    ensures Journal(fates + [x], packets + [p], origins + more, refused + (if x.Refused? then 1 else 0))
  {
    hide KeyOf;
    assert (fates + [x])[..|fates|] == fates;
  }

  lemma NotedBalances(t: Table, x: Fate, refused: nat)
    requires EntriesSound(t) && Balanced(t) && !x.Counted?
    ensures var u := t.(fates := t.fates + [x], refused := refused); EntriesSound(u) && Balanced(u)
  {
    var u := t.(fates := t.fates + [x], refused := refused);
    forall s: nat
      ensures SameBooks(t, u, s) && InTable(u, s) == InTable(t, s)
    {
      assert u.fates[..|u.fates| - 1] == t.fates;
    }
    forall k | k in u.flows
      ensures EntryBalanced(u, u.flows[k])
    {
      assert SameBooks(t, u, t.flows[k].serial);
    }
    forall s: nat | s < |u.origins| && !InTable(u, s) && u.observing
      ensures SettledInFull(u, s)
    {
      assert SameBooks(t, u, s);
    }
    forall s: nat | s >= |u.origins|
      ensures NothingYet(u, s)
    {
      assert SameBooks(t, u, s) && NothingYet(t, s);
    }
  }

  /** A table whose books balance, with room for one more packet to be taken or turned away. */
  ghost predicate Sound(t: Table, packets: seq<Packet>) {
    && |t.flows| <= t.maxFlows
    && EntriesSound(t) && Balanced(t)
    && (forall k :: k in t.flows ==> !t.flows[k].closed)
    && Journal(t.fates, packets, t.origins, t.refused)
  }

  lemma SoundIsReportable(t: Table, packets: seq<Packet>)
    requires Sound(t, packets)
    ensures FlowsReportable(t)
  {
    forall k | k in t.flows
      ensures t.flows[k].reportedOut <= t.flows[k].bytesToServer && t.flows[k].reportedIn <= t.flows[k].bytesToClient
    {
      assert EntryBalanced(t, t.flows[k]);
    }
  }

  lemma ExpiredIsSound(t: Table, now: int, idle: int, u: Table, packets: seq<Packet>)
    requires Sound(t, packets) && Expired(t, now, idle, u)
    ensures Sound(u, packets) && |u.flows| <= |t.flows| && u == t.(flows := u.flows, observations := u.observations)
    ensures u.flows.Keys <= t.flows.Keys
  {
    hide EntriesSound, Balanced, Journal;
    ExpiredBalances(t, now, idle, u);
    hide Expired;
  }

  lemma KeyIsTaken(t: Table, p: Packet, key: FlowKey)
    requires FlowsReportable(t)
    ensures key in Taken(t, p, key).flows
  {
    hide FlowsReportable;
  }

  lemma TakenIsSound(t: Table, p: Packet, key: FlowKey, packets: seq<Packet>)
    requires Sound(t, packets) && FlowsReportable(t) && key == KeyOf(p.src, p.dst)
    requires key in t.flows || |t.flows| < t.maxFlows
    ensures Sound(Accepted(t, p, key), packets + [p]) && Accepted(t, p, key).observing == t.observing
    ensures Accepted(t, p, key).maxFlows == t.maxFlows
  {
    hide EntriesSound, Balanced, Journal, Taken, Accepted, Closed, KeyOf, FlowsReportable;
    TakenBalances(t, p, key);
    KeyIsTaken(t, p, key);
    ClosedBalances(Taken(t, p, key), key, p.now);
    TakenJournal(t, p, key, packets);
    AcceptedShape(t, p, key);
    ClosedKeepsJournal(Taken(t, p, key), key, p.now);
  }

  lemma ClosedKeepsJournal(t: Table, key: FlowKey, now: int)
    requires key in t.flows
    ensures var u := Closed(t, key, now);
      u.fates == t.fates && u.origins == t.origins && u.refused == t.refused && u.maxFlows == t.maxFlows
  {
  }

  lemma AcceptedShape(t: Table, p: Packet, key: FlowKey)
    requires FlowsReportable(t) && |t.flows| <= t.maxFlows && (forall k :: k in t.flows ==> !t.flows[k].closed)
    requires key in t.flows || |t.flows| < t.maxFlows
    ensures var v := Accepted(t, p, key);
            && v == Closed(Taken(t, p, key), key, p.now)
            && |v.flows| <= t.maxFlows && (forall k :: k in v.flows ==> !v.flows[k].closed)
            && v.observing == t.observing && v.maxFlows == t.maxFlows
            && Taken(t, p, key).maxFlows == t.maxFlows && Taken(t, p, key).refused == t.refused
  {
    var u := Taken(t, p, key);
    var v := Closed(u, key, p.now);
    assert u.flows.Keys == t.flows.Keys + {key};
    hide Interim, Retirement, Tallied, Reported, Flagged;
    SubmapIsNoLarger(v.flows, u.flows);
  }

  lemma TakenJournal(t: Table, p: Packet, key: FlowKey, packets: seq<Packet>)
    requires EntriesSound(t) && FlowsReportable(t) && Journal(t.fates, packets, t.origins, t.refused) &&
      key == KeyOf(p.src, p.dst)
    ensures var u := Taken(t, p, key); Journal(u.fates, packets + [p], u.origins, t.refused)
  {
    var f := FlowFor(t, p, key);
    var x := Counted(f.serial, ToServer(f, p), p.frameLen);
    var more := if key in t.flows then [] else [Origin(p.src, p.dst)];
    hide KeyOf, Journal;
    assert t.origins + [] == t.origins;
    JournalGrows(t.fates, packets, t.origins, t.refused, x, p, more);
  }

  lemma SweptIsSound(t: Table, now: int, u: Table, packets: seq<Packet>)
    requires Sound(t, packets) && Swept(t, now, u)
    ensures Sound(u, packets) && u.observing == t.observing && u.maxFlows == t.maxFlows
  {
    if SweepDue(t, now) {
      var v := t.(sinceSweep := 0, lastSweptAt := now);
      ClockIsIrrelevant(t, v, packets);
      ExpiredIsSound(v, now, FLOW_IDLE_TIMEOUT_SECS, u, packets);
    } else {
      ClockIsIrrelevant(t, u, packets);
    }
  }

  lemma ClockIsIrrelevant(t: Table, u: Table, packets: seq<Packet>)
    requires Sound(t, packets) && u == t.(sinceSweep := u.sinceSweep, lastSweptAt := u.lastSweptAt)
    ensures Sound(u, packets)
  {
    forall k | k in u.flows
      ensures EntryBalanced(u, u.flows[k])
    {
      assert EntryBalanced(t, t.flows[k]);
    }
    forall s: nat
      ensures InTable(t, s) == InTable(u, s) && SettledInFull(t, s) == SettledInFull(u, s) &&
        NothingYet(t, s) == NothingYet(u, s)
    {
    }
  }

  /** The table in the middle of a step, after any pressure expiry. */
  lemma ObservedThrough(t: Table, p: Packet, key: FlowKey, u: Table) returns (v: Table)
    requires FlowsReportable(t) && Observed(t, p, u) && key == KeyOf(p.src, p.dst)
    ensures Relieved(t, p, key, v) && FlowsReportable(v)
    ensures if Full(t, key) && |v.flows| >= v.maxFlows then
              u == v.(refused := v.refused + 1, fates := v.fates + [Refused])
            else if Bare(v, p, key) then
              u == v.(fates := v.fates + [Ignored])
            else
              Swept(Accepted(v, p, key), p.now, u)
  {
    hide Relieved, Swept, Accepted, FlowsReportable, KeyOf;
    v :| && Relieved(t, p, key, v) && FlowsReportable(v)
         && if Full(t, key) && |v.flows| >= v.maxFlows then
              u == v.(refused := v.refused + 1, fates := v.fates + [Refused])
            else if Bare(v, p, key) then
              u == v.(fates := v.fates + [Ignored])
            else
              Swept(Accepted(v, p, key), p.now, u);
  }

  /** Every packet keeps the table sound: within its size, with nothing closed left in, and with balanced books. */
  lemma ObservedIsSound(t: Table, p: Packet, u: Table, packets: seq<Packet>)
    requires Sound(t, packets) && FlowsReportable(t) && Observed(t, p, u)
    ensures Sound(u, packets + [p]) && u.observing == t.observing && u.maxFlows == t.maxFlows
  {
    hide Sound, Expired, Accepted, Swept, KeyOf;
    var key := KeyOf(p.src, p.dst);
    var v := ObservedThrough(t, p, key, u);
    RelievedIsSound(t, p, key, v, packets);
    if Full(t, key) && |v.flows| >= v.maxFlows {
      TurnedAwayIsSound(v, p, Refused, v.refused + 1, packets);
    } else if Bare(v, p, key) {
      TurnedAwayIsSound(v, p, Ignored, v.refused, packets);
    } else {
      TakenIsSound(v, p, key, packets);
      SweptIsSound(Accepted(v, p, key), p.now, u, packets + [p]);
    }
  }

  lemma RelievedIsSound(t: Table, p: Packet, key: FlowKey, v: Table, packets: seq<Packet>)
    requires Sound(t, packets) && Relieved(t, p, key, v)
    ensures Sound(v, packets) && v.maxFlows == t.maxFlows && v.observing == t.observing
    ensures Full(t, key) ==> key !in v.flows
  {
    if Full(t, key) {
      ExpiredIsSound(t, p.now, FLOW_PRESSURE_IDLE_SECS, v, packets);
    }
  }

  lemma TurnedAwayIsSound(t: Table, p: Packet, x: Fate, refused: nat, packets: seq<Packet>)
    requires Sound(t, packets) && !x.Counted? && refused == t.refused + (if x.Refused? then 1 else 0)
    ensures Sound(t.(refused := refused, fates := t.fates + [x]), packets + [p])
  {
    NotedBalances(t, x, refused);
    assert t.origins + [] == t.origins;
    JournalGrows(t.fates, packets, t.origins, t.refused, x, p, []);
    hide EntriesSound, Balanced, Journal;
  }

  /** When the table is flushed, every flow ever created has been retired once, and all its bytes are reported. */
  lemma FlushedIsSettled(t: Table, u: Table, packets: seq<Packet>)
    requires Sound(t, packets) && Flushed(t, u)
    ensures Journal(u.fates, packets, u.origins, u.refused) && u.observing == t.observing
    ensures forall s: nat :: s >= |u.origins| ==> NothingYet(u, s)
    ensures u.observing ==> forall s: nat :: s < |u.origins| ==> SettledInFull(u, s)
  {
    var more :| && u == t.(flows := map[], observations := t.observations + more)
                && if t.observing then Retirements(more, t.flows, None) else more == [];
    assert u.flows == t.flows - t.flows.Keys;
    RetiringBalances(t, t.flows, more, None, u);
    forall s: nat | s < |u.origins| && u.observing
      ensures SettledInFull(u, s)
    {
      assert !InTable(u, s);
    }
  }

  // ------------------------------------------------------- what the records tell

  /** What a counted packet can show of its flow. */
  datatype Sign = Reply | FinFromClient | FinFromServer | Reset

  predicate Shows(x: Fate, p: Packet, serial: nat, w: Sign) {
    && x.Counted? && x.serial == serial
    && match w
       case Reply => !x.toServer
       case FinFromClient => x.toServer && p.fin
       case FinFromServer => !x.toServer && p.fin
       case Reset => p.rst
  }

  /** Some packet counted to the flow showed it. */
  ghost predicate Seen(fates: seq<Fate>, packets: seq<Packet>, serial: nat, w: Sign) {
    exists i :: 0 <= i < |fates| && i < |packets| && Shows(fates[i], packets[i], serial, w)
  }

  lemma SeenGrows(fates: seq<Fate>, packets: seq<Packet>, x: Fate, p: Packet, serial: nat, w: Sign)
    requires |fates| == |packets|
    ensures Seen(fates + [x], packets + [p], serial, w) <==> Seen(fates, packets, serial, w) || Shows(x, p, serial, w)
  {
    hide Shows;
    var n := |fates|;
    if Shows(x, p, serial, w) {
      assert Shows((fates + [x])[n], (packets + [p])[n], serial, w);
    }
    if Seen(fates, packets, serial, w) {
      var i :| 0 <= i < |fates| && Shows(fates[i], packets[i], serial, w);
      assert Shows((fates + [x])[i], (packets + [p])[i], serial, w);
    }
  }

  /** An entry says of its flow exactly what its packets showed, and stays only while it is unfinished. */
  ghost predicate EntryTells(f: Flow, fates: seq<Fate>, packets: seq<Packet>) {
    && (Answered(f) <==> Seen(fates, packets, f.serial, Reply))
    && (f.finToServer <==> Seen(fates, packets, f.serial, FinFromClient))
    && (f.finToClient <==> Seen(fates, packets, f.serial, FinFromServer))
    && (f.reset <==> Seen(fates, packets, f.serial, Reset))
    && (f.closed <==> f.reset || (f.finToServer && f.finToClient))
  }

  /** A finished flow was reported as answered exactly when something had come back. */
  ghost predicate ReportTells(r: Report, fates: seq<Fate>, packets: seq<Packet>) {
    r.o.Flow? ==> (r.o.answered <==> Seen(fates, packets, r.serial, Reply))
  }

  ghost predicate Departures(t: Table) {
    forall i :: 0 <= i < |t.observations| && t.observations[i].o.Flow? ==>
      t.observations[i].serial < |t.origins| && !InTable(t, t.observations[i].serial)
  }

  ghost predicate Told(t: Table, packets: seq<Packet>) {
    && |t.fates| == |packets|
    && (forall k :: k in t.flows ==> EntryTells(t.flows[k], t.fates, packets))
    && (forall i :: 0 <= i < |t.observations| ==> ReportTells(t.observations[i], t.fates, packets))
    && Departures(t)
  }

  /** Each report of a walk is the retirement of some departing flow. */
  lemma {:induction false} RetirementOf(more: seq<Report>, gone: map<FlowKey, Flow>, at: Option<int>, i: nat)
    requires Retirements(more, gone, at) && i < |more|
    ensures exists k :: k in gone && more[i] == Retirement(gone[k], if at.Some? then at.value else gone[k].lastSeen)
    decreases |more|
  {
    hide Retirement;
    var n := |more| - 1;
    var k :| k in gone && more[n] == Retirement(gone[k], if at.Some? then at.value else gone[k].lastSeen)
             && Retirements(more[..n], gone - {k}, at);
    if i < n {
      RetirementOf(more[..n], gone - {k}, at, i);
      var j :| j in gone - {k} && more[..n][i] ==
        Retirement((gone - {k})[j], if at.Some? then at.value else (gone - {k})[j].lastSeen);
      assert more[i] == Retirement(gone[j], if at.Some? then at.value else gone[j].lastSeen);
    }
  }

  lemma StaysAway(t: Table, u: Table)
    requires u.flows.Keys <= t.flows.Keys && forall k :: k in u.flows ==> u.flows[k] == t.flows[k]
    ensures forall s: nat :: InTable(u, s) ==> InTable(t, s)
  {
  }

  lemma RetiringTells(t: Table, gone: map<FlowKey, Flow>, more: seq<Report>, at: Option<int>, u: Table,
      packets: seq<Packet>)
    requires EntriesSound(t) && Told(t, packets)
    requires forall k :: k in gone ==> k in t.flows && gone[k] == t.flows[k]
    requires if t.observing then Retirements(more, gone, at) else more == []
    requires u.flows == t.flows - gone.Keys && u.observations == t.observations + more
    requires u.origins == t.origins && u.fates == t.fates
    ensures Told(u, packets)
  {
    hide EntriesSound, InTable, Seen, Retirements;
    StaysAway(t, u);
    forall i | 0 <= i < |u.observations|
      ensures ReportTells(u.observations[i], u.fates, packets)
      ensures u.observations[i].o.Flow? ==>
        u.observations[i].serial < |u.origins| && !InTable(u, u.observations[i].serial)
    {
      var r := u.observations[i];
      if i < |t.observations| {
        assert r == t.observations[i] && ReportTells(r, t.fates, packets);
      } else {
        RetirementOf(more, gone, at, i - |t.observations|);
        var k :| k in gone && r == Retirement(gone[k], if at.Some? then at.value else gone[k].lastSeen);
        LeavesForGood(t, gone, u, k);
        assert EntryTells(t.flows[k], t.fates, packets);
      }
    }
  }

  lemma LeavesForGood(t: Table, gone: map<FlowKey, Flow>, u: Table, k: FlowKey)
    requires EntriesSound(t) && k in gone && k in t.flows && gone[k] == t.flows[k] && u.flows == t.flows - gone.Keys
    ensures gone[k].serial < |t.origins| && !InTable(u, gone[k].serial)
  {
  }

  lemma ExpiredTells(t: Table, now: int, idle: int, u: Table, packets: seq<Packet>)
    requires EntriesSound(t) && Told(t, packets) && Expired(t, now, idle, u)
    ensures Told(u, packets)
  {
    hide Told, EntriesSound, Dead;
    var more :| && u == t.(flows := Survivors(t.flows, now, idle), observations := t.observations + more)
                && if t.observing then Retirements(more, Departed(t.flows, now, idle), Some(now)) else more == [];
    var gone := Departed(t.flows, now, idle);
    assert u.flows == t.flows - gone.Keys;
    RetiringTells(t, gone, more, Some(now), u, packets);
  }

  /** Nothing has been counted to a flow that does not exist yet. */
  lemma NothingSeen(fates: seq<Fate>, packets: seq<Packet>, origins: seq<Origin>, refused: nat)
    requires Journal(fates, packets, origins, refused)
    ensures forall w :: !Seen(fates, packets, |origins|, w)
  {
    forall i | 0 <= i < |fates|
      ensures fates[i].Counted? ==> fates[i].serial < |origins|
    {
      assert CountedRightly(fates[i], packets[i], origins);
    }
  }

  lemma TakenEntryTells(t: Table, p: Packet, key: FlowKey, packets: seq<Packet>)
    requires FlowsReportable(t) && |t.fates| == |packets|
    requires EntryTells(FlowFor(t, p, key), t.fates, packets)
    ensures EntryTells(Taken(t, p, key).flows[key], Taken(t, p, key).fates, packets + [p])
  {
    hide Seen, Interim, FlowsReportable;
    var f := FlowFor(t, p, key);
    var x := Counted(f.serial, ToServer(f, p), p.frameLen);
    SeenGrows(t.fates, packets, x, p, f.serial, Reply);
    SeenGrows(t.fates, packets, x, p, f.serial, FinFromClient);
    SeenGrows(t.fates, packets, x, p, f.serial, FinFromServer);
    SeenGrows(t.fates, packets, x, p, f.serial, Reset);
  }

  /** One more entry in the journal leaves what was told of every other flow alone. */
  lemma OthersStillTell(fates: seq<Fate>, packets: seq<Packet>, x: Fate, p: Packet, f: Flow, r: Report)
    requires |fates| == |packets|
    ensures (x.Counted? ==> x.serial != f.serial) && EntryTells(f, fates, packets) ==>
      EntryTells(f, fates + [x], packets + [p])
    ensures (x.Counted? ==> x.serial != r.serial) && ReportTells(r, fates, packets) ==>
      ReportTells(r, fates + [x], packets + [p])
  {
    SeenGrows(fates, packets, x, p, f.serial, Reply);
    SeenGrows(fates, packets, x, p, f.serial, FinFromClient);
    SeenGrows(fates, packets, x, p, f.serial, FinFromServer);
    SeenGrows(fates, packets, x, p, f.serial, Reset);
    SeenGrows(fates, packets, x, p, r.serial, Reply);
    hide Seen;
  }

  /** The flow a packet is counted to tells the truth, as an entry or as a new flow of which nothing was seen. */
  lemma FlowTells(t: Table, p: Packet, key: FlowKey, packets: seq<Packet>)
    requires Sound(t, packets) && Told(t, packets)
    ensures EntryTells(FlowFor(t, p, key), t.fates, packets)
  {
    hide Balanced, Journal, Seen, ReportTells, Departures;
    if key !in t.flows {
      NothingSeen(t.fates, packets, t.origins, t.refused);
    }
  }

  lemma TakenTells(t: Table, p: Packet, key: FlowKey, packets: seq<Packet>)
    requires Sound(t, packets) && Told(t, packets) && FlowsReportable(t)
    ensures Told(Taken(t, p, key), packets + [p])
  {
    hide Balanced, Journal, Shows, Seen, Interim, Tallied, Reported, Flagged, EntryTells, ReportTells, Departures;
    var f := FlowFor(t, p, key);
    var u := Taken(t, p, key);
    var x := Counted(f.serial, ToServer(f, p), p.frameLen);
    FlowTells(t, p, key, packets);
    TakenEntryTells(t, p, key, packets);
    forall k | k in u.flows
      ensures EntryTells(u.flows[k], u.fates, packets + [p])
    {
      if k != key {
        OthersStillTell(t.fates, packets, x, p, t.flows[k], Report(0, Volume(0, UNSPECIFIED, 0)));
      }
    }
    TakenReportsTell(t, p, key, packets);
  }

  lemma TakenReportsTell(t: Table, p: Packet, key: FlowKey, packets: seq<Packet>)
    requires EntriesSound(t) && Told(t, packets) && FlowsReportable(t)
    ensures Departures(Taken(t, p, key))
    ensures var u := Taken(t, p, key);
            forall i :: 0 <= i < |u.observations| ==> ReportTells(u.observations[i], u.fates, packets + [p])
  {
    var f := FlowFor(t, p, key);
    var u := Taken(t, p, key);
    var x := Counted(f.serial, ToServer(f, p), p.frameLen);
    hide Shows, Seen, EntryTells, Tallied, Reported, Flagged;
    forall i | 0 <= i < |u.observations|
      ensures ReportTells(u.observations[i], u.fates, packets + [p])
      ensures u.observations[i].o.Flow? ==>
        u.observations[i].serial < |u.origins| && !InTable(u, u.observations[i].serial)
    {
      if i < |t.observations| && t.observations[i].o.Flow? {
        var r := t.observations[i];
        assert u.observations[i] == r && ReportTells(r, t.fates, packets);
        StaysOut(t, p, key, r.serial);
        OthersStillTell(t.fates, packets, x, p, f, r);
      }
    }
  }

  lemma StaysOut(t: Table, p: Packet, key: FlowKey, s: nat)
    requires EntriesSound(t) && FlowsReportable(t) && s < |t.origins| && !InTable(t, s)
    ensures s != FlowFor(t, p, key).serial && !InTable(Taken(t, p, key), s)
  {
    hide Interim;
    var f := FlowFor(t, p, key);
    if key in t.flows {
      InTableBy(t, key);
    }
    var u := Taken(t, p, key);
    if InTable(u, s) {
      var k :| k in u.flows && u.flows[k].serial == s;
      if k != key {
        InTableBy(t, k);
      }
    }
  }

  lemma ClosedTells(t: Table, key: FlowKey, now: int, packets: seq<Packet>)
    requires EntriesSound(t) && Told(t, packets) && key in t.flows
    ensures Told(Closed(t, key, now), packets)
  {
    hide EntriesSound, Told, Retirements;
    if t.flows[key].closed {
      var gone, more := ClosedRetires(t, key, now);
      hide Closed;
      RetiringTells(t, gone, more, Some(now), Closed(t, key, now), packets);
    }
  }

  lemma NotedTells(t: Table, x: Fate, refused: nat, p: Packet, packets: seq<Packet>)
    requires Told(t, packets) && !x.Counted?
    ensures Told(t.(fates := t.fates + [x], refused := refused), packets + [p])
  {
    var u := t.(fates := t.fates + [x], refused := refused);
    forall s: nat
      ensures InTable(u, s) == InTable(t, s)
    {
    }
    hide Seen, InTable;
    forall k | k in u.flows
      ensures EntryTells(u.flows[k], u.fates, packets + [p])
    {
      OthersStillTell(t.fates, packets, x, p, t.flows[k], Report(0, Volume(0, UNSPECIFIED, 0)));
    }
    forall i | 0 <= i < |u.observations|
      ensures ReportTells(u.observations[i], u.fates, packets + [p])
    {
      assert ReportTells(t.observations[i], t.fates, packets);
      SeenGrows(t.fates, packets, x, p, t.observations[i].serial, Reply);
    }
  }

  lemma ClockTells(t: Table, u: Table, packets: seq<Packet>)
    requires Told(t, packets) && u == t.(sinceSweep := u.sinceSweep, lastSweptAt := u.lastSweptAt)
    ensures Told(u, packets)
  {
    forall s: nat
      ensures InTable(u, s) == InTable(t, s)
    {
    }
    hide InTable, EntryTells, ReportTells;
  }

  /** Every packet keeps the entries and the reports truthful. */
  lemma ObservedTells(t: Table, p: Packet, u: Table, packets: seq<Packet>)
    requires Sound(t, packets) && Told(t, packets) && FlowsReportable(t) && Observed(t, p, u)
    ensures Told(u, packets + [p])
  {
    hide Sound, Told, Expired, Accepted, Swept, KeyOf;
    var key := KeyOf(p.src, p.dst);
    var v := ObservedThrough(t, p, key, u);
    RelievedIsSound(t, p, key, v, packets);
    RelievedTells(t, p, key, v, packets);
    if Full(t, key) && |v.flows| >= v.maxFlows {
      NotedTells(v, Refused, v.refused + 1, p, packets);
    } else if Bare(v, p, key) {
      NotedTells(v, Ignored, v.refused, p, packets);
    } else {
      AcceptedTells(v, p, key, packets);
      TakenIsSound(v, p, key, packets);
      SweptTells(Accepted(v, p, key), p.now, u, packets + [p]);
    }
  }

  lemma RelievedTells(t: Table, p: Packet, key: FlowKey, v: Table, packets: seq<Packet>)
    requires Sound(t, packets) && Told(t, packets) && Relieved(t, p, key, v)
    ensures Told(v, packets)
  {
    if Full(t, key) {
      ExpiredTells(t, p.now, FLOW_PRESSURE_IDLE_SECS, v, packets);
    }
  }

  lemma AcceptedTells(t: Table, p: Packet, key: FlowKey, packets: seq<Packet>)
    requires Sound(t, packets) && Told(t, packets) && FlowsReportable(t) && key == KeyOf(p.src, p.dst)
    ensures Told(Accepted(t, p, key), packets + [p])
  {
    TakenSound(t, p, key);
    TakenTells(t, p, key, packets);
    TakenHasKey(t, p, key);
    hide Told, EntriesSound, Balanced, Journal, Taken;
    ClosedTells(Taken(t, p, key), key, p.now, packets + [p]);
  }

  lemma SweptTells(t: Table, now: int, u: Table, packets: seq<Packet>)
    requires Sound(t, packets) && Told(t, packets) && Swept(t, now, u)
    ensures Told(u, packets)
  {
    if SweepDue(t, now) {
      var v := t.(sinceSweep := 0, lastSweptAt := now);
      ClockIsIrrelevant(t, v, packets);
      ClockTells(t, v, packets);
      hide Told, Expired;
      ExpiredTells(v, now, FLOW_IDLE_TIMEOUT_SECS, u, packets);
    } else {
      ClockTells(t, u, packets);
    }
  }

  lemma FlushedTells(t: Table, u: Table, packets: seq<Packet>)
    requires Sound(t, packets) && Told(t, packets) && Flushed(t, u)
    ensures forall i :: 0 <= i < |u.observations| ==> ReportTells(u.observations[i], u.fates, packets)
  {
    var more :| && u == t.(flows := map[], observations := t.observations + more)
                && if t.observing then Retirements(more, t.flows, None) else more == [];
    assert u.flows == t.flows - t.flows.Keys;
    hide Balanced, Journal;
    RetiringTells(t, t.flows, more, None, u, packets);
  }

  // -------------------------------------------------------------------- totals

  function Total(rs: seq<Report>, c: Column): nat {
    if rs == [] then 0 else Total(rs[..|rs| - 1], c) + Amount(rs[|rs| - 1].o, c)
  }

  function TotalCounted(fates: seq<Fate>, toServer: bool): nat {
    if fates == [] then 0
    else
      var x := fates[|fates| - 1];
      TotalCounted(fates[..|fates| - 1], toServer) + (if x.Counted? && x.toServer == toServer then x.bytes else 0)
  }

  /** The ledgers of the first `n` flows added up. */
  function Ledgers(rs: seq<Report>, c: Column, n: nat): nat {
    if n == 0 then 0 else Ledgers(rs, c, n - 1) + Ledger(rs, n - 1, c)
  }

  function CountedUpTo(fates: seq<Fate>, toServer: bool, n: nat): nat {
    if n == 0 then 0 else CountedUpTo(fates, toServer, n - 1) + BytesCounted(fates, n - 1, toServer)
  }

  lemma {:induction false} LedgersStep(rs: seq<Report>, r: Report, c: Column, n: nat)
    ensures Ledgers(rs + [r], c, n) == Ledgers(rs, c, n) + (if r.serial < n then Amount(r.o, c) else 0)
  {
    if n > 0 {
      LedgersStep(rs, r, c, n - 1);
      assert (rs + [r])[..|rs|] == rs;
    }
  }

  lemma {:induction false} NoLedgers(c: Column, n: nat)
    ensures Ledgers([], c, n) == 0
  {
    if n > 0 {
      NoLedgers(c, n - 1);
    }
  }

  /** All reports together add up to the ledgers of the flows, if nothing was reported of any other. */
  lemma {:induction false} TotalOfLedgers(rs: seq<Report>, c: Column, n: nat)
    requires forall s: nat :: s >= n ==> Ledger(rs, s, c) == 0
    ensures Total(rs, c) == Ledgers(rs, c, n)
  {
    if rs == [] {
      NoLedgers(c, n);
    } else {
      var front, r := rs[..|rs| - 1], rs[|rs| - 1];
      assert rs == front + [r];
      LedgersStep(front, r, c, n);
      assert r.serial >= n ==> Ledger(rs, r.serial, c) == 0;
      forall s: nat | s >= n
        ensures Ledger(front, s, c) == 0
      {
        assert Ledger(rs, s, c) == 0;
      }
      TotalOfLedgers(front, c, n);
    }
  }

  lemma {:induction false} CountedStep(fates: seq<Fate>, x: Fate, toServer: bool, n: nat)
    ensures CountedUpTo(fates + [x], toServer, n) ==
            CountedUpTo(fates, toServer, n) +
            (if x.Counted? && x.serial < n && x.toServer == toServer then x.bytes else 0)
  {
    if n > 0 {
      CountedStep(fates, x, toServer, n - 1);
      assert (fates + [x])[..|fates|] == fates;
    }
  }

  lemma {:induction false} NoneCounted(toServer: bool, n: nat)
    ensures CountedUpTo([], toServer, n) == 0
  {
    if n > 0 {
      NoneCounted(toServer, n - 1);
    }
  }

  lemma {:induction false} TotalOfCounted(fates: seq<Fate>, toServer: bool, n: nat)
    requires forall i :: 0 <= i < |fates| && fates[i].Counted? ==> fates[i].serial < n
    ensures TotalCounted(fates, toServer) == CountedUpTo(fates, toServer, n)
  {
    if fates == [] {
      NoneCounted(toServer, n);
    } else {
      var front, x := fates[..|fates| - 1], fates[|fates| - 1];
      assert fates == front + [x];
      CountedStep(front, x, toServer, n);
      TotalOfCounted(front, toServer, n);
    }
  }

  lemma {:induction false} SettledColumns(t: Table, n: nat)
    requires forall s: nat :: s < n ==> SettledInFull(t, s)
    ensures Ledgers(t.observations, OutBytes, n) == CountedUpTo(t.fates, true, n)
    ensures Ledgers(t.observations, InBytes, n) == CountedUpTo(t.fates, false, n)
    ensures Ledgers(t.observations, Ends, n) == n
  {
    if n > 0 {
      SettledColumns(t, n - 1);
      assert SettledInFull(t, n - 1);
    }
  }

  /**
   * The books of a finished run, in total: bytes reported are bytes counted, per direction, and flows reported are
   * flows created.
   */
  ghost predicate TotalsAgree(rs: seq<Report>, fates: seq<Fate>, origins: seq<Origin>) {
    && Total(rs, OutBytes) == TotalCounted(fates, true)
    && Total(rs, InBytes) == TotalCounted(fates, false)
    && Total(rs, Ends) == |origins|
  }

  lemma SettledTotals(t: Table, packets: seq<Packet>)
    requires Journal(t.fates, packets, t.origins, t.refused)
    requires forall s: nat :: s >= |t.origins| ==> NothingYet(t, s)
    requires forall s: nat :: s < |t.origins| ==> SettledInFull(t, s)
    ensures TotalsAgree(t.observations, t.fates, t.origins)
  {
    var n := |t.origins|;
    forall s: nat, c | s >= n
      ensures Ledger(t.observations, s, c) == 0
    {
      assert NothingYet(t, s);
      match c
      case OutBytes =>
      case InBytes =>
      case Ends =>
    }
    forall i | 0 <= i < |t.fates| && t.fates[i].Counted?
      ensures t.fates[i].serial < n
    {
      assert CountedRightly(t.fates[i], packets[i], t.origins);
    }
    hide Journal, SettledInFull, NothingYet, CountedRightly;
    TotalOfLedgers(t.observations, OutBytes, n);
    TotalOfLedgers(t.observations, InBytes, n);
    TotalOfLedgers(t.observations, Ends, n);
    TotalOfCounted(t.fates, true, n);
    TotalOfCounted(t.fates, false, n);
    SettledColumns(t, n);
  }

  // -------------------------------------------------------------- the worker

  /** The table after a run of packets: a chain of whole steps, each up to the order in which the table is walked. */
  ghost predicate Reaches(start: Table, packets: seq<Packet>, t: Table)
    decreases |packets|
  {
    if packets == [] then t == start
    else
      var n := |packets| - 1;
      exists mid :: Reaches(start, packets[..n], mid) && FlowsReportable(mid) && Observed(mid, packets[n], t)
  }

  function Observing(limit: nat): Table {
    NewTable(limit).(observing := true)
  }

  lemma NewTableIsSound(limit: nat)
    ensures Sound(Observing(limit), []) && Told(Observing(limit), [])
  {
  }

  /** A worker's run with observations enabled, from its first packet to the flush when it stops. */
  ghost predicate WholeRun(limit: nat, packets: seq<Packet>, u: Table) {
    exists t :: Reaches(Observing(limit), packets, t) && Flushed(t, u)
  }

  lemma ReachesFurther(start: Table, packets: seq<Packet>, t: Table, p: Packet, u: Table)
    requires Reaches(start, packets, t) && FlowsReportable(t) && Observed(t, p, u)
    ensures Reaches(start, packets + [p], u)
  {
    hide FlowsReportable, Observed;
    assert (packets + [p])[..|packets + [p]| - 1] == packets;
  }

  /** Every table on the way is sound and truthful, and never holds more flows than its limit. */
  lemma {:induction false} ReachedIsSound(limit: nat, packets: seq<Packet>, t: Table)
    requires Reaches(Observing(limit), packets, t)
    ensures Sound(t, packets) && Told(t, packets) && t.observing
    ensures t.maxFlows == Max(limit, 1) && |t.flows| <= Max(limit, 1)
    decreases |packets|
  {
    hide Sound, Told, Observed, FlowsReportable;
    if packets == [] {
      NewTableIsSound(limit);
      SoundIsBounded(t, packets);
    } else {
      hide Reaches, Observing;
      var front, p := packets[..|packets| - 1], packets[|packets| - 1];
      var mid := ReachedFrom(Observing(limit), packets, t);
      ReachedIsSound(limit, front, mid);
      ObservedIsSound(mid, p, t, front);
      ObservedTells(mid, p, t, front);
      assert packets == front + [p];
      SoundIsBounded(t, packets);
    }
  }

  lemma ReachedFrom(start: Table, packets: seq<Packet>, t: Table) returns (mid: Table)
    requires packets != [] && Reaches(start, packets, t)
    ensures var n := |packets| - 1;
      Reaches(start, packets[..n], mid) && FlowsReportable(mid) && Observed(mid, packets[n], t)
  {
    hide Observed, FlowsReportable;
    var n := |packets| - 1;
    mid :| Reaches(start, packets[..n], mid) && FlowsReportable(mid) && Observed(mid, packets[n], t);
  }

  lemma SoundIsBounded(t: Table, packets: seq<Packet>)
    requires Sound(t, packets)
    ensures |t.flows| <= t.maxFlows
  {
  }

  /**
   * What becomes of a packet is decided by the table it meets: it is counted to the live flow of its key if there is
   * one; else refused if there is no room even when what is idle under pressure has left; else ignored if bare; else it
   * opens a flow.
   */
  lemma FateIsDecided(t: Table, p: Packet, u: Table)
    requires FlowsReportable(t) && Observed(t, p, u)
    ensures var key := KeyOf(p.src, p.dst);
            var room := |t.flows| < t.maxFlows || |Survivors(t.flows, p.now, FLOW_PRESSURE_IDLE_SECS)| < t.maxFlows;
            u.fates == t.fates +
              [if key in t.flows then Counted(t.flows[key].serial, ToServer(t.flows[key], p), p.frameLen)
               else if !room then Refused
               else if !p.syn && !p.fin && !p.rst && p.payloadLen == 0 then Ignored
               else Counted(|t.origins|, true, p.frameLen)]
  {
    hide KeyOf;
    var key := KeyOf(p.src, p.dst);
    var v := ObservedThrough(t, p, key, u);
    ReliefIs(t, p, key, v);
    hide Relieved, FlowsReportable, Survivors;
    if !(Full(t, key) && |v.flows| >= v.maxFlows) && !Bare(v, p, key) {
      AcceptedFate(v, p, key);
      hide Accepted, Swept;
      SweptFate(Accepted(v, p, key), p.now, u);
    }
  }

  lemma ReliefIs(t: Table, p: Packet, key: FlowKey, v: Table)
    requires Relieved(t, p, key, v)
    ensures v.fates == t.fates && v.origins == t.origins && v.maxFlows == t.maxFlows
    ensures if Full(t, key) then v.flows == Survivors(t.flows, p.now, FLOW_PRESSURE_IDLE_SECS) else v == t
  {
  }

  lemma AcceptedFate(v: Table, p: Packet, key: FlowKey)
    requires FlowsReportable(v)
    ensures var f := FlowFor(v, p, key);
            Accepted(v, p, key).fates == v.fates + [Counted(f.serial, ToServer(f, p), p.frameLen)]
  {
    hide Tallied, Reported, Flagged, Interim, Retirement;
  }

  lemma SweptFate(t: Table, now: int, u: Table)
    requires Swept(t, now, u)
    ensures u.fates == t.fates
  {
  }

  /** What a finished run has reported, flow by flow and in total. */
  ghost predicate Reconciled(reports: seq<Report>, fates: seq<Fate>, origins: seq<Origin>, packets: seq<Packet>) {
    && (forall s: nat :: s < |origins| ==>
          && Ledger(reports, s, Ends) == 1
          && Ledger(reports, s, OutBytes) == BytesCounted(fates, s, true)
          && Ledger(reports, s, InBytes) == BytesCounted(fates, s, false))
    && TotalsAgree(reports, fates, origins)
    && forall i :: 0 <= i < |reports| ==> ReportTells(reports[i], fates, packets)
  }

  /**
   * Over every whole run, whatever the order in which tables are walked: every flow created is reported as finished
   * exactly once, as answered if and only if something came back; and what is reported of it, in interim reports and at
   * the end, is exactly the frame bytes of its packets, per direction.
   */
  lemma WholeRunReconciles(limit: nat, packets: seq<Packet>, u: Table)
    requires WholeRun(limit, packets, u)
    ensures Journal(u.fates, packets, u.origins, u.refused)
    ensures Reconciled(u.observations, u.fates, u.origins, packets)
  {
    hide Sound, Told, Flushed, TotalsAgree, ReportTells, Journal, SettledInFull, NothingYet, Reaches, Observing,
      Reconciled;
    var t :| Reaches(Observing(limit), packets, t) && Flushed(t, u);
    ReachedIsSound(limit, packets, t);
    FlushedIsSettled(t, u, packets);
    FlushedTells(t, u, packets);
    SettledTotals(u, packets);
    SettledReconciles(u, packets);
  }

  lemma SettledReconciles(u: Table, packets: seq<Packet>)
    requires forall s: nat :: s < |u.origins| ==> SettledInFull(u, s)
    requires TotalsAgree(u.observations, u.fates, u.origins)
    requires forall i :: 0 <= i < |u.observations| ==> ReportTells(u.observations[i], u.fates, packets)
    ensures Reconciled(u.observations, u.fates, u.origins, packets)
  {
    hide TotalsAgree, ReportTells, Ledger, BytesCounted;
    forall s: nat | s < |u.origins|
      ensures && Ledger(u.observations, s, Ends) == 1
              && Ledger(u.observations, s, OutBytes) == BytesCounted(u.fates, s, true)
              && Ledger(u.observations, s, InBytes) == BytesCounted(u.fates, s, false)
    {
      assert SettledInFull(u, s);
    }
  }

  lemma NothingReached(limit: nat)
    ensures Reaches(Observing(limit), [], Observing(limit))
  {
  }
}
