/**
 * The table of open TCP connections (src/engine.rs, `FlowTable`): creation, closing, expiry, refusal, retirement
 * and the reporting of bytes. Reassembly and the protocol parsers that `observe` also drives are elsewhere or left out.
 */
module FlowTables {
  import opened Base
  import opened Observations

  const INTERIM_REPORT_SECS := 30
  const FLOW_IDLE_TIMEOUT_SECS := 300
  const FLOW_PRESSURE_IDLE_SECS := 10
  const UNANSWERED_TIMEOUT_SECS := 10
  const SWEEP_PACKETS := 4096
  const SECOND := 1_000_000_000

  datatype Endpoint = Endpoint(ip: IpAddr, port: Port)

  /** The two ends of a connection, the lesser first. */
  datatype FlowKey = FlowKey(low: Endpoint, high: Endpoint)

  /** `at` is the capture time in nanoseconds, `now` the second the worker takes it to be. */
  datatype Packet = Packet(
    src: Endpoint, dst: Endpoint, syn: bool, fin: bool, rst: bool, payloadLen: nat, frameLen: nat, at: int, now: int)

  /** The serial number tells apart flows that used one key in turn; it is no part of the program. */
  datatype Flow = Flow(
    serial: nat, client: Endpoint, server: Endpoint, lastSeen: int, closed: bool, reset: bool,
    finToServer: bool, finToClient: bool, firstAt: int,
    pktsToServer: nat, pktsToClient: nat, bytesToServer: nat, bytesToClient: nat,
    reportedOut: nat, reportedIn: nat, lastReport: int)

  /** The ends of a flow, the one that was seen to send first named the client. */
  datatype Origin = Origin(client: Endpoint, server: Endpoint)

  /** An observation, and the serial number of the flow it is about. */
  datatype Report = Report(serial: nat, o: Observation)

  /** What became of a packet. */
  datatype Fate = Refused | Ignored | Counted(serial: nat, toServer: bool, bytes: nat)

  /** `origins` and `fates` record the run and are no part of the program. */
  datatype Table = Table(
    flows: map<FlowKey, Flow>, maxFlows: nat, sinceSweep: nat, lastSweptAt: int, refused: nat,
    observations: seq<Report>, observing: bool, origins: seq<Origin>, fates: seq<Fate>)

  // ------------------------------------------------------------------- keys

  function EndpointKey(e: Endpoint): seq<int> {
    AddressKey(e.ip) + [e.port]
  }

  function KeyOf(a: Endpoint, b: Endpoint): FlowKey {
    if LexLe(EndpointKey(a), EndpointKey(b)) then FlowKey(a, b) else FlowKey(b, a)
  }

  lemma EndpointKeyInjective(a: Endpoint, b: Endpoint)
    requires EndpointKey(a) == EndpointKey(b)
    ensures a == b
  {
    SplitEqual(AddressKey(a.ip), [a.port], AddressKey(b.ip), [b.port]);
    AddressKeyInjective(a.ip, b.ip);
  }

  /** Two packets share a key exactly when they travel between the same endpoints, either way. */
  lemma KeysAreUnordered(a: Endpoint, b: Endpoint, c: Endpoint, d: Endpoint)
    ensures KeyOf(a, b) == KeyOf(c, d) <==> (a == c && b == d) || (a == d && b == c)
  {
    LexLeTotal(EndpointKey(a), EndpointKey(b));
    LexLeTotal(EndpointKey(c), EndpointKey(d));
    if LexLe(EndpointKey(a), EndpointKey(b)) && LexLe(EndpointKey(b), EndpointKey(a)) {
      EndpointKeyInjective(a, b);
    }
    if LexLe(EndpointKey(c), EndpointKey(d)) && LexLe(EndpointKey(d), EndpointKey(c)) {
      EndpointKeyInjective(c, d);
    }
  }

  // ------------------------------------------------------------------ a flow

  predicate Answered(f: Flow) {
    f.pktsToClient > 0
  }

  /** What a departing flow still owes; times before the epoch fall back on the worker's clock. */
  function Retirement(f: Flow, now: int): Report {
    Report(f.serial, Observation.Flow(
      if f.firstAt >= 0 then f.firstAt / SECOND else now, f.client.ip, f.server.ip, f.server.port,
      Max(f.bytesToServer - f.reportedOut, 0), Max(f.bytesToClient - f.reportedIn, 0), Answered(f)))
  }

  predicate Dead(f: Flow, now: int, idle: int) {
    || f.closed
    || f.lastSeen <= now - idle
    || (!Answered(f) && f.lastSeen <= now - UNANSWERED_TIMEOUT_SECS)
  }

  function NewFlow(serial: nat, p: Packet): Flow {
    Flow.Flow(serial, p.src, p.dst, p.now, false, false, false, false, p.at, 0, 0, 0, 0, 0, 0, p.now)
  }

  predicate ToServer(f: Flow, p: Packet) {
    p.src == f.client
  }

  /** The counters of one packet. */
  function Tallied(f: Flow, p: Packet): Flow {
    if ToServer(f, p) then
      f.(lastSeen := p.now, pktsToServer := f.pktsToServer + 1, bytesToServer := f.bytesToServer + p.frameLen)
    else
      f.(lastSeen := p.now, pktsToClient := f.pktsToClient + 1, bytesToClient := f.bytesToClient + p.frameLen)
  }

  predicate ReportDue(f: Flow, now: int) {
    now - f.lastReport >= INTERIM_REPORT_SECS
  }

  /** The bytes moved since the last report, if there are any and it is time. */
  function Interim(f: Flow, now: int): seq<Report>
    requires f.reportedOut <= f.bytesToServer && f.reportedIn <= f.bytesToClient
  {
    var bytesOut, bytesIn := f.bytesToServer - f.reportedOut, f.bytesToClient - f.reportedIn;
    if ReportDue(f, now) && bytesOut + bytesIn > 0 then
      [Report(f.serial, Traffic(now, f.client.ip, f.server.ip, f.server.port, bytesOut, bytesIn))]
    else []
  }

  function Reported(f: Flow, now: int): Flow {
    if ReportDue(f, now) then
      f.(lastReport := now, reportedOut := f.bytesToServer, reportedIn := f.bytesToClient)
    else f
  }

  /** Both directions finished, or a reset. */
  function Flagged(f: Flow, p: Packet): Flow {
    var reset := f.reset || p.rst;
    var finToServer := f.finToServer || (p.fin && ToServer(f, p));
    var finToClient := f.finToClient || (p.fin && !ToServer(f, p));
    f.(reset := reset, finToServer := finToServer, finToClient := finToClient,
       closed := reset || (finToServer && finToClient))
  }

  // ----------------------------------------------------------------- the table

  /** The reports of departing flows, in whatever order the table is walked. */
  ghost predicate Retirements(more: seq<Report>, gone: map<FlowKey, Flow>, at: Option<int>) {
    if more == [] then gone == map[]
    else
      var n := |more| - 1;
      exists k :: k in gone
                  && more[n] == Retirement(gone[k], if at.Some? then at.value else gone[k].lastSeen)
                  && Retirements(more[..n], gone - {k}, at)
  }

  function Survivors(flows: map<FlowKey, Flow>, now: int, idle: int): map<FlowKey, Flow> {
    map k | k in flows && !Dead(flows[k], now, idle) :: flows[k]
  }

  function Departed(flows: map<FlowKey, Flow>, now: int, idle: int): map<FlowKey, Flow> {
    map k | k in flows && Dead(flows[k], now, idle) :: flows[k]
  }

  /** `expire`: idle, closed and never-answered flows leave, each retired if anyone is observing. */
  ghost predicate Expired(t: Table, now: int, idle: int, u: Table) {
    exists more :: && u == t.(flows := Survivors(t.flows, now, idle), observations := t.observations + more)
                   && if t.observing then Retirements(more, Departed(t.flows, now, idle), Some(now)) else more == []
  }

  predicate Full(t: Table, key: FlowKey) {
    |t.flows| >= t.maxFlows && key !in t.flows
  }

  /** Nothing to inspect and no flow to belong to. */
  predicate Bare(t: Table, p: Packet, key: FlowKey) {
    !p.syn && !p.fin && !p.rst && p.payloadLen == 0 && key !in t.flows
  }

  function FlowFor(t: Table, p: Packet, key: FlowKey): Flow {
    if key in t.flows then t.flows[key] else NewFlow(|t.origins|, p)
  }

  ghost predicate FlowsReportable(t: Table) {
    forall k :: k in t.flows ==>
      t.flows[k].reportedOut <= t.flows[k].bytesToServer && t.flows[k].reportedIn <= t.flows[k].bytesToClient
  }

  /** The flow of a packet, found or created, with the packet counted and any interim report made. */
  function Taken(t: Table, p: Packet, key: FlowKey): Table
    requires FlowsReportable(t)
  {
    var f := FlowFor(t, p, key);
    var g := Tallied(f, p);
    t.(flows := t.flows[key := Flagged(Reported(g, p.now), p)],
       observations := t.observations + Interim(g, p.now),
       origins := if key in t.flows then t.origins else t.origins + [Origin(p.src, p.dst)],
       fates := t.fates + [Counted(f.serial, ToServer(f, p), p.frameLen)])
  }

  /** A finished connection is retired at once. */
  function Closed(t: Table, key: FlowKey, now: int): Table
    requires key in t.flows
  {
    if t.flows[key].closed then
      t.(flows := t.flows - {key},
         observations := t.observations + (if t.observing then [Retirement(t.flows[key], now)] else []))
    else t
  }

  function Accepted(t: Table, p: Packet, key: FlowKey): Table
    requires FlowsReportable(t)
  {
    Closed(Taken(t, p, key), key, p.now)
  }

  predicate SweepDue(t: Table, now: int) {
    t.sinceSweep + 1 >= SWEEP_PACKETS || now > t.lastSweptAt
  }

  ghost predicate Swept(t: Table, now: int, u: Table) {
    if SweepDue(t, now) then Expired(t.(sinceSweep := 0, lastSweptAt := now), now, FLOW_IDLE_TIMEOUT_SECS, u)
    else u == t.(sinceSweep := t.sinceSweep + 1)
  }

  /** Room made for a packet: under pressure, by retiring what has been idle a short while. */
  ghost predicate Relieved(t: Table, p: Packet, key: FlowKey, u: Table) {
    if Full(t, key) then Expired(t, p.now, FLOW_PRESSURE_IDLE_SECS, u) else u == t
  }

  /** `observe`, up to the order in which the table is walked. */
  ghost predicate Observed(t: Table, p: Packet, u: Table)
    requires FlowsReportable(t)
  {
    var key := KeyOf(p.src, p.dst);
    exists v :: && Relieved(t, p, key, v) && FlowsReportable(v)
                && if Full(t, key) && |v.flows| >= v.maxFlows then
                     u == v.(refused := v.refused + 1, fates := v.fates + [Refused])
                   else if Bare(v, p, key) then
                     u == v.(fates := v.fates + [Ignored])
                   else
                     Swept(Accepted(v, p, key), p.now, u)
  }

  /** `flush_open_flows`: whatever is left is retired as it stands. */
  ghost predicate Flushed(t: Table, u: Table) {
    exists more :: && u == t.(flows := map[], observations := t.observations + more)
                   && if t.observing then Retirements(more, t.flows, None) else more == []
  }

  // ------------------------------------------------------------------ the class

  function NewTable(maxFlows: nat): Table {
    Table(map[], Max(maxFlows, 1), 0, 0, 0, [], false, [], [])
  }

  /** A walk over the table under way: `gone` has left it and been reported. */
  ghost predicate Walking(t: Table, gone: map<FlowKey, Flow>, more: seq<Report>, at: Option<int>, u: Table) {
    && gone.Keys <= t.flows.Keys
    && (forall k :: k in gone ==> gone[k] == t.flows[k])
    && u == t.(flows := t.flows - gone.Keys, observations := t.observations + more)
    && if t.observing then Retirements(more, gone, at) else more == []
  }

  lemma WalkStarts(t: Table, at: Option<int>)
    ensures Walking(t, map[], [], at, t)
  {
    assert t.flows - {} == t.flows;
  }

  lemma WalkSteps(t: Table, gone: map<FlowKey, Flow>, more: seq<Report>, at: Option<int>, u: Table, k: FlowKey,
      v: Table)
    requires Walking(t, gone, more, at, u) && k in u.flows
    requires var report := Retirement(u.flows[k], if at.Some? then at.value else u.flows[k].lastSeen);
             v == u.(flows := u.flows - {k}, observations := u.observations + if u.observing then [report] else [])
    ensures var report := Retirement(u.flows[k], if at.Some? then at.value else u.flows[k].lastSeen);
            Walking(t, gone[k := u.flows[k]], more + (if u.observing then [report] else []), at, v)
  {
    hide Retirements, Retirement;
    if u.observing {
      RetirementsGrow(more, gone, at, k, u.flows[k]);
    }
    assert v.flows == t.flows - gone[k := u.flows[k]].Keys;
  }

  lemma RetirementsGrow(more: seq<Report>, gone: map<FlowKey, Flow>, at: Option<int>, k: FlowKey, f: Flow)
    requires Retirements(more, gone, at) && k !in gone
    ensures Retirements(more + [Retirement(f, if at.Some? then at.value else f.lastSeen)], gone[k := f], at)
  {
    hide Retirement;
    var bigger := more + [Retirement(f, if at.Some? then at.value else f.lastSeen)];
    assert bigger[..|bigger| - 1] == more && gone[k := f] - {k} == gone;
  }

  /** Whoever stays through an expiry stays as it was. */
  lemma ExpiredReportable(t: Table, now: int, idle: int, u: Table)
    requires FlowsReportable(t) && Expired(t, now, idle, u)
    ensures FlowsReportable(u) && u.maxFlows == t.maxFlows
  {
    hide Retirements, Dead;
  }

  lemma TallyKeepsReports(f: Flow, p: Packet)
    ensures var g := Tallied(f, p);
            && g.serial == f.serial && g.client == f.client && g.server == f.server && g.lastReport == f.lastReport
            && g.reportedOut == f.reportedOut && g.reportedIn == f.reportedIn
            && g.bytesToServer >= f.bytesToServer && g.bytesToClient >= f.bytesToClient
  {
  }

  class FlowTable {
    const maxFlows: nat
    var flows: map<FlowKey, Flow>
    var sinceSweep: nat
    var lastSweptAt: int
    var refused: nat
    var observations: seq<Report>
    var observing: bool
    var handedOver: seq<Report>
    var origins: seq<Origin>
    var fates: seq<Fate>

    /** The table, its observations counted from the start of the run whether or not they have been taken. */
    function State(): Table
      reads this
    {
      Table(flows, maxFlows, sinceSweep, lastSweptAt, refused, handedOver + observations, observing, origins, fates)
    }

    constructor (limit: nat)
      ensures State() == NewTable(limit) && observations == []
    {
      maxFlows := Max(limit, 1);
      flows, sinceSweep, lastSweptAt, refused := map[], 0, 0, 0;
      observations, observing, handedOver, origins, fates := [], false, [], [], [];
    }

    method EnableObservations()
      modifies this
      ensures State() == old(State()).(observing := true) && observations == old(observations)
    {
      observing := true;
    }

    method TakeObservations() returns (taken: seq<Report>)
      modifies this
      ensures taken == old(observations) && observations == [] && State() == old(State())
      ensures handedOver == old(handedOver) + taken
    {
      taken := observations;
      handedOver, observations := handedOver + observations, [];
    }

    method Retire(f: Flow, now: int)
      modifies this`observations
      ensures observations == old(observations) + if observing then [Retirement(f, now)] else []
    {
      if observing {
        observations := observations + [Retirement(f, now)];
      }
    }

    /** Walks the table in any order, retiring what is dead on the way out. */
    method Expire(now: int, idle: int)
      modifies this
      ensures Expired(old(State()), now, idle, State())
      ensures handedOver == old(handedOver)
    {
      hide Retirements, Dead;
      var left := flows.Keys;
      ghost var before := State();
      ghost var more: seq<Report> := [];
      ghost var gone: map<FlowKey, Flow> := map[];
      WalkStarts(before, Some(now));
      while left != {}
        invariant Walking(before, gone, more, Some(now), State()) && handedOver == old(handedOver)
        invariant left <= before.flows.Keys && left !! gone.Keys
        invariant forall k :: k in before.flows && k !in left ==> (k in gone <==> Dead(before.flows[k], now, idle))
        decreases left
      {
        var k :| k in left;
        left := left - {k};
        var f := flows[k];
        if Dead(f, now, idle) {
          ghost var t := State();
          flows := flows - {k};
          Retire(f, now);
          WalkSteps(before, gone, more, Some(now), t, k, State());
          gone, more := gone[k := f], more + if observing then [Retirement(f, now)] else [];
        }
      }
      assert gone == Departed(before.flows, now, idle) && flows == Survivors(before.flows, now, idle);
    }

    method FlushOpenFlows()
      modifies this
      ensures Flushed(old(State()), State())
      ensures handedOver == old(handedOver)
    {
      hide Retirements;
      ghost var before := State();
      ghost var more: seq<Report> := [];
      ghost var gone: map<FlowKey, Flow> := map[];
      WalkStarts(before, None);
      while flows != map[]
        invariant Walking(before, gone, more, None, State()) && handedOver == old(handedOver)
        decreases flows.Keys
      {
        var k :| k in flows.Keys;
        var f := flows[k];
        ghost var t := State();
        flows := flows - {k};
        assert k !in flows.Keys && k in t.flows.Keys;
        Retire(f, f.lastSeen);
        WalkSteps(before, gone, more, None, t, k, State());
        gone, more := gone[k := f], more + if observing then [Retirement(f, f.lastSeen)] else [];
      }
      assert gone == before.flows;
    }

    /** Now and then, what has moved since the last report; made whether or not observations are enabled. */
    method ReportInterim(f: Flow, now: int) returns (g: Flow)
      requires f.reportedOut <= f.bytesToServer && f.reportedIn <= f.bytesToClient
      modifies this`observations
      ensures g == Reported(f, now) && observations == old(observations) + Interim(f, now)
    {
      g := f;
      if now - f.lastReport >= INTERIM_REPORT_SECS {
        var bytesOut, bytesIn := f.bytesToServer - f.reportedOut, f.bytesToClient - f.reportedIn;
        g := g.(lastReport := now);
        if bytesOut + bytesIn > 0 {
          g := g.(reportedOut := f.bytesToServer, reportedIn := f.bytesToClient);
          observations := observations
            + [Report(f.serial, Traffic(now, f.client.ip, f.server.ip, f.server.port, bytesOut, bytesIn))];
        }
      }
    }

    /** Finds or creates the packet's flow and counts the packet. */
    method Take(p: Packet, key: FlowKey)
      requires FlowsReportable(State())
      modifies this
      ensures State() == Taken(old(State()), p, key)
      ensures handedOver == old(handedOver)
    {
      hide Flagged, Tallied, Reported, Interim, KeyOf;
      var f;
      if key in flows {
        f := flows[key];
      } else {
        f := NewFlow(|origins|, p);
        origins := origins + [Origin(p.src, p.dst)];
      }
      TallyKeepsReports(f, p);
      fates := fates + [Counted(f.serial, ToServer(f, p), p.frameLen)];
      var g := ReportInterim(Tallied(f, p), p.now);
      flows := flows[key := Flagged(g, p)];
    }

    method CloseIfFinished(key: FlowKey, now: int)
      requires key in flows
      modifies this
      ensures State() == Closed(old(State()), key, now)
      ensures handedOver == old(handedOver)
    {
      var f := flows[key];
      if f.closed {
        flows := flows - {key};
        Retire(f, now);
      }
    }

    method SweepIfDue(now: int)
      modifies this
      ensures Swept(old(State()), now, State())
      ensures handedOver == old(handedOver)
    {
      sinceSweep := sinceSweep + 1;
      if sinceSweep >= SWEEP_PACKETS || now > lastSweptAt {
        sinceSweep, lastSweptAt := 0, now;
        Expire(now, FLOW_IDLE_TIMEOUT_SECS);
      }
    }

    method Observe(p: Packet)
      requires FlowsReportable(State())
      modifies this
      ensures Observed(old(State()), p, State())
      ensures handedOver == old(handedOver)
    {
      hide Retirements, Taken, Closed, Swept, Expired, KeyOf, FlowsReportable;
      var key := KeyOf(p.src, p.dst);
      ghost var t := State();
      if |flows| >= maxFlows && key !in flows {
        Expire(p.now, FLOW_PRESSURE_IDLE_SECS);
        ExpiredReportable(t, p.now, FLOW_PRESSURE_IDLE_SECS, State());
        if |flows| >= maxFlows {
          refused := refused + 1;
          fates := fates + [Refused];
          return;
        }
      }
      ghost var v := State();
      assert Relieved(t, p, key, v);
      if !p.syn && !p.fin && !p.rst && p.payloadLen == 0 && key !in flows {
        fates := fates + [Ignored];
        return;
      }
      Take(p, key);
      TakenHasKey(v, p, key);
      CloseIfFinished(key, p.now);
      SweepIfDue(p.now);
    }
  }

  lemma TakenHasKey(t: Table, p: Packet, key: FlowKey)
    requires FlowsReportable(t)
    ensures key in Taken(t, p, key).flows
  {
  }
}
