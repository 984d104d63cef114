/**
 * The behavioural aggregator: per-source and per-service state, swept on the clock, judged online
 * as each observation lands. Beaconing and DNS state are not part of this model.
 */
module Behavior {
  import opened Base
  import opened Observations
  import opened Windows

  datatype Config = Config(
    window: int,
    alertInterval: int,
    horizontalScanHosts: nat,
    horizontalScanHostsAnyPort: nat,
    bruteForceAttempts: nat,
    bruteForceFailures: nat,
    exfilBytes: nat,
    exfilRatio: real,
    exfilRatioMinBytes: nat,
    maxSources: nat,
    maxPairs: nat,
    floodLimit: nat,
    floodWindow: int,
    floodInterval: int
  )

  datatype Kind =
    | PacketFlood
    | HorizontalScan
    | HostSweep
    | BruteForceAttempts
    | BruteForceFailures
    | ExfilVolume
    | ExfilRatio

  /** An alert with the figures its message reports; `received` is used by the ratio alone. */
  datatype Alert = Alert(kind: Kind, at: int, src: IpAddr, dst: IpAddr, port: Port, measured: nat, received: nat)

  /** State of one source. */
  datatype Source = Source(
    unansweredByPort: map<Port, Distinct<IpAddr>>,
    unansweredAny: Distinct<IpAddr>,
    bytesOut: Rate,
    bytesIn: Rate,
    packets: Rate,
    scanGate: Option<int>,
    floodGate: Option<int>,
    scanAnyGate: Option<int>,
    exfilGate: Option<int>,
    ratioGate: Option<int>,
    lastSeen: int
  )
  {
    predicate Valid() { bytesOut.Valid() && bytesIn.Valid() && packets.Valid() }
  }

  /** State of one source, destination and service. */
  datatype Pair = Pair(
    authAttempts: Rate,
    authGate: Option<int>,
    authFailures: Rate,
    failureGate: Option<int>,
    lastSeen: int
  )
  {
    predicate Valid() { authAttempts.Valid() && authFailures.Valid() }
  }

  datatype PairKey = PairKey(src: IpAddr, dst: IpAddr, port: Port)

  datatype Engine = Engine(
    sources: map<IpAddr, Source>,
    pairs: map<PairKey, Pair>,
    lastSwept: int,
    sourcesRefused: nat,
    pairsRefused: nat
  )
  {
    ghost predicate Valid() {
      && (forall k :: k in sources ==> sources[k].Valid())
      && (forall k :: k in pairs ==> pairs[k].Valid())
    }
  }

  const INITIAL: Engine := Engine(map[], map[], 0, 0, 0)

  function FreshSource(cfg: Config, now: int): (s: Source)
    ensures s.Valid()
  {
    Source(map[], NewDistinct(cfg.maxPairs), NewRate(cfg.window), NewRate(cfg.window),
           NewRate(Max(cfg.floodWindow, 1)), None, None, None, None, None, now)
  }

  function FreshPair(cfg: Config, now: int): (p: Pair)
    ensures p.Valid()
  {
    Pair(NewRate(cfg.window), None, NewRate(cfg.window), None, now)
  }

  /** Releases state for keys not seen within the window, at most once per second. */
  function Swept(cfg: Config, e: Engine, now: int): Engine {
    if now <= e.lastSwept then e
    else
      var cutoff := now - cfg.window;
      e.(lastSwept := now,
         sources := map k | k in e.sources && e.sources[k].lastSeen > cutoff :: e.sources[k],
         pairs := map k | k in e.pairs && e.pairs[k].lastSeen > cutoff :: e.pairs[k])
  }

  predicate SourceRefused(cfg: Config, e: Engine, src: IpAddr) {
    src !in e.sources && |e.sources| >= cfg.maxSources
  }

  predicate PairRefused(cfg: Config, e: Engine, key: PairKey) {
    key !in e.pairs && |e.pairs| >= cfg.maxPairs
  }

  function SourceAt(cfg: Config, e: Engine, src: IpAddr, now: int): Source {
    (if src in e.sources then e.sources[src] else FreshSource(cfg, now)).(lastSeen := now)
  }

  function PairAt(cfg: Config, e: Engine, key: PairKey, now: int): Pair {
    (if key in e.pairs then e.pairs[key] else FreshPair(cfg, now)).(lastSeen := now)
  }

  /** State after a step and the alerts it raised. */
  datatype Step<S> = Step(state: S, alerts: seq<Alert>)

  /** An alert if the measure is over its limit and the gate allows; the gate is armed only then. */
  function Fires(over: bool, gate: Option<int>, now: int, interval: int): bool {
    over && Allows(gate, now, interval)
  }

  function Armed(over: bool, gate: Option<int>, now: int, interval: int): Option<int> {
    if Fires(over, gate, now, interval) then Some(now) else gate
  }

  function When(fires: bool, a: Alert): seq<Alert> {
    if fires then [a] else []
  }

  function SourceVolume(cfg: Config, s: Source, now: int, src: IpAddr, packets: nat): (r: Step<Source>)
    requires s.Valid()
    ensures r.state.Valid()
  {
    var rate := RateAdd(s.packets, now, packets);
    var total := RateTotal(rate, now);
    var over := total > cfg.floodLimit;
    Step(s.(packets := rate, floodGate := Armed(over, s.floodGate, now, cfg.floodInterval)),
         When(Fires(over, s.floodGate, now, cfg.floodInterval),
              Alert(PacketFlood, Max(now, 0), src, UNSPECIFIED, 0, total, 0)))
  }

  function PortTable(cfg: Config, s: Source, port: Port): Distinct<IpAddr> {
    if port in s.unansweredByPort then s.unansweredByPort[port] else NewDistinct(cfg.maxPairs)
  }

  /** The bound on the per-port map: past 1024 ports, empty tables are dropped. */
  function PortsBounded(ports: map<Port, Distinct<IpAddr>>): map<Port, Distinct<IpAddr>> {
    if |ports| > 1024 then map p | p in ports && |ports[p].seen| > 0 :: ports[p] else ports
  }

  /** The map the bound is applied to when an unanswered connection is entered. */
  function PortsEntered(cfg: Config, s: Source, now: int, dst: IpAddr, port: Port): map<Port, Distinct<IpAddr>> {
    s.unansweredByPort[port := Inserted(PortTable(cfg, s, port), dst, now, cfg.window)]
  }

  function SourceUnanswered(cfg: Config, s: Source, now: int, src: IpAddr, dst: IpAddr, port: Port): (r: Step<Source>)
    requires s.Valid()
    ensures r.state.Valid()
  {
    var table := Inserted(PortTable(cfg, s, port), dst, now, cfg.window);
    var any := Inserted(s.unansweredAny, dst, now, cfg.window);
    var perPort, anyPort := |table.seen|, |any.seen|;
    var overPort, overAny := perPort > cfg.horizontalScanHosts, anyPort > cfg.horizontalScanHostsAnyPort;
    Step(s.(unansweredByPort := PortsBounded(PortsEntered(cfg, s, now, dst, port)),
            unansweredAny := any,
            scanGate := Armed(overPort, s.scanGate, now, cfg.alertInterval),
            scanAnyGate := Armed(overAny, s.scanAnyGate, now, cfg.alertInterval)),
         When(Fires(overPort, s.scanGate, now, cfg.alertInterval),
              Alert(HorizontalScan, Max(now, 0), src, dst, port, perPort, 0)) +
         When(Fires(overAny, s.scanAnyGate, now, cfg.alertInterval),
              Alert(HostSweep, Max(now, 0), src, dst, port, anyPort, 0)))
  }

  /** Out:in ratio past the limit, with a floor on the volume. */
  predicate Lopsided(cfg: Config, sent: nat, received: nat) {
    sent > cfg.exfilRatioMinBytes && sent as real / Max(received, 1) as real > cfg.exfilRatio
  }

  function SourceBytes(cfg: Config, s: Source, now: int, src: IpAddr, dst: IpAddr, port: Port, bytesOut: nat,
      bytesIn: nat): (r: Step<Source>)
    requires s.Valid()
    ensures r.state.Valid()
  {
    var sentRate, receivedRate := RateAdd(s.bytesOut, now, bytesOut), RateAdd(s.bytesIn, now, bytesIn);
    var sent, received := RateTotal(sentRate, now), RateTotal(receivedRate, now);
    var over, lopsided := sent > cfg.exfilBytes, Lopsided(cfg, sent, received);
    Step(s.(bytesOut := sentRate, bytesIn := receivedRate,
            exfilGate := Armed(over, s.exfilGate, now, cfg.alertInterval),
            ratioGate := Armed(lopsided, s.ratioGate, now, cfg.alertInterval)),
         When(Fires(over, s.exfilGate, now, cfg.alertInterval),
              Alert(ExfilVolume, Max(now, 0), src, dst, port, sent, 0)) +
         When(Fires(lopsided, s.ratioGate, now, cfg.alertInterval),
              Alert(ExfilRatio, Max(now, 0), src, dst, port, sent, received)))
  }

  function PairAttempt(cfg: Config, p: Pair, now: int, key: PairKey): (r: Step<Pair>)
    requires p.Valid()
    ensures r.state.Valid()
  {
    var rate := RateAdd(p.authAttempts, now, 1);
    var attempts := RateTotal(rate, now);
    var over := attempts > cfg.bruteForceAttempts;
    Step(p.(authAttempts := rate, authGate := Armed(over, p.authGate, now, cfg.alertInterval)),
         When(Fires(over, p.authGate, now, cfg.alertInterval),
              Alert(BruteForceAttempts, Max(now, 0), key.src, key.dst, key.port, attempts, 0)))
  }

  function PairFailure(cfg: Config, p: Pair, now: int, key: PairKey): (r: Step<Pair>)
    requires p.Valid()
    ensures r.state.Valid()
  {
    var rate := RateAdd(p.authFailures, now, 1);
    var failures := RateTotal(rate, now);
    var over := failures > cfg.bruteForceFailures;
    Step(p.(authFailures := rate, failureGate := Armed(over, p.failureGate, now, cfg.alertInterval)),
         When(Fires(over, p.failureGate, now, cfg.alertInterval),
              Alert(BruteForceFailures, Max(now, 0), key.src, key.dst, key.port, failures, 0)))
  }

  /** The source handlers, each of which a full table refuses. */
  function OnSource(cfg: Config, e: Engine, src: IpAddr, now: int, handled: Step<Source>): Step<Engine> {
    if SourceRefused(cfg, e, src) then Step(e.(sourcesRefused := e.sourcesRefused + 1), [])
    else Step(e.(sources := e.sources[src := handled.state]), handled.alerts)
  }

  function OnPair(cfg: Config, e: Engine, key: PairKey, handled: Step<Pair>): Step<Engine> {
    if PairRefused(cfg, e, key) then Step(e.(pairsRefused := e.pairsRefused + 1), [])
    else Step(e.(pairs := e.pairs[key := handled.state]), handled.alerts)
  }

  function OnBytes(cfg: Config, e: Engine, now: int, src: IpAddr, dst: IpAddr, port: Port, bytesOut: nat,
      bytesIn: nat): Step<Engine>
    requires e.Valid()
  {
    OnSource(cfg, e, src, now, SourceBytes(cfg, SourceAt(cfg, e, src, now), now, src, dst, port, bytesOut, bytesIn))
  }

  /** A finished connection: touches its service's state, then counts its bytes. Group traffic does neither. */
  function OnFlow(cfg: Config, e: Engine, now: int, src: IpAddr, dst: IpAddr, port: Port, bytesOut: nat,
      bytesIn: nat): Step<Engine>
    requires e.Valid()
  {
    if IsBroadcastLike(dst) then Step(e, [])
    else
      var key := PairKey(src, dst, port);
      var touched := OnPair(cfg, e, key, Step(PairAt(cfg, e, key, now), []));
      OnBytes(cfg, touched.state, now, src, dst, port, bytesOut, bytesIn)
  }

  function OnUnanswered(cfg: Config, e: Engine, now: int, src: IpAddr, dst: IpAddr, port: Port): Step<Engine>
    requires e.Valid()
  {
    OnSource(cfg, e, src, now, SourceUnanswered(cfg, SourceAt(cfg, e, src, now), now, src, dst, port))
  }

  function Dispatch(cfg: Config, e: Engine, o: Observation): Step<Engine>
    requires e.Valid()
  {
    var now := o.ts;
    match o
    case AuthAttempt(_, src, dst, port, _) =>
      var key := PairKey(src, dst, port);
      OnPair(cfg, e, key, PairAttempt(cfg, PairAt(cfg, e, key, now), now, key))
    case AuthFailure(_, src, dst, port, _) =>
      var key := PairKey(src, dst, port);
      OnPair(cfg, e, key, PairFailure(cfg, PairAt(cfg, e, key, now), now, key))
    case Flow(_, src, dst, port, bytesOut, bytesIn, answered) =>
      var first := if answered then Step(e, []) else OnUnanswered(cfg, e, now, src, dst, port);
      var second := OnFlow(cfg, first.state, now, src, dst, port, bytesOut, bytesIn);
      Step(second.state, first.alerts + second.alerts)
    case Volume(_, src, packets) =>
      OnSource(cfg, e, src, now, SourceVolume(cfg, SourceAt(cfg, e, src, now), now, src, packets))
    case Traffic(_, src, dst, port, bytesOut, bytesIn) =>
      if IsBroadcastLike(dst) then Step(e, []) else OnBytes(cfg, e, now, src, dst, port, bytesOut, bytesIn)
    case DnsQuery(_, _, _, _) => Step(e, [])
  }

  /** One observation: sweep on its clock, then judge it. */
  function Observe(cfg: Config, e: Engine, o: Observation): Step<Engine>
    requires e.Valid()
  {
    Dispatch(cfg, Swept(cfg, e, o.ts), o)
  }

  lemma SweptKeepsValid(cfg: Config, e: Engine, now: int)
    requires e.Valid()
    ensures Swept(cfg, e, now).Valid()
  {
  }

  lemma BytesKeepsValid(cfg: Config, e: Engine, now: int, src: IpAddr, dst: IpAddr, port: Port, bytesOut: nat,
      bytesIn: nat)
    requires e.Valid()
    ensures OnBytes(cfg, e, now, src, dst, port, bytesOut, bytesIn).state.Valid()
  {
    hide SourceBytes;
  }

  lemma UnansweredKeepsValid(cfg: Config, e: Engine, now: int, src: IpAddr, dst: IpAddr, port: Port)
    requires e.Valid()
    ensures OnUnanswered(cfg, e, now, src, dst, port).state.Valid()
  {
    hide SourceUnanswered;
  }

  lemma FlowKeepsValid(cfg: Config, e: Engine, now: int, src: IpAddr, dst: IpAddr, port: Port, bytesOut: nat,
      bytesIn: nat)
    requires e.Valid()
    ensures OnFlow(cfg, e, now, src, dst, port, bytesOut, bytesIn).state.Valid()
  {
    hide OnBytes;
    var key := PairKey(src, dst, port);
    BytesKeepsValid(cfg, OnPair(cfg, e, key, Step(PairAt(cfg, e, key, now), [])).state, now, src, dst, port, bytesOut,
      bytesIn);
    BytesKeepsValid(cfg, e, now, src, dst, port, bytesOut, bytesIn);
  }

  lemma OnPairKeepsValid(cfg: Config, e: Engine, key: PairKey, handled: Step<Pair>)
    requires e.Valid() && handled.state.Valid()
    ensures OnPair(cfg, e, key, handled).state.Valid()
  {
  }

  lemma OnSourceKeepsValid(cfg: Config, e: Engine, src: IpAddr, now: int, handled: Step<Source>)
    requires e.Valid() && handled.state.Valid()
    ensures OnSource(cfg, e, src, now, handled).state.Valid()
  {
  }

  lemma ObserveKeepsValid(cfg: Config, e: Engine, o: Observation)
    requires e.Valid()
    ensures Observe(cfg, e, o).state.Valid()
  {
    SweptKeepsValid(cfg, e, o.ts);
    hide Swept;
    DispatchKeepsValid(cfg, Swept(cfg, e, o.ts), o);
  }

  lemma DispatchKeepsValid(cfg: Config, e: Engine, o: Observation)
    requires e.Valid()
    ensures Dispatch(cfg, e, o).state.Valid()
  {
    hide OnFlow, OnBytes, OnUnanswered, OnPair, OnSource, SourceVolume, PairAttempt, PairFailure;
    var now := o.ts;
    match o {
      case AuthAttempt(_, src, dst, port, _) =>
        var key := PairKey(src, dst, port);
        OnPairKeepsValid(cfg, e, key, PairAttempt(cfg, PairAt(cfg, e, key, now), now, key));
      case AuthFailure(_, src, dst, port, _) =>
        var key := PairKey(src, dst, port);
        OnPairKeepsValid(cfg, e, key, PairFailure(cfg, PairAt(cfg, e, key, now), now, key));
      case Flow(_, src, dst, port, bytesOut, bytesIn, answered) =>
        UnansweredKeepsValid(cfg, e, now, src, dst, port);
        var first := if answered then e else OnUnanswered(cfg, e, now, src, dst, port).state;
        FlowKeepsValid(cfg, first, now, src, dst, port, bytesOut, bytesIn);
      case Volume(_, src, packets) =>
        OnSourceKeepsValid(cfg, e, src, now, SourceVolume(cfg, SourceAt(cfg, e, src, now), now, src, packets));
      case Traffic(_, src, dst, port, bytesOut, bytesIn) =>
        BytesKeepsValid(cfg, e, now, src, dst, port, bytesOut, bytesIn);
      case DnsQuery(_, _, _, _) =>
    }
  }

  // ----- The engine as the program runs it -----

  /** Acquiring a source and then storing what its handler made of it is one step of the specification. */
  lemma SourceStored(cfg: Config, e: Engine, src: IpAddr, now: int, handled: Step<Source>)
    ensures e.Valid() ==> SourceAt(cfg, e, src, now).Valid()
    ensures OnSource(cfg, e, src, now, handled) ==
      if SourceRefused(cfg, e, src) then Step(e.(sourcesRefused := e.sourcesRefused + 1), [])
      else Step(e.(sources := e.sources[src := SourceAt(cfg, e, src, now)][src := handled.state]), handled.alerts)
  {
    assert e.sources[src := SourceAt(cfg, e, src, now)][src := handled.state] == e.sources[src := handled.state];
  }

  lemma PairStored(cfg: Config, e: Engine, key: PairKey, now: int, handled: Step<Pair>)
    ensures e.Valid() ==> PairAt(cfg, e, key, now).Valid()
    ensures OnPair(cfg, e, key, handled) ==
      if PairRefused(cfg, e, key) then Step(e.(pairsRefused := e.pairsRefused + 1), [])
      else Step(e.(pairs := e.pairs[key := PairAt(cfg, e, key, now)][key := handled.state]), handled.alerts)
  {
    assert e.pairs[key := PairAt(cfg, e, key, now)][key := handled.state] == e.pairs[key := handled.state];
  }

  method JudgeUnanswered(cfg: Config, before: Source, now: int, src: IpAddr, dst: IpAddr, port: Port)
      returns (s: Source, alerts: seq<Alert>)
    requires before.Valid()
    ensures Step(s, alerts) == SourceUnanswered(cfg, before, now, src, dst, port)
  {
    hide Inserted, PortsBounded, PortTable;
    var table := Inserted(PortTable(cfg, before, port), dst, now, cfg.window);
    var any := Inserted(before.unansweredAny, dst, now, cfg.window);
    s := before.(unansweredByPort := PortsBounded(before.unansweredByPort[port := table]), unansweredAny := any);
    alerts := [];
    if |table.seen| > cfg.horizontalScanHosts && Allows(s.scanGate, now, cfg.alertInterval) {
      s := s.(scanGate := Some(now));
      alerts := [Alert(HorizontalScan, Max(now, 0), src, dst, port, |table.seen|, 0)];
    }
    if |any.seen| > cfg.horizontalScanHostsAnyPort && Allows(s.scanAnyGate, now, cfg.alertInterval) {
      s := s.(scanAnyGate := Some(now));
      alerts := alerts + [Alert(HostSweep, Max(now, 0), src, dst, port, |any.seen|, 0)];
    }
    assert alerts == SourceUnanswered(cfg, before, now, src, dst, port).alerts;
  }

  method JudgeBytes(cfg: Config, before: Source, now: int, src: IpAddr, dst: IpAddr, port: Port, bytesOut: nat,
      bytesIn: nat) returns (s: Source, alerts: seq<Alert>)
    requires before.Valid()
    ensures Step(s, alerts) == SourceBytes(cfg, before, now, src, dst, port, bytesOut, bytesIn)
  {
    hide RateAdd, RateTotal;
    s := before.(bytesOut := RateAdd(before.bytesOut, now, bytesOut), bytesIn := RateAdd(before.bytesIn, now, bytesIn));
    var sent, received := RateTotal(s.bytesOut, now), RateTotal(s.bytesIn, now);
    alerts := [];
    if sent > cfg.exfilBytes && Allows(s.exfilGate, now, cfg.alertInterval) {
      s := s.(exfilGate := Some(now));
      alerts := [Alert(ExfilVolume, Max(now, 0), src, dst, port, sent, 0)];
    }
    if sent > cfg.exfilRatioMinBytes {
      var ratio := sent as real / Max(received, 1) as real;
      if ratio > cfg.exfilRatio && Allows(s.ratioGate, now, cfg.alertInterval) {
        s := s.(ratioGate := Some(now));
        alerts := alerts + [Alert(ExfilRatio, Max(now, 0), src, dst, port, sent, received)];
      }
    }
    assert alerts == SourceBytes(cfg, before, now, src, dst, port, bytesOut, bytesIn).alerts;
  }

  class BehaviorEngine {
    const cfg: Config
    var sources: map<IpAddr, Source>
    var pairs: map<PairKey, Pair>
    var lastSwept: int
    var sourcesRefused: nat
    var pairsRefused: nat

    function View(): Engine
      reads this
    {
      Engine(sources, pairs, lastSwept, sourcesRefused, pairsRefused)
    }

    constructor (c: Config)
      ensures cfg == c && View() == INITIAL
    {
      cfg, sources, pairs, lastSwept := c, map[], map[], 0;
      sourcesRefused, pairsRefused := 0, 0;
    }

    method Sweep(now: int)
      modifies this
      ensures View() == Swept(cfg, old(View()), now)
    {
      if now <= lastSwept {
        return;
      }
      lastSwept := now;
      var cutoff := now - cfg.window;
      sources := map k | k in sources && sources[k].lastSeen > cutoff :: sources[k];
      pairs := map k | k in pairs && pairs[k].lastSeen > cutoff :: pairs[k];
    }

    /** Creates or finds a source's state and stamps it; a full table refuses newcomers. */
    method AcquireSource(src: IpAddr, now: int) returns (granted: bool)
      modifies this
      ensures granted == !SourceRefused(cfg, old(View()), src)
      ensures View() == if granted
        then old(View()).(sources := old(sources)[src := SourceAt(cfg, old(View()), src, now)])
        else old(View()).(sourcesRefused := old(sourcesRefused) + 1)
    {
      if src !in sources && |sources| >= cfg.maxSources {
        sourcesRefused := sourcesRefused + 1;
        return false;
      }
      var s := if src in sources then sources[src] else FreshSource(cfg, now);
      sources := sources[src := s.(lastSeen := now)];
      return true;
    }

    method AcquirePair(key: PairKey, now: int) returns (granted: bool)
      modifies this
      ensures granted == !PairRefused(cfg, old(View()), key)
      ensures View() == if granted
        then old(View()).(pairs := old(pairs)[key := PairAt(cfg, old(View()), key, now)])
        else old(View()).(pairsRefused := old(pairsRefused) + 1)
    {
      if key !in pairs && |pairs| >= cfg.maxPairs {
        pairsRefused := pairsRefused + 1;
        return false;
      }
      var p := if key in pairs then pairs[key] else FreshPair(cfg, now);
      pairs := pairs[key := p.(lastSeen := now)];
      return true;
    }

    method OnVolume(now: int, src: IpAddr, packets: nat) returns (alerts: seq<Alert>)
      requires View().Valid()
      modifies this
      ensures Step(View(), alerts) ==
        OnSource(cfg, old(View()), src, now, SourceVolume(cfg, SourceAt(cfg, old(View()), src, now), now, src, packets))
    {
      hide RateAdd, RateTotal, SourceAt, SourceRefused, FreshSource, OnSource;
      ghost var e := View();
      ghost var before := SourceAt(cfg, e, src, now);
      SourceStored(cfg, e, src, now, Step(before, []));
      ghost var handled := SourceVolume(cfg, before, now, src, packets);
      SourceStored(cfg, e, src, now, handled);
      var granted := AcquireSource(src, now);
      if !granted {
        return [];
      }
      var s := sources[src];
      var rate := RateAdd(s.packets, now, packets);
      var total := RateTotal(rate, now);
      s := s.(packets := rate);
      alerts := [];
      if total > cfg.floodLimit && Allows(s.floodGate, now, cfg.floodInterval) {
        s := s.(floodGate := Some(now));
        alerts := [Alert(PacketFlood, Max(now, 0), src, UNSPECIFIED, 0, total, 0)];
      }
      assert alerts == handled.alerts && s == handled.state;
      sources := sources[src := s];
    }

    method OnFailedConnection(now: int, src: IpAddr, dst: IpAddr, port: Port) returns (alerts: seq<Alert>)
      requires View().Valid()
      modifies this
      ensures Step(View(), alerts) == OnUnanswered(cfg, old(View()), now, src, dst, port)
    {
      hide SourceUnanswered, SourceAt, SourceRefused, FreshSource, OnSource;
      ghost var e := View();
      ghost var before := SourceAt(cfg, e, src, now);
      SourceStored(cfg, e, src, now, Step(before, []));
      SourceStored(cfg, e, src, now, SourceUnanswered(cfg, before, now, src, dst, port));
      var granted := AcquireSource(src, now);
      if !granted {
        return [];
      }
      var s;
      s, alerts := JudgeUnanswered(cfg, sources[src], now, src, dst, port);
      sources := sources[src := s];
    }

    method OnBytesMoved(now: int, src: IpAddr, dst: IpAddr, port: Port, bytesOut: nat, bytesIn: nat)
        returns (alerts: seq<Alert>)
      requires View().Valid()
      modifies this
      ensures Step(View(), alerts) == OnBytes(cfg, old(View()), now, src, dst, port, bytesOut, bytesIn)
    {
      hide SourceBytes, SourceAt, SourceRefused, FreshSource, OnSource;
      ghost var e := View();
      ghost var before := SourceAt(cfg, e, src, now);
      SourceStored(cfg, e, src, now, Step(before, []));
      SourceStored(cfg, e, src, now, SourceBytes(cfg, before, now, src, dst, port, bytesOut, bytesIn));
      var granted := AcquireSource(src, now);
      if !granted {
        return [];
      }
      var s;
      s, alerts := JudgeBytes(cfg, sources[src], now, src, dst, port, bytesOut, bytesIn);
      sources := sources[src := s];
    }

    method OnAuth(now: int, key: PairKey) returns (alerts: seq<Alert>)
      requires View().Valid()
      modifies this
      ensures Step(View(), alerts) == OnPair(cfg, old(View()), key,
        PairAttempt(cfg, PairAt(cfg, old(View()), key, now), now, key))
    {
      hide RateAdd, RateTotal, PairAt, PairRefused, FreshPair, OnPair;
      ghost var e := View();
      ghost var before := PairAt(cfg, e, key, now);
      PairStored(cfg, e, key, now, Step(before, []));
      ghost var handled := PairAttempt(cfg, before, now, key);
      PairStored(cfg, e, key, now, handled);
      var granted := AcquirePair(key, now);
      if !granted {
        return [];
      }
      var p := pairs[key];
      p := p.(authAttempts := RateAdd(p.authAttempts, now, 1));
      var attempts := RateTotal(p.authAttempts, now);
      alerts := [];
      if attempts > cfg.bruteForceAttempts && Allows(p.authGate, now, cfg.alertInterval) {
        p := p.(authGate := Some(now));
        alerts := [Alert(BruteForceAttempts, Max(now, 0), key.src, key.dst, key.port, attempts, 0)];
      }
      assert alerts == handled.alerts && p == handled.state;
      pairs := pairs[key := p];
    }

    method OnAuthFailure(now: int, key: PairKey) returns (alerts: seq<Alert>)
      requires View().Valid()
      modifies this
      ensures Step(View(), alerts) == OnPair(cfg, old(View()), key,
        PairFailure(cfg, PairAt(cfg, old(View()), key, now), now, key))
    {
      hide RateAdd, RateTotal, PairAt, PairRefused, FreshPair, OnPair;
      ghost var e := View();
      ghost var before := PairAt(cfg, e, key, now);
      PairStored(cfg, e, key, now, Step(before, []));
      ghost var handled := PairFailure(cfg, before, now, key);
      PairStored(cfg, e, key, now, handled);
      var granted := AcquirePair(key, now);
      if !granted {
        return [];
      }
      var p := pairs[key];
      p := p.(authFailures := RateAdd(p.authFailures, now, 1));
      var failures := RateTotal(p.authFailures, now);
      alerts := [];
      if failures > cfg.bruteForceFailures && Allows(p.failureGate, now, cfg.alertInterval) {
        p := p.(failureGate := Some(now));
        alerts := [Alert(BruteForceFailures, Max(now, 0), key.src, key.dst, key.port, failures, 0)];
      }
      assert alerts == handled.alerts && p == handled.state;
      pairs := pairs[key := p];
    }

    method OnFinishedFlow(now: int, src: IpAddr, dst: IpAddr, port: Port, bytesOut: nat, bytesIn: nat)
        returns (alerts: seq<Alert>)
      requires View().Valid()
      modifies this
      ensures Step(View(), alerts) == OnFlow(cfg, old(View()), now, src, dst, port, bytesOut, bytesIn)
    {
      ghost var key, e := PairKey(src, dst, port), View();
      OnPairKeepsValid(cfg, e, key, Step(PairAt(cfg, e, key, now), []));
      hide IsBroadcastLike, OnBytes, PairAt;
      if IsBroadcastLike(dst) {
        return [];
      }
      var granted := AcquirePair(PairKey(src, dst, port), now);
      assert View() == OnPair(cfg, e, key, Step(PairAt(cfg, e, key, now), [])).state;
      alerts := OnBytesMoved(now, src, dst, port, bytesOut, bytesIn);
    }

    method ObserveNext(o: Observation) returns (alerts: seq<Alert>)
      requires View().Valid()
      modifies this
      ensures View().Valid()
      ensures Step(View(), alerts) == Observe(cfg, old(View()), o)
    {
      ObserveKeepsValid(cfg, View(), o);
      hide OnSource, OnPair, OnBytes, OnFlow, OnUnanswered, SourceVolume, PairAttempt, PairFailure;
      var now := o.ts;
      Sweep(now);
      match o {
        case AuthAttempt(_, src, dst, port, _) =>
          alerts := OnAuth(now, PairKey(src, dst, port));
        case AuthFailure(_, src, dst, port, _) =>
          alerts := OnAuthFailure(now, PairKey(src, dst, port));
        case Flow(_, src, dst, port, bytesOut, bytesIn, answered) =>
          alerts := [];
          if !answered {
            UnansweredKeepsValid(cfg, View(), now, src, dst, port);
            alerts := OnFailedConnection(now, src, dst, port);
          }
          var more := OnFinishedFlow(now, src, dst, port, bytesOut, bytesIn);
          alerts := alerts + more;
        case Volume(_, src, packets) =>
          alerts := OnVolume(now, src, packets);
        case Traffic(_, src, dst, port, bytesOut, bytesIn) =>
          alerts := [];
          if !IsBroadcastLike(dst) {
            alerts := OnBytesMoved(now, src, dst, port, bytesOut, bytesIn);
          }
        case DnsQuery(_, _, _, _) =>
          alerts := [];
      }
    }
  }
}
