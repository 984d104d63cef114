/** The 1024-port bound on a source's unanswered ports (src/behavior.rs, `on_failed_connection`), over whole runs. */
module PortBound {
  import opened Observations
  import opened Windows
  import opened Behavior
  import opened BehaviorTheorems

  /** Every per-port table of a source holds a host. */
  ghost predicate Inhabited(s: Source) {
    forall p :: p in s.unansweredByPort ==> s.unansweredByPort[p].seen != map[] && s.unansweredByPort[p].cap >= 1
  }

  ghost predicate AllInhabited(e: Engine) {
    forall src :: src in e.sources ==> Inhabited(e.sources[src])
  }

  lemma EnteredInhabited(cfg: Config, s: Source, now: int, src: IpAddr, dst: IpAddr, port: Port)
    requires s.Valid() && Inhabited(s)
    ensures PortsBounded(PortsEntered(cfg, s, now, dst, port)) == PortsEntered(cfg, s, now, dst, port)
    ensures Inhabited(SourceUnanswered(cfg, s, now, src, dst, port).state)
  {
    var table := PortTable(cfg, s, port);
    assert table.cap >= 1;
    InsertNeverEmpty(table, dst, now, cfg.window);
    assert Inserted(table, dst, now, cfg.window).cap == table.cap;
    var ports := PortsEntered(cfg, s, now, dst, port);
    hide Inserted, PortTable;
    PortBoundDropsNothing(ports);
  }

  lemma SourceHandled(cfg: Config, e: Engine, src: IpAddr, now: int, handled: Step<Source>)
    requires AllInhabited(e) && Inhabited(handled.state)
    ensures AllInhabited(OnSource(cfg, e, src, now, handled).state)
  {
  }

  lemma AcquiredInhabited(cfg: Config, e: Engine, src: IpAddr, now: int)
    requires AllInhabited(e)
    ensures Inhabited(SourceAt(cfg, e, src, now))
  {
  }

  lemma BytesInhabited(cfg: Config, e: Engine, now: int, src: IpAddr, dst: IpAddr, port: Port, bytesOut: nat,
      bytesIn: nat)
    requires e.Valid() && AllInhabited(e)
    ensures AllInhabited(OnBytes(cfg, e, now, src, dst, port, bytesOut, bytesIn).state)
  {
    AcquiredInhabited(cfg, e, src, now);
    var handled := SourceBytes(cfg, SourceAt(cfg, e, src, now), now, src, dst, port, bytesOut, bytesIn);
    assert handled.state.unansweredByPort == SourceAt(cfg, e, src, now).unansweredByPort;
    SourceHandled(cfg, e, src, now, handled);
  }

  lemma FlowInhabited(cfg: Config, e: Engine, now: int, src: IpAddr, dst: IpAddr, port: Port, bytesOut: nat,
      bytesIn: nat)
    requires e.Valid() && AllInhabited(e)
    ensures AllInhabited(OnFlow(cfg, e, now, src, dst, port, bytesOut, bytesIn).state)
  {
    hide OnBytes;
    var key := PairKey(src, dst, port);
    if !IsBroadcastLike(dst) {
      BytesInhabited(cfg, OnPair(cfg, e, key, Step(PairAt(cfg, e, key, now), [])).state, now, src, dst, port,
        bytesOut, bytesIn);
    }
  }

  lemma UnansweredInhabited(cfg: Config, e: Engine, now: int, src: IpAddr, dst: IpAddr, port: Port)
    requires e.Valid() && AllInhabited(e)
    ensures AllInhabited(OnUnanswered(cfg, e, now, src, dst, port).state)
  {
    AcquiredInhabited(cfg, e, src, now);
    EnteredInhabited(cfg, SourceAt(cfg, e, src, now), now, src, dst, port);
    hide SourceUnanswered, Inhabited;
    SourceHandled(cfg, e, src, now, SourceUnanswered(cfg, SourceAt(cfg, e, src, now), now, src, dst, port));
  }

  lemma ObserveInhabited(cfg: Config, e: Engine, o: Observation)
    requires e.Valid() && AllInhabited(e)
    ensures AllInhabited(Observe(cfg, e, o).state)
  {
    SweptKeepsValid(cfg, e, o.ts);
    var swept, now := Swept(cfg, e, o.ts), o.ts;
    assert AllInhabited(swept);
    hide Swept, OnBytes, OnFlow, OnUnanswered, AllInhabited;
    match o
    case AuthAttempt(_, src, dst, port, _) =>
      var key := PairKey(src, dst, port);
      PairsApart(cfg, swept, key, PairAttempt(cfg, PairAt(cfg, swept, key, now), now, key));
    case AuthFailure(_, src, dst, port, _) =>
      var key := PairKey(src, dst, port);
      PairsApart(cfg, swept, key, PairFailure(cfg, PairAt(cfg, swept, key, now), now, key));
    case Flow(_, src, dst, port, bytesOut, bytesIn, answered) =>
      if !answered {
        UnansweredKeepsValid(cfg, swept, now, src, dst, port);
        UnansweredInhabited(cfg, swept, now, src, dst, port);
        FlowInhabited(cfg, OnUnanswered(cfg, swept, now, src, dst, port).state, now, src, dst, port, bytesOut, bytesIn);
      } else {
        FlowInhabited(cfg, swept, now, src, dst, port, bytesOut, bytesIn);
      }
    case Volume(_, src, packets) =>
      VolumeInhabited(cfg, swept, now, src, packets);
    case Traffic(_, src, dst, port, bytesOut, bytesIn) =>
      BytesInhabited(cfg, swept, now, src, dst, port, bytesOut, bytesIn);
    case DnsQuery(_, _, _, _) =>
  }

  lemma PairsApart(cfg: Config, e: Engine, key: PairKey, handled: Step<Pair>)
    requires AllInhabited(e)
    ensures AllInhabited(OnPair(cfg, e, key, handled).state)
  {
  }

  lemma VolumeInhabited(cfg: Config, e: Engine, now: int, src: IpAddr, packets: nat)
    requires e.Valid() && AllInhabited(e)
    ensures var handled := SourceVolume(cfg, SourceAt(cfg, e, src, now), now, src, packets);
      AllInhabited(OnSource(cfg, e, src, now, handled).state)
  {
    AcquiredInhabited(cfg, e, src, now);
    var handled := SourceVolume(cfg, SourceAt(cfg, e, src, now), now, src, packets);
    assert handled.state.unansweredByPort == SourceAt(cfg, e, src, now).unansweredByPort;
    SourceHandled(cfg, e, src, now, handled);
  }

  lemma {:induction false} RunInhabited(cfg: Config, run: seq<Observation>)
    ensures AllInhabited(RunEngine(cfg, run).state)
  {
    if run != [] {
      hide Observe, AllInhabited;
      RunInhabited(cfg, run[..|run| - 1]);
      ObserveInhabited(cfg, RunEngine(cfg, run[..|run| - 1]).state, run[|run| - 1]);
    } else {
      assert AllInhabited(INITIAL);
    }
  }

  /**
   * On every run whatever, the bound finds no empty table and drops nothing, however many ports a source has failed
   * on.
   */
  lemma PortBoundNeverBites(cfg: Config, run: seq<Observation>, now: int, src: IpAddr, dst: IpAddr, port: Port)
    ensures var s := SourceAt(cfg, Swept(cfg, RunEngine(cfg, run).state, now), src, now);
            PortsBounded(PortsEntered(cfg, s, now, dst, port)) == PortsEntered(cfg, s, now, dst, port)
  {
    RunInhabited(cfg, run);
    var swept := Swept(cfg, RunEngine(cfg, run).state, now);
    SweptKeepsValid(cfg, RunEngine(cfg, run).state, now);
    assert AllInhabited(swept);
    AcquiredInhabited(cfg, swept, src, now);
    hide Swept, RunEngine, PortsEntered, PortsBounded;
    EnteredInhabited(cfg, SourceAt(cfg, swept, src, now), now, src, dst, port);
  }
}
