/** What the size limits of the behavioural tables guarantee on every run, in order of time or not. */
module TableLimits {
  import opened Base
  import opened Observations
  import opened Windows
  import opened Behavior
  import opened BehaviorTheorems

  // ----- One host table -----

  lemma PrunedShrinks<K>(w: Distinct<K>, now: int, window: int)
    ensures var p := Pruned(w, now, window);
      p.seen.Keys <= w.seen.Keys && |p.seen| <= |w.seen| && p.cap == w.cap && p.refused == w.refused
  {
    var p := Pruned(w, now, window);
    SubsetIsNoLarger(p.seen.Keys, w.seen.Keys);
    assert |p.seen| == |p.seen.Keys| && |w.seen| == |w.seen.Keys|;
  }

  lemma EntrySize<K, V>(m: map<K, V>, k: K, v: V)
    ensures |m[k := v]| == |m| + if k in m then 0 else 1
  {
    assert m[k := v].Keys == m.Keys + {k};
    assert |m| == |m.Keys| && |m[k := v]| == |m[k := v].Keys|;
  }

  /**
   * A host table never passes its cap. A new key is turned away exactly when the cap's worth of others is still held,
   * and then nothing but the counter changes.
   */
  lemma HostTableIsBounded<K>(w: Distinct<K>, key: K, now: int, window: int)
    requires |w.seen| <= w.cap
    ensures var p, r := Pruned(w, now, window), Inserted(w, key, now, window);
      && |r.seen| <= w.cap == r.cap
      && (r.refused != w.refused <==> key !in p.seen && |p.seen| == w.cap)
      && (r.refused != w.refused ==> r.seen == p.seen && r.refused == w.refused + 1)
      && (r.refused == w.refused ==> r.seen == p.seen[key := now])
  {
    PrunedShrinks(w, now, window);
    hide Pruned;
    EntrySize(Pruned(w, now, window).seen, key, now);
  }

  // ----- One source -----

  ghost predicate TableFits(cfg: Config, w: Distinct<IpAddr>) {
    w.cap == Max(cfg.maxPairs, 1) && |w.seen| <= Max(cfg.maxPairs, 1)
  }

  ghost predicate SourceFits(cfg: Config, s: Source) {
    && TableFits(cfg, s.unansweredAny)
    && forall port :: port in s.unansweredByPort ==> TableFits(cfg, s.unansweredByPort[port])
  }

  ghost predicate Fits(cfg: Config, e: Engine) {
    && |e.sources| <= cfg.maxSources
    && |e.pairs| <= cfg.maxPairs
    && forall src :: src in e.sources ==> SourceFits(cfg, e.sources[src])
  }

  lemma InsertFits(cfg: Config, w: Distinct<IpAddr>, dst: IpAddr, now: int, window: int)
    requires TableFits(cfg, w)
    ensures TableFits(cfg, Inserted(w, dst, now, window))
  {
    HostTableIsBounded(w, dst, now, window);
  }

  /** The port bound changes nothing up to 1024 ports; past them it keeps exactly the ports that hold a host. */
  lemma PortBoundIs(ports: map<Port, Distinct<IpAddr>>)
    ensures var kept := PortsBounded(ports);
      && (kept == ports <==> |ports| <= 1024 || forall port :: port in ports ==> ports[port].seen != map[])
      && (forall port :: port in kept <==> port in ports && (|ports| <= 1024 || ports[port].seen != map[]))
      && (forall port :: port in kept ==> kept[port] == ports[port])
  {
    var kept := PortsBounded(ports);
    forall port | port in ports
      ensures |ports[port].seen| > 0 <==> ports[port].seen != map[]
    {
      assert |ports[port].seen| == |ports[port].seen.Keys|;
    }
    forall port | port in kept
      ensures port in ports && kept[port] == ports[port]
    {
    }
  }

  lemma UnansweredFits(cfg: Config, s: Source, now: int, src: IpAddr, dst: IpAddr, port: Port)
    requires s.Valid() && SourceFits(cfg, s)
    ensures SourceFits(cfg, SourceUnanswered(cfg, s, now, src, dst, port).state)
  {
    var table := PortTable(cfg, s, port);
    assert TableFits(cfg, table);
    InsertFits(cfg, table, dst, now, cfg.window);
    InsertFits(cfg, s.unansweredAny, dst, now, cfg.window);
    PortBoundIs(PortsEntered(cfg, s, now, dst, port));
    hide TableFits, Inserted, PortsBounded, PortTable;
  }

  lemma CountingFits(cfg: Config, s: Source, now: int, src: IpAddr, dst: IpAddr, port: Port, packets: nat,
      bytesOut: nat, bytesIn: nat)
    requires s.Valid() && SourceFits(cfg, s)
    ensures SourceFits(cfg, SourceVolume(cfg, s, now, src, packets).state)
    ensures SourceFits(cfg, SourceBytes(cfg, s, now, src, dst, port, bytesOut, bytesIn).state)
  {
  }

  // ----- The engine -----

  lemma AcquiredFits(cfg: Config, e: Engine, src: IpAddr, now: int)
    requires Fits(cfg, e)
    ensures SourceFits(cfg, SourceAt(cfg, e, src, now))
  {
  }

  lemma SweptFits(cfg: Config, e: Engine, now: int)
    requires Fits(cfg, e)
    ensures Fits(cfg, Swept(cfg, e, now))
  {
    hide SourceFits;
    var r := Swept(cfg, e, now);
    SubsetIsNoLarger(r.sources.Keys, e.sources.Keys);
    SubsetIsNoLarger(r.pairs.Keys, e.pairs.Keys);
    assert |r.sources| == |r.sources.Keys| && |r.pairs| == |r.pairs.Keys|;
    assert |e.sources| == |e.sources.Keys| && |e.pairs| == |e.pairs.Keys|;
  }

  lemma OnSourceFits(cfg: Config, e: Engine, src: IpAddr, now: int, handled: Step<Source>)
    requires Fits(cfg, e) && SourceFits(cfg, handled.state)
    ensures Fits(cfg, OnSource(cfg, e, src, now, handled).state)
  {
    hide SourceFits;
    EntrySize(e.sources, src, handled.state);
  }

  lemma OnPairFits(cfg: Config, e: Engine, key: PairKey, handled: Step<Pair>)
    requires Fits(cfg, e)
    ensures Fits(cfg, OnPair(cfg, e, key, handled).state)
  {
    hide SourceFits;
    EntrySize(e.pairs, key, handled.state);
  }

  lemma BytesFits(cfg: Config, e: Engine, now: int, src: IpAddr, dst: IpAddr, port: Port, bytesOut: nat, bytesIn: nat)
    requires e.Valid() && Fits(cfg, e)
    ensures Fits(cfg, OnBytes(cfg, e, now, src, dst, port, bytesOut, bytesIn).state)
  {
    hide Fits, SourceFits, SourceBytes, OnSource;
    AcquiredFits(cfg, e, src, now);
    CountingFits(cfg, SourceAt(cfg, e, src, now), now, src, dst, port, 0, bytesOut, bytesIn);
    OnSourceFits(cfg, e, src, now,
                 SourceBytes(cfg, SourceAt(cfg, e, src, now), now, src, dst, port, bytesOut, bytesIn));
  }

  lemma FailedFits(cfg: Config, e: Engine, now: int, src: IpAddr, dst: IpAddr, port: Port)
    requires e.Valid() && Fits(cfg, e)
    ensures Fits(cfg, OnUnanswered(cfg, e, now, src, dst, port).state)
  {
    hide Fits, SourceFits, SourceUnanswered, OnSource;
    AcquiredFits(cfg, e, src, now);
    UnansweredFits(cfg, SourceAt(cfg, e, src, now), now, src, dst, port);
    OnSourceFits(cfg, e, src, now, SourceUnanswered(cfg, SourceAt(cfg, e, src, now), now, src, dst, port));
  }

  lemma VolumeFits(cfg: Config, e: Engine, now: int, src: IpAddr, packets: nat)
    requires e.Valid() && Fits(cfg, e)
    ensures Fits(cfg, OnSource(cfg, e, src, now,
                               SourceVolume(cfg, SourceAt(cfg, e, src, now), now, src, packets)).state)
  {
    hide Fits, SourceFits, SourceVolume, OnSource;
    AcquiredFits(cfg, e, src, now);
    CountingFits(cfg, SourceAt(cfg, e, src, now), now, src, src, 0, packets, 0, 0);
    OnSourceFits(cfg, e, src, now, SourceVolume(cfg, SourceAt(cfg, e, src, now), now, src, packets));
  }

  lemma FlowFits(cfg: Config, e: Engine, now: int, src: IpAddr, dst: IpAddr, port: Port, bytesOut: nat, bytesIn: nat)
    requires e.Valid() && Fits(cfg, e)
    ensures Fits(cfg, OnFlow(cfg, e, now, src, dst, port, bytesOut, bytesIn).state)
  {
    hide Fits, OnPair, OnBytes, IsBroadcastLike;
    if !IsBroadcastLike(dst) {
      var key := PairKey(src, dst, port);
      var handled := Step(PairAt(cfg, e, key, now), []);
      OnPairKeepsValid(cfg, e, key, handled);
      OnPairFits(cfg, e, key, handled);
      BytesFits(cfg, OnPair(cfg, e, key, handled).state, now, src, dst, port, bytesOut, bytesIn);
    }
  }

  lemma DispatchFits(cfg: Config, e: Engine, o: Observation)
    requires e.Valid() && Fits(cfg, e)
    ensures Fits(cfg, Dispatch(cfg, e, o).state)
  {
    hide Fits, OnPair, OnSource, OnBytes, OnFlow, OnUnanswered, SourceVolume, PairAttempt, PairFailure;
    hide IsBroadcastLike;
    var now := o.ts;
    match o {
      case AuthAttempt(_, src, dst, port, _) =>
        var key := PairKey(src, dst, port);
        OnPairFits(cfg, e, key, PairAttempt(cfg, PairAt(cfg, e, key, now), now, key));
      case AuthFailure(_, src, dst, port, _) =>
        var key := PairKey(src, dst, port);
        OnPairFits(cfg, e, key, PairFailure(cfg, PairAt(cfg, e, key, now), now, key));
      case Flow(_, src, dst, port, bytesOut, bytesIn, answered) =>
        if answered {
          FlowFits(cfg, e, now, src, dst, port, bytesOut, bytesIn);
        } else {
          UnansweredKeepsValid(cfg, e, now, src, dst, port);
          FailedFits(cfg, e, now, src, dst, port);
          FlowFits(cfg, OnUnanswered(cfg, e, now, src, dst, port).state, now, src, dst, port, bytesOut, bytesIn);
        }
      case Volume(_, src, packets) =>
        VolumeFits(cfg, e, now, src, packets);
      case Traffic(_, src, dst, port, bytesOut, bytesIn) =>
        BytesFits(cfg, e, now, src, dst, port, bytesOut, bytesIn);
      case DnsQuery(_, _, _, _) =>
    }
  }

  /**
   * On every run the engine holds no more sources and services than configured, and no source more hosts in any of
   * its tables.
   */
  lemma {:induction false} TablesAreBounded(cfg: Config, run: seq<Observation>)
    ensures var e := RunEngine(cfg, run).state;
      && |e.sources| <= cfg.maxSources
      && |e.pairs| <= cfg.maxPairs
      && forall src :: src in e.sources ==>
           && |e.sources[src].unansweredAny.seen| <= Max(cfg.maxPairs, 1)
           && forall port :: port in e.sources[src].unansweredByPort ==>
                |e.sources[src].unansweredByPort[port].seen| <= Max(cfg.maxPairs, 1)
  {
    hide RunEngine;
    RunFits(cfg, run);
  }

  lemma {:induction false} RunFits(cfg: Config, run: seq<Observation>)
    ensures Fits(cfg, RunEngine(cfg, run).state)
  {
    if run != [] {
      hide Fits, Swept, Dispatch;
      var front, o := run[..|run| - 1], run[|run| - 1];
      RunFits(cfg, front);
      var e := RunEngine(cfg, front).state;
      SweptFits(cfg, e, o.ts);
      SweptKeepsValid(cfg, e, o.ts);
      DispatchFits(cfg, Swept(cfg, e, o.ts), o);
    }
  }

  // ----- Whom one observation touches -----

  function SourcesOf(o: Observation): set<IpAddr> {
    if o.AuthAttempt? || o.AuthFailure? || o.DnsQuery? then {} else {o.src}
  }

  function ServicesOf(o: Observation): set<PairKey> {
    if o.AuthAttempt? || o.AuthFailure? || o.Flow? then {PairKey(o.src, o.dst, o.dstPort)} else {}
  }

  /** Everything but these sources and services is as it was. */
  ghost predicate Elsewhere(e: Engine, r: Engine, srcs: set<IpAddr>, keys: set<PairKey>) {
    && r.sources - srcs == e.sources - srcs
    && r.pairs - keys == e.pairs - keys
  }

  lemma OnSourceElsewhere(cfg: Config, e: Engine, src: IpAddr, now: int, handled: Step<Source>, keys: set<PairKey>)
    ensures Elsewhere(e, OnSource(cfg, e, src, now, handled).state, {src}, keys)
  {
  }

  lemma OnPairElsewhere(cfg: Config, e: Engine, key: PairKey, handled: Step<Pair>, srcs: set<IpAddr>)
    ensures Elsewhere(e, OnPair(cfg, e, key, handled).state, srcs, {key})
  {
  }

  lemma FlowElsewhere(cfg: Config, e: Engine, now: int, src: IpAddr, dst: IpAddr, port: Port, bytesOut: nat,
      bytesIn: nat)
    requires e.Valid()
    ensures Elsewhere(e, OnFlow(cfg, e, now, src, dst, port, bytesOut, bytesIn).state, {src},
              {PairKey(src, dst, port)})
  {
    hide IsBroadcastLike, OnPair, OnSource, SourceBytes;
    if !IsBroadcastLike(dst) {
      var key := PairKey(src, dst, port);
      var handled := Step(PairAt(cfg, e, key, now), []);
      OnPairKeepsValid(cfg, e, key, handled);
      OnPairElsewhere(cfg, e, key, handled, {src});
      var mid := OnPair(cfg, e, key, handled).state;
      OnSourceElsewhere(cfg, mid, src, now,
                        SourceBytes(cfg, SourceAt(cfg, mid, src, now), now, src, dst, port, bytesOut, bytesIn), {key});
    }
  }

  lemma FailedElsewhere(cfg: Config, e: Engine, now: int, src: IpAddr, dst: IpAddr, port: Port, keys: set<PairKey>)
    requires e.Valid()
    ensures Elsewhere(e, OnUnanswered(cfg, e, now, src, dst, port).state, {src}, keys)
  {
    hide OnSource, SourceUnanswered;
    OnSourceElsewhere(cfg, e, src, now, SourceUnanswered(cfg, SourceAt(cfg, e, src, now), now, src, dst, port), keys);
  }

  lemma DispatchElsewhere(cfg: Config, e: Engine, o: Observation)
    requires e.Valid()
    ensures Elsewhere(e, Dispatch(cfg, e, o).state, SourcesOf(o), ServicesOf(o))
  {
    hide OnPair, OnSource, OnFlow, OnUnanswered, SourceVolume, SourceBytes, PairAttempt, PairFailure, IsBroadcastLike;
    var now := o.ts;
    match o {
      case AuthAttempt(_, src, dst, port, _) =>
        var key := PairKey(src, dst, port);
        OnPairElsewhere(cfg, e, key, PairAttempt(cfg, PairAt(cfg, e, key, now), now, key), {});
      case AuthFailure(_, src, dst, port, _) =>
        var key := PairKey(src, dst, port);
        OnPairElsewhere(cfg, e, key, PairFailure(cfg, PairAt(cfg, e, key, now), now, key), {});
      case Flow(_, src, dst, port, bytesOut, bytesIn, answered) =>
        if answered {
          FlowElsewhere(cfg, e, now, src, dst, port, bytesOut, bytesIn);
        } else {
          UnansweredKeepsValid(cfg, e, now, src, dst, port);
          FailedElsewhere(cfg, e, now, src, dst, port, ServicesOf(o));
          FlowElsewhere(cfg, OnUnanswered(cfg, e, now, src, dst, port).state, now, src, dst, port, bytesOut, bytesIn);
        }
      case Volume(_, src, packets) =>
        OnSourceElsewhere(cfg, e, src, now, SourceVolume(cfg, SourceAt(cfg, e, src, now), now, src, packets), {});
      case Traffic(_, src, dst, port, bytesOut, bytesIn) =>
        OnSourceElsewhere(cfg, e, src, now,
                          SourceBytes(cfg, SourceAt(cfg, e, src, now), now, src, dst, port, bytesOut, bytesIn), {});
      case DnsQuery(_, _, _, _) =>
    }
  }

  /** Once the sweep is done, an observation changes at most the one source and the one service it is about. */
  lemma OthersAreUntouched(cfg: Config, e: Engine, o: Observation)
    requires e.Valid()
    ensures var before, r := Swept(cfg, e, o.ts), Observe(cfg, e, o).state;
      && (forall src :: src !in SourcesOf(o) ==>
            (src in r.sources <==> src in before.sources) &&
            (src in r.sources ==> r.sources[src] == before.sources[src]))
      && (forall key :: key !in ServicesOf(o) ==>
            (key in r.pairs <==> key in before.pairs) && (key in r.pairs ==> r.pairs[key] == before.pairs[key]))
  {
    hide Swept, Dispatch, SourcesOf, ServicesOf;
    SweptKeepsValid(cfg, e, o.ts);
    var before := Swept(cfg, e, o.ts);
    DispatchElsewhere(cfg, before, o);
    var r := Dispatch(cfg, before, o).state;
    forall src | src !in SourcesOf(o)
      ensures src in r.sources <==> src in before.sources
      ensures src in r.sources ==> r.sources[src] == before.sources[src]
    {
      assert src in r.sources <==> src in r.sources - SourcesOf(o);
      assert src in before.sources <==> src in before.sources - SourcesOf(o);
    }
    forall key | key !in ServicesOf(o)
      ensures key in r.pairs <==> key in before.pairs
      ensures key in r.pairs ==> r.pairs[key] == before.pairs[key]
    {
      assert key in r.pairs <==> key in r.pairs - ServicesOf(o);
      assert key in before.pairs <==> key in before.pairs - ServicesOf(o);
    }
  }

  /**
   * A source the full table has no room for leaves no trace but the count of those refused: its packets, its bytes
   * and its failed connections are not judged.
   */
  lemma RefusedSourceIsOnlyCounted(cfg: Config, e: Engine, o: Observation)
    requires e.Valid() && (o.Volume? || o.Traffic? || o.Flow?)
    requires o.src !in Swept(cfg, e, o.ts).sources && |Swept(cfg, e, o.ts).sources| >= cfg.maxSources
    ensures var before, r := Swept(cfg, e, o.ts), Observe(cfg, e, o);
      && r.alerts == [] && r.state.sources == before.sources
      && r.state.sourcesRefused == before.sourcesRefused +
           (if o.Volume? then 1
            else if o.Traffic? then (if IsBroadcastLike(o.dst) then 0 else 1)
            else (if o.answered then 0 else 1) + (if IsBroadcastLike(o.dst) then 0 else 1))
  {
    hide Swept, SourceVolume, SourceBytes, SourceUnanswered, IsBroadcastLike, PairAt, SourceAt, OnPair;
    SweptKeepsValid(cfg, e, o.ts);
    if o.Flow? {
      var before, key := Swept(cfg, e, o.ts), PairKey(o.src, o.dst, o.dstPort);
      var first := if o.answered then before else before.(sourcesRefused := before.sourcesRefused + 1);
      assert o.answered || OnUnanswered(cfg, before, o.ts, o.src, o.dst, o.dstPort) == Step(first, []);
      PairKeepsSources(cfg, first, key, o.ts);
    }
  }

  lemma PairKeepsSources(cfg: Config, e: Engine, key: PairKey, now: int)
    requires e.Valid()
    ensures var r := OnPair(cfg, e, key, Step(PairAt(cfg, e, key, now), [])).state;
      r.Valid() && r.sources == e.sources && r.sourcesRefused == e.sourcesRefused
  {
  }

  /** Nor does a service, whose sign-ins are then not judged either. */
  lemma RefusedServiceIsOnlyCounted(cfg: Config, e: Engine, o: Observation)
    requires e.Valid() && (o.AuthAttempt? || o.AuthFailure?)
    requires PairKey(o.src, o.dst, o.dstPort) !in Swept(cfg, e, o.ts).pairs
    requires |Swept(cfg, e, o.ts).pairs| >= cfg.maxPairs
    ensures var before := Swept(cfg, e, o.ts);
      Observe(cfg, e, o) == Step(before.(pairsRefused := before.pairsRefused + 1), [])
  {
    hide Swept, PairAttempt, PairFailure, PairAt;
    SweptKeepsValid(cfg, e, o.ts);
  }

  /**
   * A finished connection to an ordinary host keeps its service's state from lapsing, or opens it, or is counted as
   * refused; one to a group touches no service.
   */
  lemma FlowKeepsItsService(cfg: Config, e: Engine, o: Observation)
    requires e.Valid() && o.Flow?
    ensures var before, r, key := Swept(cfg, e, o.ts), Observe(cfg, e, o).state, PairKey(o.src, o.dst, o.dstPort);
      if IsBroadcastLike(o.dst) then r.pairs == before.pairs && r.pairsRefused == before.pairsRefused
      else if key in before.pairs then
        r.pairs == before.pairs[key := before.pairs[key].(lastSeen := o.ts)] && r.pairsRefused == before.pairsRefused
      else if |before.pairs| < cfg.maxPairs then
        r.pairs == before.pairs[key := FreshPair(cfg, o.ts)] && r.pairsRefused == before.pairsRefused
      else
        r.pairs == before.pairs && r.pairsRefused == before.pairsRefused + 1
  {
    hide Swept, IsBroadcastLike, OnBytes, OnUnanswered, FreshPair;
    var before, key := Swept(cfg, e, o.ts), PairKey(o.src, o.dst, o.dstPort);
    SweptKeepsValid(cfg, e, o.ts);
    UnansweredKeepsValid(cfg, before, o.ts, o.src, o.dst, o.dstPort);
    UnansweredLeavesServices(cfg, before, o.ts, o.src, o.dst, o.dstPort);
    var first := if o.answered then before else OnUnanswered(cfg, before, o.ts, o.src, o.dst, o.dstPort).state;
    var handled := Step(PairAt(cfg, first, key, o.ts), []);
    FreshPairIs(cfg, o.ts);
    OnPairKeepsValid(cfg, first, key, handled);
    BytesLeaveServices(cfg, OnPair(cfg, first, key, handled).state, o.ts, o.src, o.dst, o.dstPort, o.bytesOut,
      o.bytesIn);
  }

  lemma FreshPairIs(cfg: Config, now: int)
    ensures FreshPair(cfg, now).(lastSeen := now) == FreshPair(cfg, now)
  {
  }

  lemma UnansweredLeavesServices(cfg: Config, e: Engine, now: int, src: IpAddr, dst: IpAddr, port: Port)
    requires e.Valid()
    ensures var r := OnUnanswered(cfg, e, now, src, dst, port).state;
      r.pairs == e.pairs && r.pairsRefused == e.pairsRefused
  {
    hide SourceUnanswered, SourceAt;
  }

  lemma BytesLeaveServices(cfg: Config, e: Engine, now: int, src: IpAddr, dst: IpAddr, port: Port, bytesOut: nat,
      bytesIn: nat)
    requires e.Valid()
    ensures var r := OnBytes(cfg, e, now, src, dst, port, bytesOut, bytesIn).state;
      r.pairs == e.pairs && r.pairsRefused == e.pairsRefused
  {
    hide SourceBytes, SourceAt;
  }
}
