/**
 * When no behavioural table is ever full, said of the observations alone: at each moment the sources, the services and
 * the hosts seen within the window fit the configured sizes.
 */
module TableRoom {
  import opened Base
  import opened Observations
  import opened Windows
  import opened Behavior
  import opened BehaviorTheorems

  /** Observations that need a source's state: all but sign-ins, name queries and answered group traffic. */
  predicate UsesSource(o: Observation) {
    match o
    case Volume(_, _, _) => true
    case Traffic(_, _, dst, _, _, _) => !IsBroadcastLike(dst)
    case Flow(_, _, dst, _, _, _, answered) => !answered || !IsBroadcastLike(dst)
    case _ => false
  }

  /** Observations that need a service's state: sign-ins and connections to ordinary hosts. */
  predicate UsesService(o: Observation) {
    o.AuthAttempt? || o.AuthFailure? || (o.Flow? && !IsBroadcastLike(o.dst))
  }

  function Service(o: Observation): PairKey
    requires UsesService(o)
  {
    PairKey(o.src, o.dst, o.dstPort)
  }

  function LiveSources(history: seq<Observation>, now: int, window: int): set<IpAddr> {
    set i | 0 <= i < |history| && UsesSource(history[i]) && now - window < history[i].ts :: history[i].src
  }

  function LiveServices(history: seq<Observation>, now: int, window: int): set<PairKey> {
    set i | 0 <= i < |history| && UsesService(history[i]) && now - window < history[i].ts :: Service(history[i])
  }

  /** Whatever is live when the last observation arrives, itself included, fits. */
  ghost predicate RoomNow(cfg: Config, history: seq<Observation>)
    requires history != []
  {
    var o := history[|history| - 1];
    && |LiveSources(history, o.ts, cfg.window)| <= cfg.maxSources
    && |LiveServices(history, o.ts, cfg.window)| <= cfg.maxPairs
    && (o.Flow? && !o.answered ==> HostCount(cfg, history, Group(o.src, None), o.ts) <= Max(cfg.maxPairs, 1))
    && (o.Flow? && !o.answered ==> HostCount(cfg, history, Group(o.src, Some(o.dstPort)), o.ts) <= Max(cfg.maxPairs, 1))
  }

  ghost predicate Roomy(cfg: Config, run: seq<Observation>) {
    forall n :: 1 <= n <= |run| ==> RoomNow(cfg, run[..n])
  }

  predicate InTime(run: seq<Observation>) {
    && (forall i :: 0 <= i < |run| ==> 0 <= run[i].ts)
    && (forall i, j :: 0 <= i < j < |run| ==> run[i].ts <= run[j].ts)
  }

  // ----- What the tables hold -----

  ghost predicate SourceSeen(history: seq<Observation>, src: IpAddr, at: int) {
    exists i :: 0 <= i < |history| && UsesSource(history[i]) && history[i].src == src && history[i].ts == at
  }

  ghost predicate ServiceSeen(history: seq<Observation>, key: PairKey, at: int) {
    exists i :: 0 <= i < |history| && UsesService(history[i]) && Service(history[i]) == key && history[i].ts == at
  }

  ghost predicate Capped(cfg: Config, s: Source) {
    && s.unansweredAny.cap == Max(cfg.maxPairs, 1)
    && forall port :: port in s.unansweredByPort ==> s.unansweredByPort[port].cap == Max(cfg.maxPairs, 1)
  }

  /** Each entry stands for an observation, one not yet out of the window when the table was last swept. */
  ghost predicate Accounted(cfg: Config, e: Engine, history: seq<Observation>) {
    && (forall src :: src in e.sources ==>
          && SourceSeen(history, src, e.sources[src].lastSeen) && e.sources[src].lastSeen > e.lastSwept - cfg.window
          && Capped(cfg, e.sources[src]))
    && (forall key :: key in e.pairs ==>
          ServiceSeen(history, key, e.pairs[key].lastSeen) && e.pairs[key].lastSeen > e.lastSwept - cfg.window)
  }

  lemma SeenLater(history: seq<Observation>, o: Observation)
    ensures forall src, at :: SourceSeen(history, src, at) ==> SourceSeen(history + [o], src, at)
    ensures forall key, at :: ServiceSeen(history, key, at) ==> ServiceSeen(history + [o], key, at)
    ensures UsesSource(o) ==> SourceSeen(history + [o], o.src, o.ts)
    ensures UsesService(o) ==> ServiceSeen(history + [o], Service(o), o.ts)
  {
    var longer := history + [o];
    assert longer[|history|] == o;
    forall src, at | SourceSeen(history, src, at)
      ensures SourceSeen(longer, src, at)
    {
      var i :| 0 <= i < |history| && UsesSource(history[i]) && history[i].src == src && history[i].ts == at;
      assert longer[i] == history[i];
    }
    forall key, at | ServiceSeen(history, key, at)
      ensures ServiceSeen(longer, key, at)
    {
      var i :| 0 <= i < |history| && UsesService(history[i]) && Service(history[i]) == key && history[i].ts == at;
      assert longer[i] == history[i];
    }
  }

  lemma AccountedLater(cfg: Config, e: Engine, history: seq<Observation>, o: Observation)
    requires Accounted(cfg, e, history)
    ensures Accounted(cfg, e, history + [o])
  {
    hide SourceSeen, ServiceSeen, Capped;
    SeenLater(history, o);
  }

  lemma SweptIsAccounted(cfg: Config, e: Engine, history: seq<Observation>, now: int)
    requires Accounted(cfg, e, history)
    ensures Accounted(cfg, Swept(cfg, e, now), history)
  {
    hide SourceSeen, ServiceSeen, Capped;
  }

  // ----- Each handler keeps the account -----

  lemma FreshSourceCapped(cfg: Config, e: Engine, history: seq<Observation>, src: IpAddr, now: int)
    requires Accounted(cfg, e, history)
    ensures Capped(cfg, SourceAt(cfg, e, src, now)) && SourceAt(cfg, e, src, now).lastSeen == now
  {
    hide SourceSeen, ServiceSeen;
  }

  lemma SourceHandled(cfg: Config, e: Engine, history: seq<Observation>, src: IpAddr, now: int, handled: Step<Source>)
    requires Accounted(cfg, e, history) && e.lastSwept <= now && cfg.window >= 1
    requires SourceSeen(history, src, now) && handled.state.lastSeen == now && Capped(cfg, handled.state)
    ensures var r := OnSource(cfg, e, src, now, handled).state;
      Accounted(cfg, r, history) && r.lastSwept == e.lastSwept
  {
    hide SourceSeen, ServiceSeen, Capped;
  }

  lemma PairHandled(cfg: Config, e: Engine, history: seq<Observation>, key: PairKey, now: int, handled: Step<Pair>)
    requires Accounted(cfg, e, history) && e.lastSwept <= now && cfg.window >= 1
    requires ServiceSeen(history, key, now) && handled.state.lastSeen == now
    ensures var r := OnPair(cfg, e, key, handled).state;
      Accounted(cfg, r, history) && r.lastSwept == e.lastSwept
  {
    hide SourceSeen, ServiceSeen, Capped;
  }

  lemma CountingKeepsCaps(cfg: Config, s: Source, now: int, src: IpAddr, dst: IpAddr, port: Port, packets: nat,
      bytesOut: nat, bytesIn: nat)
    requires s.Valid() && Capped(cfg, s)
    ensures var r := SourceVolume(cfg, s, now, src, packets).state;
      r.lastSeen == s.lastSeen && Capped(cfg, r)
    ensures var r := SourceBytes(cfg, s, now, src, dst, port, bytesOut, bytesIn).state;
      r.lastSeen == s.lastSeen && Capped(cfg, r)
  {
  }

  lemma InsertKeepsCap(w: Distinct<IpAddr>, dst: IpAddr, now: int, window: int)
    ensures Inserted(w, dst, now, window).cap == w.cap
  {
  }

  lemma UnansweredKeepsCaps(cfg: Config, s: Source, now: int, src: IpAddr, dst: IpAddr, port: Port)
    requires s.Valid() && Capped(cfg, s)
    ensures var r := SourceUnanswered(cfg, s, now, src, dst, port).state;
      r.lastSeen == s.lastSeen && Capped(cfg, r)
  {
    hide Inserted;
    InsertKeepsCap(s.unansweredAny, dst, now, cfg.window);
    InsertKeepsCap(PortTable(cfg, s, port), dst, now, cfg.window);
  }

  lemma BytesAccounted(cfg: Config, e: Engine, history: seq<Observation>, o: Observation)
    requires e.Valid() && Accounted(cfg, e, history) && e.lastSwept <= o.ts && cfg.window >= 1
    requires (o.Flow? || o.Traffic?) && SourceSeen(history, o.src, o.ts)
    ensures var r := OnBytes(cfg, e, o.ts, o.src, o.dst, o.dstPort, o.bytesOut, o.bytesIn).state;
      Accounted(cfg, r, history) && r.lastSwept == e.lastSwept
  {
    hide Accounted, Capped, SourceSeen, OnSource, SourceBytes;
    var s := SourceAt(cfg, e, o.src, o.ts);
    FreshSourceCapped(cfg, e, history, o.src, o.ts);
    CountingKeepsCaps(cfg, s, o.ts, o.src, o.dst, o.dstPort, 0, o.bytesOut, o.bytesIn);
    SourceHandled(cfg, e, history, o.src, o.ts,
                  SourceBytes(cfg, s, o.ts, o.src, o.dst, o.dstPort, o.bytesOut, o.bytesIn));
  }

  lemma UnansweredAccounted(cfg: Config, e: Engine, history: seq<Observation>, o: Observation)
    requires e.Valid() && Accounted(cfg, e, history) && e.lastSwept <= o.ts && cfg.window >= 1
    requires o.Flow? && SourceSeen(history, o.src, o.ts)
    ensures var r := OnUnanswered(cfg, e, o.ts, o.src, o.dst, o.dstPort).state;
      Accounted(cfg, r, history) && r.lastSwept == e.lastSwept && r.Valid()
  {
    hide Accounted, Capped, SourceSeen, OnSource, SourceUnanswered;
    UnansweredKeepsValid(cfg, e, o.ts, o.src, o.dst, o.dstPort);
    var s := SourceAt(cfg, e, o.src, o.ts);
    FreshSourceCapped(cfg, e, history, o.src, o.ts);
    UnansweredKeepsCaps(cfg, s, o.ts, o.src, o.dst, o.dstPort);
    SourceHandled(cfg, e, history, o.src, o.ts, SourceUnanswered(cfg, s, o.ts, o.src, o.dst, o.dstPort));
  }

  lemma FlowAccounted(cfg: Config, e: Engine, history: seq<Observation>, o: Observation)
    requires e.Valid() && Accounted(cfg, e, history) && e.lastSwept <= o.ts && cfg.window >= 1
    requires o.Flow?
    requires !IsBroadcastLike(o.dst) ==> SourceSeen(history, o.src, o.ts) && ServiceSeen(history, Service(o), o.ts)
    ensures var r := OnFlow(cfg, e, o.ts, o.src, o.dst, o.dstPort, o.bytesOut, o.bytesIn).state;
      Accounted(cfg, r, history) && r.lastSwept == e.lastSwept
  {
    hide Accounted, SourceSeen, ServiceSeen, OnPair, OnBytes, IsBroadcastLike;
    if !IsBroadcastLike(o.dst) {
      var handled := Step(PairAt(cfg, e, Service(o), o.ts), []);
      OnPairKeepsValid(cfg, e, Service(o), handled);
      PairHandled(cfg, e, history, Service(o), o.ts, handled);
      BytesAccounted(cfg, OnPair(cfg, e, Service(o), handled).state, history, o);
    }
  }

  lemma VolumeAccounted(cfg: Config, e: Engine, history: seq<Observation>, o: Observation)
    requires e.Valid() && Accounted(cfg, e, history) && e.lastSwept <= o.ts && cfg.window >= 1
    requires o.Volume? && SourceSeen(history, o.src, o.ts)
    ensures var r := Dispatch(cfg, e, o).state;
      Accounted(cfg, r, history) && r.lastSwept == e.lastSwept
  {
    hide Accounted, Capped, SourceSeen, OnSource, SourceVolume;
    var s := SourceAt(cfg, e, o.src, o.ts);
    FreshSourceCapped(cfg, e, history, o.src, o.ts);
    CountingKeepsCaps(cfg, s, o.ts, o.src, o.src, 0, o.packets, 0, 0);
    SourceHandled(cfg, e, history, o.src, o.ts, SourceVolume(cfg, s, o.ts, o.src, o.packets));
  }

  lemma DispatchAccounted(cfg: Config, e: Engine, history: seq<Observation>, o: Observation)
    requires e.Valid() && Accounted(cfg, e, history + [o]) && e.lastSwept <= o.ts && cfg.window >= 1
    ensures var r := Dispatch(cfg, e, o).state;
      Accounted(cfg, r, history + [o]) && r.lastSwept == e.lastSwept
  {
    hide Accounted, SourceSeen, ServiceSeen, OnPair, OnBytes, OnUnanswered, OnFlow, IsBroadcastLike;
    hide SourceVolume, PairAttempt, PairFailure;
    var longer := history + [o];
    SeenLater(history, o);
    match o {
      case AuthAttempt(_, _, _, _, _) =>
        AttemptAccounted(cfg, e, longer, o);
      case AuthFailure(_, _, _, _, _) =>
        FailureAccounted(cfg, e, longer, o);
      case Flow(_, _, _, _, _, _, answered) =>
        if answered {
          FlowAccounted(cfg, e, longer, o);
        } else {
          UnansweredAccounted(cfg, e, longer, o);
          FlowAccounted(cfg, OnUnanswered(cfg, e, o.ts, o.src, o.dst, o.dstPort).state, longer, o);
        }
      case Volume(_, _, _) =>
        VolumeAccounted(cfg, e, longer, o);
      case Traffic(_, _, dst, _, _, _) =>
        if !IsBroadcastLike(dst) {
          BytesAccounted(cfg, e, longer, o);
        }
      case DnsQuery(_, _, _, _) =>
    }
  }

  lemma AttemptAccounted(cfg: Config, e: Engine, history: seq<Observation>, o: Observation)
    requires e.Valid() && Accounted(cfg, e, history) && e.lastSwept <= o.ts && cfg.window >= 1
    requires o.AuthAttempt? && ServiceSeen(history, Service(o), o.ts)
    ensures var r := Dispatch(cfg, e, o).state;
      Accounted(cfg, r, history) && r.lastSwept == e.lastSwept
  {
    hide Accounted, ServiceSeen, OnPair, RateAdd, RateTotal;
    var key := Service(o);
    PairHandled(cfg, e, history, key, o.ts, PairAttempt(cfg, PairAt(cfg, e, key, o.ts), o.ts, key));
  }

  lemma FailureAccounted(cfg: Config, e: Engine, history: seq<Observation>, o: Observation)
    requires e.Valid() && Accounted(cfg, e, history) && e.lastSwept <= o.ts && cfg.window >= 1
    requires o.AuthFailure? && ServiceSeen(history, Service(o), o.ts)
    ensures var r := Dispatch(cfg, e, o).state;
      Accounted(cfg, r, history) && r.lastSwept == e.lastSwept
  {
    hide Accounted, ServiceSeen, OnPair, RateAdd, RateTotal;
    var key := Service(o);
    PairHandled(cfg, e, history, key, o.ts, PairFailure(cfg, PairAt(cfg, e, key, o.ts), o.ts, key));
  }

  function LastTime(run: seq<Observation>): int {
    if run == [] then 0 else run[|run| - 1].ts
  }

  lemma FrontInTime(run: seq<Observation>)
    requires run != [] && InTime(run)
    ensures InTime(run[..|run| - 1]) && 0 <= LastTime(run[..|run| - 1]) <= LastTime(run)
  {
  }

  /** On every run in order of time the tables hold nothing but what was seen. */
  lemma {:induction false} RunIsAccounted(cfg: Config, run: seq<Observation>)
    requires InTime(run) && cfg.window >= 1
    ensures Accounted(cfg, RunEngine(cfg, run).state, run)
    ensures 0 <= RunEngine(cfg, run).state.lastSwept <= LastTime(run)
  {
    if run != [] {
      hide Accounted, Observe, Dispatch, InTime, Swept;
      var front, o := run[..|run| - 1], run[|run| - 1];
      FrontInTime(run);
      var e := RunEngine(cfg, front).state;
      RunIsAccounted(cfg, front);
      assert front + [o] == run;
      SweptIsAccounted(cfg, e, front, o.ts);
      AccountedLater(cfg, Swept(cfg, e, o.ts), front, o);
      SweptKeepsValid(cfg, e, o.ts);
      DispatchAccounted(cfg, Swept(cfg, e, o.ts), front, o);
      ObservedIsDispatched(cfg, e, o);
    }
  }

  lemma ObservedIsDispatched(cfg: Config, e: Engine, o: Observation)
    requires e.Valid()
    ensures Swept(cfg, e, o.ts).Valid() && Observe(cfg, e, o) == Dispatch(cfg, Swept(cfg, e, o.ts), o)
    ensures Swept(cfg, e, o.ts).lastSwept == Max(e.lastSwept, o.ts)
  {
    hide Dispatch;
  }

  // ----- Room for what is live is room enough -----

  lemma EntriesAreLive(cfg: Config, e: Engine, history: seq<Observation>, now: int)
    requires Accounted(cfg, e, history) && e.lastSwept >= now
    ensures e.sources.Keys <= LiveSources(history, now, cfg.window)
    ensures e.pairs.Keys <= LiveServices(history, now, cfg.window)
  {
    hide Capped;
    forall src | src in e.sources
      ensures src in LiveSources(history, now, cfg.window)
    {
      assert SourceSeen(history, src, e.sources[src].lastSeen);
    }
    forall key | key in e.pairs
      ensures key in LiveServices(history, now, cfg.window)
    {
      assert ServiceSeen(history, key, e.pairs[key].lastSeen);
    }
  }

  lemma Fits<T>(keys: set<T>, live: set<T>, k: T, size: int)
    requires keys <= live && k in live && |live| <= size
    ensures k in keys || |keys| < size
  {
    assert live == keys + {k} + (live - keys - {k});
  }

  lemma NewcomerIsLive(history: seq<Observation>, o: Observation, window: int)
    requires window >= 1
    ensures UsesSource(o) ==> o.src in LiveSources(history + [o], o.ts, window)
    ensures UsesService(o) ==> Service(o) in LiveServices(history + [o], o.ts, window)
  {
    assert (history + [o])[|history|] == o;
  }

  lemma KeysFit(cfg: Config, e: Engine, history: seq<Observation>, o: Observation)
    requires Accounted(cfg, e, history + [o]) && e.lastSwept >= o.ts && RoomNow(cfg, history + [o]) && cfg.window >= 1
    ensures UsesSource(o) ==> !SourceRefused(cfg, e, o.src)
    ensures UsesService(o) ==> !PairRefused(cfg, e, Service(o))
  {
    hide Accounted, HostCount, LiveSources, LiveServices, UsesSource, UsesService, Service;
    var longer := history + [o];
    NewcomerIsLive(history, o, cfg.window);
    EntriesAreLive(cfg, e, longer, o.ts);
    if UsesSource(o) {
      Fits(e.sources.Keys, LiveSources(longer, o.ts, cfg.window), o.src, cfg.maxSources);
    }
    if UsesService(o) {
      Fits(e.pairs.Keys, LiveServices(longer, o.ts, cfg.window), Service(o), cfg.maxPairs);
    }
  }

  lemma PrunedKeepsCap(w: Distinct<IpAddr>, now: int, window: int)
    ensures Pruned(w, now, window).cap == w.cap
  {
  }

  /** A host table of a matching source takes in a host when the live hosts, that one included, fit. */
  lemma HostFits(cfg: Config, w: Distinct<IpAddr>, history: seq<Observation>, o: Observation, g: Group)
    requires cfg.window >= 1 && GroupMatches(cfg, w, history, g, o.ts) && Contacts(o, g)
    requires HostCount(cfg, history + [o], g, o.ts) <= w.cap
    ensures !InsertRefused(w, o.dst, o.ts, cfg.window)
  {
    PrunedKeepsCap(w, o.ts, cfg.window);
    hide Sightings, LiveKeys, DistinctMatches, Pruned;
    SightingsTouched(history, o, g);
    PrunedKeysAreLive(w, cfg.window, Sightings(history, g), o.ts, o.ts);
    LiveKeysGrow(Sightings(history, g), o.dst, o.ts, cfg.window);
    var live := LiveKeys(Sightings(history, g), o.ts, cfg.window);
    var p := Pruned(w, o.ts, cfg.window);
    assert |p.seen| == |p.seen.Keys| == |live|;
    assert o.dst !in live ==> |live + {o.dst}| == |live| + 1;
  }

  lemma HostsFit(cfg: Config, e: Engine, history: seq<Observation>, log: seq<Alert>, o: Observation)
    requires cfg.window >= 1 && Accounted(cfg, e, history) && Simulates(cfg, e, history, history, log, o.ts)
    requires o.Flow? && !o.answered && RoomNow(cfg, history + [o])
    ensures var s := SourceAt(cfg, e, o.src, o.ts);
      !InsertRefused(PortTable(cfg, s, o.dstPort), o.dst, o.ts, cfg.window) &&
      !InsertRefused(s.unansweredAny, o.dst, o.ts, cfg.window)
  {
    hide SourceMatches, GroupMatches, HostCount, InsertRefused, LiveSources, LiveServices;
    var s := SourceAt(cfg, e, o.src, o.ts);
    SourceAvailable(cfg, e, history, history, log, o.src, o.ts);
    FreshSourceCapped(cfg, e, history, o.src, o.ts);
    hide Accounted, Simulates, SourceAt;
    ContactsMatch(cfg, s, history, history, log, o.src, o.dstPort, o.ts);
    assert (history + [o])[|history|] == o;
    HostFits(cfg, PortTable(cfg, s, o.dstPort), history, o, Group(o.src, Some(o.dstPort)));
    HostFits(cfg, s.unansweredAny, history, o, Group(o.src, None));
  }

  lemma NothingRefused(cfg: Config, e: Engine, history: seq<Observation>, log: seq<Alert>, o: Observation)
    requires cfg.window >= 1 && Simulates(cfg, e, history, history, log, o.ts)
    requires Accounted(cfg, e, history) && e.lastSwept >= o.ts && RoomNow(cfg, history + [o])
    ensures !Refuses(cfg, e, o)
  {
    hide Simulates, Accounted, RoomNow, InsertRefused, SourceAt, PortTable, SourceRefused, PairRefused, IsBroadcastLike;
    AccountedLater(cfg, e, history, o);
    KeysFit(cfg, e, history, o);
    if o.Flow? && !o.answered {
      HostsFit(cfg, e, history, log, o);
    }
  }

  /**
   * From the observations alone: when, at each observation, the sources, the services and the contacted hosts seen
   * within the window are no more than the configured sizes, no table refuses anybody.
   */
  lemma {:induction false} RoomIsEnough(cfg: Config, run: seq<Observation>)
    requires Sensible(cfg) && InTime(run) && Roomy(cfg, run)
    ensures Orderly(cfg, run)
    decreases |run|
  {
    if run != [] {
      hide RoomNow, Roomy, InTime, Orderly, Sensible, LastTime;
      var front, o := FrontAndLast(run);
      RoomyFront(cfg, front, o);
      RoomIsEnough(cfg, front);
      LastIsTaken(cfg, front, o);
    }
  }

  lemma FrontAndLast(run: seq<Observation>) returns (front: seq<Observation>, o: Observation)
    requires run != [] && InTime(run)
    ensures run == front + [o] && |front| < |run|
    ensures InTime(front) && 0 <= LastTime(front) <= o.ts
  {
    front, o := run[..|run| - 1], run[|run| - 1];
    FrontInTime(run);
  }

  lemma RoomyFront(cfg: Config, front: seq<Observation>, o: Observation)
    requires Roomy(cfg, front + [o])
    ensures Roomy(cfg, front) && RoomNow(cfg, front + [o])
  {
    hide RoomNow;
    var run := front + [o];
    forall n | 1 <= n <= |front|
      ensures RoomNow(cfg, front[..n])
    {
      assert front[..n] == run[..n];
    }
    assert run[..|run|] == run;
  }

  lemma LastIsTaken(cfg: Config, front: seq<Observation>, o: Observation)
    requires Sensible(cfg) && InTime(front) && Orderly(cfg, front) && RoomNow(cfg, front + [o])
    requires 0 <= LastTime(front) <= o.ts
    ensures Orderly(cfg, front + [o])
  {
    hide RunEngine, Refuses, RoomNow, Simulates, Accounted, ExpectedLog, Orderly, Past, PastAlerts, InTime, Swept;
    RunInStep(cfg, front);
    LastIsServed(cfg, RunEngine(cfg, front).state, front, ExpectedLog(cfg, front), LastTime(front), o);
    OrderlyGrows(cfg, front, o);
  }

  lemma LastIsServed(cfg: Config, e: Engine, front: seq<Observation>, log: seq<Alert>, last: int, o: Observation)
    requires Sensible(cfg) && InTime(front) && e == RunEngine(cfg, front).state && last == LastTime(front) <= o.ts
    requires InStep(cfg, e, front, log, last) && RoomNow(cfg, front + [o])
    ensures !Refuses(cfg, Swept(cfg, e, o.ts), o)
  {
    hide RunEngine, Refuses, RoomNow, Simulates, Accounted, Past, PastAlerts, InTime, Swept;
    SweepSimulates(cfg, e, front, log, last, o.ts);
    RunIsAccounted(cfg, front);
    SweptIsAccounted(cfg, e, front, o.ts);
    ObservedIsDispatched(cfg, e, o);
    NothingRefused(cfg, Swept(cfg, e, o.ts), front, log, o);
  }

  lemma OrderlyGrows(cfg: Config, front: seq<Observation>, o: Observation)
    requires Orderly(cfg, front) && 0 <= LastTime(front) <= o.ts
    requires !Refuses(cfg, Swept(cfg, RunEngine(cfg, front).state, o.ts), o)
    ensures Orderly(cfg, front + [o])
  {
    hide Refuses, Swept, RunEngine;
    var run := front + [o];
    assert run[..|run| - 1] == front && run[|run| - 1] == o;
  }
}
