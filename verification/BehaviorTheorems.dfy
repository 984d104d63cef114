/**
 * The swept, ringed, pruned engine raises exactly the alerts of a judge that keeps everything.
 *
 * `Expected` reads the whole observation history and the whole alert log and holds no state.
 * `SweepsAreInvisible` is the theorem: on every chronological run in which no table is full, the
 * engine's alerts are the expected ones, figures included.
 */
module BehaviorTheorems {
  import opened Base
  import opened Observations
  import opened Windows
  import opened Behavior

  // ----- The judge with a perfect memory -----

  /** A quantity the detectors sum. */
  datatype Meter =
    | Packets(src: IpAddr)
    | BytesOut(src: IpAddr)
    | BytesIn(src: IpAddr)
    | Attempts(key: PairKey)
    | Failures(key: PairKey)

  predicate CountsBytes(o: Observation, src: IpAddr) {
    (o.Flow? || o.Traffic?) && o.src == src && !IsBroadcastLike(o.dst)
  }

  function ServiceOf(o: Observation): PairKey
    requires o.AuthAttempt? || o.AuthFailure?
  {
    PairKey(o.src, o.dst, o.dstPort)
  }

  function Reading(o: Observation, m: Meter): Option<nat> {
    match m
    case Packets(src) => if o.Volume? && o.src == src then Some(o.packets) else None
    case BytesOut(src) => if CountsBytes(o, src) then Some(o.bytesOut) else None
    case BytesIn(src) => if CountsBytes(o, src) then Some(o.bytesIn) else None
    case Attempts(key) => if o.AuthAttempt? && ServiceOf(o) == key then Some(1) else None
    case Failures(key) => if o.AuthFailure? && ServiceOf(o) == key then Some(1) else None
  }

  function Readings(history: seq<Observation>, m: Meter): seq<Stamp> {
    if history == [] then []
    else
      var o := history[|history| - 1];
      Readings(history[..|history| - 1], m) + match Reading(o, m) case Some(n) => [Stamp(o.ts, n)] case None => []
  }

  /** A population of hosts the scan detectors count: on one port, or on any (`port` None). */
  datatype Group = Group(src: IpAddr, port: Option<Port>)

  predicate Contacts(o: Observation, g: Group) {
    o.Flow? && !o.answered && o.src == g.src && (g.port == None || g.port.value == o.dstPort)
  }

  function Sightings(history: seq<Observation>, g: Group): seq<Sighting<IpAddr>> {
    if history == [] then []
    else
      var o := history[|history| - 1];
      Sightings(history[..|history| - 1], g) + if Contacts(o, g) then [Sighting(o.dst, o.ts)] else []
  }

  function WindowOf(cfg: Config, m: Meter): int {
    if m.Packets? then Max(cfg.floodWindow, 1) else cfg.window
  }

  function Measured(cfg: Config, history: seq<Observation>, m: Meter, now: int): nat {
    WindowSum(Readings(history, m), now, WindowOf(cfg, m))
  }

  function HostCount(cfg: Config, history: seq<Observation>, g: Group, now: int): nat {
    |LiveKeys(Sightings(history, g), now, cfg.window)|
  }

  /** What an alert is about: repeats are limited per source, brute force per service. */
  datatype Subject = BySource(src: IpAddr) | ByService(key: PairKey)

  function SubjectOf(a: Alert): Subject {
    if a.kind.BruteForceAttempts? || a.kind.BruteForceFailures? then ByService(PairKey(a.src, a.dst, a.port))
    else BySource(a.src)
  }

  predicate Concerns(a: Alert, kind: Kind, subject: Subject) {
    a.kind == kind && SubjectOf(a) == subject
  }

  /** No alert of this kind about this subject is more recent than the interval. */
  predicate Quiet(log: seq<Alert>, kind: Kind, subject: Subject, now: int, interval: int) {
    forall i :: 0 <= i < |log| && Concerns(log[i], kind, subject) ==> now - log[i].at >= interval
  }

  function Judge(log: seq<Alert>, over: bool, a: Alert, interval: int): seq<Alert> {
    When(over && Quiet(log, a.kind, SubjectOf(a), a.at, interval), a)
  }

  function ExpectedUnanswered(cfg: Config, history: seq<Observation>, log: seq<Alert>, now: int, src: IpAddr,
      dst: IpAddr, port: Port): seq<Alert> {
    var perPort := HostCount(cfg, history, Group(src, Some(port)), now);
    var anyPort := HostCount(cfg, history, Group(src, None), now);
    Judge(log, perPort > cfg.horizontalScanHosts, Alert(HorizontalScan, now, src, dst, port, perPort, 0),
      cfg.alertInterval) +
    Judge(log, anyPort > cfg.horizontalScanHostsAnyPort, Alert(HostSweep, now, src, dst, port, anyPort, 0),
      cfg.alertInterval)
  }

  /** More than the limit sent for each byte received, none received counting as one, and past the floor. */
  predicate OutOfProportion(cfg: Config, sent: nat, received: nat) {
    sent > cfg.exfilRatioMinBytes && sent as real > cfg.exfilRatio * Max(received, 1) as real
  }

  function ExpectedBytes(cfg: Config, history: seq<Observation>, log: seq<Alert>, now: int, src: IpAddr, dst: IpAddr,
      port: Port): seq<Alert> {
    var sent := Measured(cfg, history, BytesOut(src), now);
    var received := Measured(cfg, history, BytesIn(src), now);
    Judge(log, sent > cfg.exfilBytes, Alert(ExfilVolume, now, src, dst, port, sent, 0), cfg.alertInterval) +
    Judge(log, OutOfProportion(cfg, sent, received), Alert(ExfilRatio, now, src, dst, port, sent, received),
      cfg.alertInterval)
  }

  /** The alerts the last observation of a history deserves, given everything before it. */
  function Expected(cfg: Config, history: seq<Observation>, log: seq<Alert>): seq<Alert>
    requires history != []
  {
    var o := history[|history| - 1];
    var now := o.ts;
    match o
    case Volume(_, src, _) =>
      var total := Measured(cfg, history, Packets(src), now);
      Judge(log, total > cfg.floodLimit, Alert(PacketFlood, now, src, UNSPECIFIED, 0, total, 0), cfg.floodInterval)
    case AuthAttempt(_, src, dst, port, _) =>
      var n := Measured(cfg, history, Attempts(ServiceOf(o)), now);
      Judge(log, n > cfg.bruteForceAttempts, Alert(BruteForceAttempts, now, src, dst, port, n, 0), cfg.alertInterval)
    case AuthFailure(_, src, dst, port, _) =>
      var n := Measured(cfg, history, Failures(ServiceOf(o)), now);
      Judge(log, n > cfg.bruteForceFailures, Alert(BruteForceFailures, now, src, dst, port, n, 0), cfg.alertInterval)
    case Flow(_, src, dst, port, _, _, answered) =>
      (if answered then [] else ExpectedUnanswered(cfg, history, log, now, src, dst, port)) +
      (if IsBroadcastLike(dst) then [] else ExpectedBytes(cfg, history, log, now, src, dst, port))
    case Traffic(_, src, dst, port, _, _) =>
      if IsBroadcastLike(dst) then [] else ExpectedBytes(cfg, history, log, now, src, dst, port)
    case DnsQuery(_, _, _, _) => []
  }

  function ExpectedLog(cfg: Config, history: seq<Observation>): seq<Alert> {
    if history == [] then []
    else
      var before := ExpectedLog(cfg, history[..|history| - 1]);
      before + Expected(cfg, history, before)
  }

  // ----- Gates -----

  /** At every later time the gate opens exactly when the log is quiet. */
  ghost predicate GateMatches(gate: Option<int>, log: seq<Alert>, kind: Kind, subject: Subject, now: int,
      interval: int) {
    forall t :: t >= now ==> (Allows(gate, t, interval) <==> Quiet(log, kind, subject, t, interval))
  }

  lemma QuietAppend(log: seq<Alert>, more: seq<Alert>, kind: Kind, subject: Subject, t: int, interval: int)
    ensures Quiet(log + more, kind, subject, t, interval) <==>
      Quiet(log, kind, subject, t, interval) && Quiet(more, kind, subject, t, interval)
  {
    if Quiet(log + more, kind, subject, t, interval) {
      assert forall i :: 0 <= i < |log| ==> (log + more)[i] == log[i];
      assert forall i :: 0 <= i < |more| ==> (log + more)[|log| + i] == more[i];
    }
  }

  ghost predicate NoneConcern(more: seq<Alert>, kind: Kind, subject: Subject) {
    forall i :: 0 <= i < |more| ==> !Concerns(more[i], kind, subject)
  }

  lemma GateIgnoresOthers(gate: Option<int>, log: seq<Alert>, more: seq<Alert>, kind: Kind, subject: Subject,
      now: int, interval: int)
    requires GateMatches(gate, log, kind, subject, now, interval) && NoneConcern(more, kind, subject)
    ensures GateMatches(gate, log + more, kind, subject, now, interval)
  {
    hide Quiet, Allows;
    forall t | t >= now
      ensures Allows(gate, t, interval) <==> Quiet(log + more, kind, subject, t, interval)
    {
      QuietAppend(log, more, kind, subject, t, interval);
      NoneConcernQuiet(more, kind, subject, t, interval);
    }
  }

  lemma NoneConcernQuiet(more: seq<Alert>, kind: Kind, subject: Subject, t: int, interval: int)
    requires NoneConcern(more, kind, subject)
    ensures Quiet(more, kind, subject, t, interval)
  {
  }

  /** A gate that is consulted judges as the log does, and still matches once its alert is logged. */
  lemma GateJudges(gate: Option<int>, log: seq<Alert>, over: bool, a: Alert, interval: int)
    requires GateMatches(gate, log, a.kind, SubjectOf(a), a.at, interval)
    ensures When(Fires(over, gate, a.at, interval), a) == Judge(log, over, a, interval)
    ensures GateMatches(Armed(over, gate, a.at, interval), log + Judge(log, over, a, interval), a.kind, SubjectOf(a),
      a.at, interval)
  {
    var now, kind, subject := a.at, a.kind, SubjectOf(a);
    assert Allows(gate, now, interval) <==> Quiet(log, kind, subject, now, interval);
    var more := Judge(log, over, a, interval);
    forall t | t >= now
      ensures Allows(Armed(over, gate, now, interval), t, interval) <==> Quiet(log + more, kind, subject, t, interval)
    {
      QuietAppend(log, more, kind, subject, t, interval);
      assert Allows(gate, t, interval) <==> Quiet(log, kind, subject, t, interval);
      if more != [] {
        assert Concerns(more[0], kind, subject);
        QuietLater(log, kind, subject, now, t, interval);
      }
    }
  }

  lemma QuietLater(log: seq<Alert>, kind: Kind, subject: Subject, now: int, t: int, interval: int)
    requires Quiet(log, kind, subject, now, interval) && now <= t
    ensures Quiet(log, kind, subject, t, interval)
  {
  }

  lemma ForgottenGateMatches(log: seq<Alert>, kind: Kind, subject: Subject, now: int, interval: int, seen: int)
    requires forall i :: 0 <= i < |log| && SubjectOf(log[i]) == subject ==> log[i].at <= seen
    requires seen <= now - interval
    ensures GateMatches(None, log, kind, subject, now, interval)
  {
  }

  // ----- Per-source and per-service state against full history -----

  ghost predicate MeterMatches(cfg: Config, r: Rate, history: seq<Observation>, m: Meter, now: int) {
    RateMatches(r, WindowOf(cfg, m), Readings(history, m), now)
  }

  ghost predicate GroupMatches(cfg: Config, w: Distinct<IpAddr>, history: seq<Observation>, g: Group, now: int) {
    DistinctMatches(w, cfg.window, Sightings(history, g), now)
  }

  /**
   * A source's state answers as the history does. Readings and contacts have separate histories
   * because one connection is judged in two passes, its contact before its bytes.
   */
  ghost predicate SourceMatches(cfg: Config, s: Source, read: seq<Observation>, met: seq<Observation>,
      log: seq<Alert>, src: IpAddr, now: int) {
    && MeterMatches(cfg, s.packets, read, Packets(src), now)
    && MeterMatches(cfg, s.bytesOut, read, BytesOut(src), now)
    && MeterMatches(cfg, s.bytesIn, read, BytesIn(src), now)
    && GroupMatches(cfg, s.unansweredAny, met, Group(src, None), now)
    && (forall port: Port :: GroupMatches(cfg, PortTable(cfg, s, port), met, Group(src, Some(port)), now))
    && GateMatches(s.floodGate, log, PacketFlood, BySource(src), now, cfg.floodInterval)
    && GateMatches(s.scanGate, log, HorizontalScan, BySource(src), now, cfg.alertInterval)
    && GateMatches(s.scanAnyGate, log, HostSweep, BySource(src), now, cfg.alertInterval)
    && GateMatches(s.exfilGate, log, ExfilVolume, BySource(src), now, cfg.alertInterval)
    && GateMatches(s.ratioGate, log, ExfilRatio, BySource(src), now, cfg.alertInterval)
    && (forall port :: port in s.unansweredByPort ==> s.unansweredByPort[port].seen != map[])
  }

  ghost predicate PairMatches(cfg: Config, p: Pair, read: seq<Observation>, log: seq<Alert>, key: PairKey, now: int) {
    && MeterMatches(cfg, p.authAttempts, read, Attempts(key), now)
    && MeterMatches(cfg, p.authFailures, read, Failures(key), now)
    && GateMatches(p.authGate, log, BruteForceAttempts, ByService(key), now, cfg.alertInterval)
    && GateMatches(p.failureGate, log, BruteForceFailures, ByService(key), now, cfg.alertInterval)
  }

  /** Nothing was read, met or raised about this source after `seen`. */
  ghost predicate SourceQuietSince(read: seq<Observation>, met: seq<Observation>, log: seq<Alert>, src: IpAddr,
      seen: int) {
    && (forall i :: 0 <= i < |read| && (read[i].Volume? || CountsBytes(read[i], src)) && read[i].src == src ==>
      read[i].ts <= seen)
    && (forall i :: 0 <= i < |met| && Contacts(met[i], Group(src, None)) ==> met[i].ts <= seen)
    && (forall i :: 0 <= i < |log| && SubjectOf(log[i]) == BySource(src) ==> log[i].at <= seen)
  }

  ghost predicate PairQuietSince(read: seq<Observation>, log: seq<Alert>, key: PairKey, seen: int) {
    && (forall i :: 0 <= i < |read| && (read[i].AuthAttempt? || read[i].AuthFailure?) && ServiceOf(read[i]) == key ==>
      read[i].ts <= seen)
    && (forall i :: 0 <= i < |log| && SubjectOf(log[i]) == ByService(key) ==> log[i].at <= seen)
  }

  /** The windows and intervals this theorem is about. */
  predicate Sensible(cfg: Config) {
    && cfg.window >= 1 && cfg.floodWindow <= cfg.window
    && cfg.alertInterval <= cfg.window && cfg.floodInterval <= cfg.window
  }

  lemma {:induction false} ReadingsBy(history: seq<Observation>, m: Meter, seen: int)
    requires forall i :: 0 <= i < |history| && Reading(history[i], m).Some? ==> history[i].ts <= seen
    ensures forall i :: 0 <= i < |Readings(history, m)| ==> Readings(history, m)[i].at <= seen
  {
    if history != [] {
      ReadingsBy(history[..|history| - 1], m, seen);
    }
  }

  lemma {:induction false} SightingsBy(history: seq<Observation>, g: Group, seen: int)
    requires forall i :: 0 <= i < |history| && Contacts(history[i], g) ==> history[i].ts <= seen
    ensures forall i :: 0 <= i < |Sightings(history, g)| ==> Sightings(history, g)[i].at <= seen
  {
    if history != [] {
      SightingsBy(history[..|history| - 1], g, seen);
    }
  }

  /** Dropping a source idle for a whole window changes no answer: a fresh one matches as well. */
  lemma ForgottenSourceMatches(cfg: Config, read: seq<Observation>, met: seq<Observation>, log: seq<Alert>,
      src: IpAddr, now: int, seen: int)
    requires Sensible(cfg) && now >= 0
    requires SourceQuietSince(read, met, log, src, seen) && seen <= now - cfg.window
    ensures SourceMatches(cfg, FreshSource(cfg, now), read, met, log, src, now)
  {
    forall m: Meter | m == Packets(src) || m == BytesOut(src) || m == BytesIn(src)
      ensures MeterMatches(cfg, NewRate(WindowOf(cfg, m)), read, m, now)
    {
      ReadingsBy(read, m, seen);
      NewRateMatches(WindowOf(cfg, m), Readings(read, m), now);
    }
    forall g: Group | g.src == src
      ensures GroupMatches(cfg, NewDistinct(cfg.maxPairs), met, g, now)
    {
      SightingsBy(met, g, seen);
      NewDistinctMatches<IpAddr>(cfg.maxPairs, cfg.window, Sightings(met, g), now);
    }
    ForgottenGateMatches(log, PacketFlood, BySource(src), now, cfg.floodInterval, seen);
    ForgottenGateMatches(log, HorizontalScan, BySource(src), now, cfg.alertInterval, seen);
    ForgottenGateMatches(log, HostSweep, BySource(src), now, cfg.alertInterval, seen);
    ForgottenGateMatches(log, ExfilVolume, BySource(src), now, cfg.alertInterval, seen);
    ForgottenGateMatches(log, ExfilRatio, BySource(src), now, cfg.alertInterval, seen);
  }

  lemma ForgottenPairMatches(cfg: Config, read: seq<Observation>, log: seq<Alert>, key: PairKey, now: int, seen: int)
    requires Sensible(cfg)
    requires PairQuietSince(read, log, key, seen) && seen <= now - cfg.window
    ensures PairMatches(cfg, FreshPair(cfg, now), read, log, key, now)
  {
    forall m: Meter | m == Attempts(key) || m == Failures(key)
      ensures MeterMatches(cfg, NewRate(WindowOf(cfg, m)), read, m, now)
    {
      ReadingsBy(read, m, seen);
      NewRateMatches(WindowOf(cfg, m), Readings(read, m), now);
    }
    ForgottenGateMatches(log, BruteForceAttempts, ByService(key), now, cfg.alertInterval, seen);
    ForgottenGateMatches(log, BruteForceFailures, ByService(key), now, cfg.alertInterval, seen);
  }

  lemma RateMatchesLater(r: Rate, window: int, history: seq<Stamp>, now: int, later: int)
    requires RateMatches(r, window, history, now) && now <= later
    ensures RateMatches(r, window, history, later)
  {
  }

  lemma SourceMatchesLater(cfg: Config, s: Source, read: seq<Observation>, met: seq<Observation>, log: seq<Alert>,
      src: IpAddr, now: int, later: int)
    requires SourceMatches(cfg, s, read, met, log, src, now) && now <= later
    ensures SourceMatches(cfg, s, read, met, log, src, later)
  {
    hide RateMatches, DistinctMatches, Allows, Quiet, Readings, Sightings, PortTable;
    RateMatchesLater(s.packets, WindowOf(cfg, Packets(src)), Readings(read, Packets(src)), now, later);
    RateMatchesLater(s.bytesOut, WindowOf(cfg, BytesOut(src)), Readings(read, BytesOut(src)), now, later);
    RateMatchesLater(s.bytesIn, WindowOf(cfg, BytesIn(src)), Readings(read, BytesIn(src)), now, later);
    DistinctMatchesLater(s.unansweredAny, cfg.window, Sightings(met, Group(src, None)), now, later);
    forall port: Port
      ensures GroupMatches(cfg, PortTable(cfg, s, port), met, Group(src, Some(port)), later)
    {
      assert GroupMatches(cfg, PortTable(cfg, s, port), met, Group(src, Some(port)), now);
      DistinctMatchesLater(PortTable(cfg, s, port), cfg.window, Sightings(met, Group(src, Some(port))), now, later);
    }
  }

  lemma PairMatchesLater(cfg: Config, p: Pair, read: seq<Observation>, log: seq<Alert>, key: PairKey, now: int,
      later: int)
    requires PairMatches(cfg, p, read, log, key, now) && now <= later
    ensures PairMatches(cfg, p, read, log, key, later)
  {
    hide RateMatches, Allows, Quiet, Readings;
    RateMatchesLater(p.authAttempts, WindowOf(cfg, Attempts(key)), Readings(read, Attempts(key)), now, later);
    RateMatchesLater(p.authFailures, WindowOf(cfg, Failures(key)), Readings(read, Failures(key)), now, later);
  }

  // ----- The whole engine against full history -----

  /** Every source and service, tracked or not, answers as the history does. */
  ghost predicate Simulates(cfg: Config, e: Engine, read: seq<Observation>, met: seq<Observation>, log: seq<Alert>,
      now: int) {
    && e.Valid()
    && (forall src: IpAddr :: SourceMatches(cfg, SourceAt(cfg, e, src, now), read, met, log, src, now))
    && (forall key: PairKey :: PairMatches(cfg, PairAt(cfg, e, key, now), read, log, key, now))
    && (forall src :: src in e.sources ==>
          e.sources[src].lastSeen <= now && SourceQuietSince(read, met, log, src, e.sources[src].lastSeen))
    && (forall key :: key in e.pairs ==>
          e.pairs[key].lastSeen <= now && PairQuietSince(read, log, key, e.pairs[key].lastSeen))
  }

  lemma SourceSurvivesSweep(cfg: Config, e: Engine, history: seq<Observation>, log: seq<Alert>, last: int, now: int,
      src: IpAddr)
    requires Sensible(cfg) && Simulates(cfg, e, history, history, log, last) && last <= now && 0 <= now
    ensures SourceMatches(cfg, SourceAt(cfg, Swept(cfg, e, now), src, now), history, history, log, src, now)
  {
    var s := SourceAt(cfg, e, src, last);
    assert SourceMatches(cfg, s, history, history, log, src, last);
    hide MeterMatches, GroupMatches, GateMatches, SourceQuietSince, Engine.Valid;
    if src in e.sources && src !in Swept(cfg, e, now).sources {
      ForgottenSourceMatches(cfg, history, history, log, src, now, e.sources[src].lastSeen);
      SameFieldsMatch(cfg, FreshSource(cfg, now), SourceAt(cfg, Swept(cfg, e, now), src, now), history, history, log,
        src, now);
    } else {
      SourceMatchesLater(cfg, s, history, history, log, src, last, now);
      SameFieldsMatch(cfg, s, SourceAt(cfg, Swept(cfg, e, now), src, now), history, history, log, src, now);
    }
  }

  lemma SameFieldsMatch(cfg: Config, s: Source, t: Source, read: seq<Observation>, met: seq<Observation>,
      log: seq<Alert>, src: IpAddr, now: int)
    requires SourceMatches(cfg, s, read, met, log, src, now) && t == s.(lastSeen := t.lastSeen)
    ensures SourceMatches(cfg, t, read, met, log, src, now)
  {
    hide MeterMatches, GroupMatches, GateMatches;
    forall port: Port
      ensures GroupMatches(cfg, PortTable(cfg, t, port), met, Group(src, Some(port)), now)
    {
      assert GroupMatches(cfg, PortTable(cfg, s, port), met, Group(src, Some(port)), now);
    }
  }

  lemma PairSurvivesSweep(cfg: Config, e: Engine, history: seq<Observation>, log: seq<Alert>, last: int, now: int,
      key: PairKey)
    requires Sensible(cfg) && Simulates(cfg, e, history, history, log, last) && last <= now
    ensures PairMatches(cfg, PairAt(cfg, Swept(cfg, e, now), key, now), history, log, key, now)
  {
    var p := PairAt(cfg, e, key, last);
    assert PairMatches(cfg, p, history, log, key, last);
    hide MeterMatches, GateMatches, PairQuietSince, SourceMatches, Engine.Valid;
    if key in e.pairs && key !in Swept(cfg, e, now).pairs {
      ForgottenPairMatches(cfg, history, log, key, now, e.pairs[key].lastSeen);
    } else {
      PairMatchesLater(cfg, p, history, log, key, last, now);
    }
  }

  /** Sweeping loses nothing a later judgement needs. */
  lemma SweepSimulates(cfg: Config, e: Engine, history: seq<Observation>, log: seq<Alert>, last: int, now: int)
    requires Sensible(cfg) && Simulates(cfg, e, history, history, log, last) && last <= now && 0 <= now
    ensures Simulates(cfg, Swept(cfg, e, now), history, history, log, now)
  {
    hide SourceMatches, PairMatches, SourceQuietSince, PairQuietSince, SourceAt, PairAt;
    forall src: IpAddr
      ensures SourceMatches(cfg, SourceAt(cfg, Swept(cfg, e, now), src, now), history, history, log, src, now)
    {
      SourceSurvivesSweep(cfg, e, history, log, last, now, src);
    }
    forall key: PairKey
      ensures PairMatches(cfg, PairAt(cfg, Swept(cfg, e, now), key, now), history, log, key, now)
    {
      PairSurvivesSweep(cfg, e, history, log, last, now, key);
    }
    SweptKeepsValid(cfg, e, now);
  }

  // ----- One source or one service moves; the others do not notice -----

  /** `after` is `before`, or one more observation of the source `src` that no service counts. */
  predicate OnlySource(before: seq<Observation>, after: seq<Observation>, src: IpAddr) {
    after == before ||
    (|after| == |before| + 1 && after[..|before|] == before &&
     (after[|before|].Volume? || after[|before|].Flow? || after[|before|].Traffic?) && after[|before|].src == src)
  }

  predicate OnlyService(before: seq<Observation>, after: seq<Observation>, key: PairKey) {
    after == before ||
    (|after| == |before| + 1 && after[..|before|] == before &&
     (after[|before|].AuthAttempt? || after[|before|].AuthFailure?) && ServiceOf(after[|before|]) == key)
  }

  lemma ReadingsUntouched(before: seq<Observation>, after: seq<Observation>, m: Meter)
    requires after == before ||
      (|after| == |before| + 1 && after[..|before|] == before && Reading(after[|before|], m) == None)
    ensures Readings(after, m) == Readings(before, m)
  {
    if after != before {
      assert after[..|after| - 1] == before;
    }
  }

  lemma SightingsUntouched(before: seq<Observation>, after: seq<Observation>, g: Group)
    requires after == before ||
      (|after| == |before| + 1 && after[..|before|] == before && !Contacts(after[|before|], g))
    ensures Sightings(after, g) == Sightings(before, g)
  {
    if after != before {
      assert after[..|after| - 1] == before;
    }
  }

  ghost predicate AllAbout(more: seq<Alert>, subject: Subject) {
    forall i :: 0 <= i < |more| ==> SubjectOf(more[i]) == subject
  }

  /** A source is unmoved by history and alerts that are about another source, or about services. */
  lemma SourceUnmoved(cfg: Config, s: Source, read: seq<Observation>, read': seq<Observation>, met: seq<Observation>,
      met': seq<Observation>, log: seq<Alert>, more: seq<Alert>, src: IpAddr, now: int)
    requires SourceMatches(cfg, s, read, met, log, src, now)
    requires forall m: Meter :: m == Packets(src) || m == BytesOut(src) || m == BytesIn(src) ==>
      Readings(read', m) == Readings(read, m)
    requires forall g: Group :: g.src == src ==> Sightings(met', g) == Sightings(met, g)
    requires forall kind: Kind :: NoneConcern(more, kind, BySource(src))
    ensures SourceMatches(cfg, s, read', met', log + more, src, now)
  {
    hide RateMatches, DistinctMatches, Readings, Sightings, PortTable, GateMatches;
    GateIgnoresOthers(s.floodGate, log, more, PacketFlood, BySource(src), now, cfg.floodInterval);
    GateIgnoresOthers(s.scanGate, log, more, HorizontalScan, BySource(src), now, cfg.alertInterval);
    GateIgnoresOthers(s.scanAnyGate, log, more, HostSweep, BySource(src), now, cfg.alertInterval);
    GateIgnoresOthers(s.exfilGate, log, more, ExfilVolume, BySource(src), now, cfg.alertInterval);
    GateIgnoresOthers(s.ratioGate, log, more, ExfilRatio, BySource(src), now, cfg.alertInterval);
    forall port: Port
      ensures GroupMatches(cfg, PortTable(cfg, s, port), met', Group(src, Some(port)), now)
    {
      assert GroupMatches(cfg, PortTable(cfg, s, port), met, Group(src, Some(port)), now);
      assert Sightings(met', Group(src, Some(port))) == Sightings(met, Group(src, Some(port)));
    }
    assert Sightings(met', Group(src, None)) == Sightings(met, Group(src, None));
    assert Readings(read', Packets(src)) == Readings(read, Packets(src));
    assert Readings(read', BytesOut(src)) == Readings(read, BytesOut(src));
    assert Readings(read', BytesIn(src)) == Readings(read, BytesIn(src));
  }

  lemma PairUnmoved(cfg: Config, p: Pair, read: seq<Observation>, read': seq<Observation>, log: seq<Alert>,
      more: seq<Alert>, key: PairKey, now: int)
    requires PairMatches(cfg, p, read, log, key, now)
    requires forall m: Meter :: m == Attempts(key) || m == Failures(key) ==> Readings(read', m) == Readings(read, m)
    requires forall kind: Kind :: NoneConcern(more, kind, ByService(key))
    ensures PairMatches(cfg, p, read', log + more, key, now)
  {
    hide RateMatches, Readings, GateMatches;
    GateIgnoresOthers(p.authGate, log, more, BruteForceAttempts, ByService(key), now, cfg.alertInterval);
    GateIgnoresOthers(p.failureGate, log, more, BruteForceFailures, ByService(key), now, cfg.alertInterval);
    assert Readings(read', Attempts(key)) == Readings(read, Attempts(key));
    assert Readings(read', Failures(key)) == Readings(read, Failures(key));
  }

  lemma NoneConcernElsewhere(more: seq<Alert>, subject: Subject, other: Subject)
    requires AllAbout(more, subject) && subject != other
    ensures forall kind: Kind :: NoneConcern(more, kind, other)
  {
  }

  lemma OtherSourceUnmoved(cfg: Config, s: Source, read: seq<Observation>, read': seq<Observation>,
      met: seq<Observation>, met': seq<Observation>, log: seq<Alert>, more: seq<Alert>, moved: IpAddr, src: IpAddr,
      now: int)
    requires SourceMatches(cfg, s, read, met, log, src, now) && src != moved
    requires OnlySource(read, read', moved) && OnlySource(met, met', moved) && AllAbout(more, BySource(moved))
    ensures SourceMatches(cfg, s, read', met', log + more, src, now)
  {
    hide SourceMatches;
    forall m: Meter | m == Packets(src) || m == BytesOut(src) || m == BytesIn(src)
      ensures Readings(read', m) == Readings(read, m)
    {
      ReadingsUntouched(read, read', m);
    }
    forall g: Group | g.src == src
      ensures Sightings(met', g) == Sightings(met, g)
    {
      SightingsUntouched(met, met', g);
    }
    NoneConcernElsewhere(more, BySource(moved), BySource(src));
    SourceUnmoved(cfg, s, read, read', met, met', log, more, src, now);
  }

  lemma ServiceUnmovedBySource(cfg: Config, p: Pair, read: seq<Observation>, read': seq<Observation>, log: seq<Alert>,
      more: seq<Alert>, moved: IpAddr, key: PairKey, now: int)
    requires PairMatches(cfg, p, read, log, key, now)
    requires OnlySource(read, read', moved) && AllAbout(more, BySource(moved))
    ensures PairMatches(cfg, p, read', log + more, key, now)
  {
    hide PairMatches;
    forall m: Meter | m == Attempts(key) || m == Failures(key)
      ensures Readings(read', m) == Readings(read, m)
    {
      ReadingsUntouched(read, read', m);
    }
    NoneConcernElsewhere(more, BySource(moved), ByService(key));
    PairUnmoved(cfg, p, read, read', log, more, key, now);
  }

  lemma SourceUnmovedByService(cfg: Config, s: Source, read: seq<Observation>, read': seq<Observation>,
      met: seq<Observation>, met': seq<Observation>, log: seq<Alert>, more: seq<Alert>, moved: PairKey, src: IpAddr,
      now: int)
    requires SourceMatches(cfg, s, read, met, log, src, now)
    requires OnlyService(read, read', moved) && OnlyService(met, met', moved) && AllAbout(more, ByService(moved))
    ensures SourceMatches(cfg, s, read', met', log + more, src, now)
  {
    hide SourceMatches;
    forall m: Meter | m == Packets(src) || m == BytesOut(src) || m == BytesIn(src)
      ensures Readings(read', m) == Readings(read, m)
    {
      ReadingsUntouched(read, read', m);
    }
    forall g: Group | g.src == src
      ensures Sightings(met', g) == Sightings(met, g)
    {
      SightingsUntouched(met, met', g);
    }
    NoneConcernElsewhere(more, ByService(moved), BySource(src));
    SourceUnmoved(cfg, s, read, read', met, met', log, more, src, now);
  }

  lemma OtherServiceUnmoved(cfg: Config, p: Pair, read: seq<Observation>, read': seq<Observation>, log: seq<Alert>,
      more: seq<Alert>, moved: PairKey, key: PairKey, now: int)
    requires PairMatches(cfg, p, read, log, key, now) && key != moved
    requires OnlyService(read, read', moved) && AllAbout(more, ByService(moved))
    ensures PairMatches(cfg, p, read', log + more, key, now)
  {
    hide PairMatches;
    forall m: Meter | m == Attempts(key) || m == Failures(key)
      ensures Readings(read', m) == Readings(read, m)
    {
      ReadingsUntouched(read, read', m);
    }
    NoneConcernElsewhere(more, ByService(moved), ByService(key));
    PairUnmoved(cfg, p, read, read', log, more, key, now);
  }

  /** No observation and no alert is from the future. */
  ghost predicate Past(history: seq<Observation>, now: int) {
    forall i :: 0 <= i < |history| ==> history[i].ts <= now
  }

  ghost predicate PastAlerts(log: seq<Alert>, now: int) {
    forall i :: 0 <= i < |log| ==> log[i].at <= now
  }

  lemma SourceQuietKept(read: seq<Observation>, read': seq<Observation>, met: seq<Observation>,
      met': seq<Observation>, log: seq<Alert>, more: seq<Alert>, moved: IpAddr, src: IpAddr, seen: int)
    requires SourceQuietSince(read, met, log, src, seen) && src != moved
    requires OnlySource(read, read', moved) && OnlySource(met, met', moved) && AllAbout(more, BySource(moved))
    ensures SourceQuietSince(read', met', log + more, src, seen)
  {
    assert forall i :: 0 <= i < |read| ==> read'[i] == read'[..|read|][i];
    assert forall i :: 0 <= i < |met| ==> met'[i] == met'[..|met|][i];
  }

  lemma PairQuietKept(read: seq<Observation>, read': seq<Observation>, log: seq<Alert>, more: seq<Alert>,
      key: PairKey, seen: int)
    requires PairQuietSince(read, log, key, seen)
    requires read' == read || (|read'| == |read| + 1 && read'[..|read|] == read &&
      !((read'[|read|].AuthAttempt? || read'[|read|].AuthFailure?) && ServiceOf(read'[|read|]) == key))
    requires forall i :: 0 <= i < |more| ==> SubjectOf(more[i]) != ByService(key)
    ensures PairQuietSince(read', log + more, key, seen)
  {
    assert forall i :: 0 <= i < |read| ==> read'[i] == read'[..|read|][i];
  }

  /** Replacing one source by a state that matches the longer history keeps the whole simulation. */
  lemma SourceQuietNow(read: seq<Observation>, met: seq<Observation>, log: seq<Alert>, src: IpAddr, now: int)
    requires Past(read, now) && Past(met, now) && PastAlerts(log, now)
    ensures SourceQuietSince(read, met, log, src, now)
  {
  }

  lemma SourceStepSimulates(cfg: Config, e: Engine, read: seq<Observation>, read': seq<Observation>,
      met: seq<Observation>, met': seq<Observation>, log: seq<Alert>, more: seq<Alert>, src: IpAddr, s: Source,
      now: int)
    requires Simulates(cfg, e, read, met, log, now) && s.Valid() && s.lastSeen == now
    requires SourceMatches(cfg, s, read', met', log + more, src, now)
    requires OnlySource(read, read', src) && OnlySource(met, met', src) && AllAbout(more, BySource(src))
    requires Past(read', now) && Past(met', now) && PastAlerts(log + more, now)
    ensures Simulates(cfg, e.(sources := e.sources[src := s]), read', met', log + more, now)
  {
    var after := e.(sources := e.sources[src := s]);
    hide SourceMatches, PairMatches, OnlySource, PairQuietSince, SourceQuietSince, AllAbout;
    forall other: IpAddr
      ensures SourceMatches(cfg, SourceAt(cfg, after, other, now), read', met', log + more, other, now)
    {
      if other != src {
        assert SourceMatches(cfg, SourceAt(cfg, e, other, now), read, met, log, other, now);
        OtherSourceUnmoved(cfg, SourceAt(cfg, e, other, now), read, read', met, met', log, more, src, other, now);
      }
    }
    forall key: PairKey
      ensures PairMatches(cfg, PairAt(cfg, after, key, now), read', log + more, key, now)
    {
      assert PairMatches(cfg, PairAt(cfg, e, key, now), read, log, key, now);
      ServiceUnmovedBySource(cfg, PairAt(cfg, e, key, now), read, read', log, more, src, key, now);
    }
    forall other | other in after.sources
      ensures var seen := after.sources[other].lastSeen;
        seen <= now && SourceQuietSince(read', met', log + more, other, seen)
    {
      if other == src {
        SourceQuietNow(read', met', log + more, src, now);
      } else {
        SourceQuietKept(read, read', met, met', log, more, src, other, e.sources[other].lastSeen);
      }
    }
    forall key | key in after.pairs
      ensures after.pairs[key].lastSeen <= now && PairQuietSince(read', log + more, key, after.pairs[key].lastSeen)
    {
      ServiceQuietKept(read, read', log, more, src, key, e.pairs[key].lastSeen);
    }
  }

  lemma ServiceQuietKept(read: seq<Observation>, read': seq<Observation>, log: seq<Alert>, more: seq<Alert>,
      moved: IpAddr, key: PairKey, seen: int)
    requires PairQuietSince(read, log, key, seen)
    requires OnlySource(read, read', moved) && AllAbout(more, BySource(moved))
    ensures PairQuietSince(read', log + more, key, seen)
  {
    PairQuietKept(read, read', log, more, key, seen);
  }

  lemma SourceQuietKeptByService(read: seq<Observation>, read': seq<Observation>, met: seq<Observation>,
      met': seq<Observation>, log: seq<Alert>, more: seq<Alert>, moved: PairKey, src: IpAddr, seen: int)
    requires SourceQuietSince(read, met, log, src, seen)
    requires OnlyService(read, read', moved) && OnlyService(met, met', moved) && AllAbout(more, ByService(moved))
    ensures SourceQuietSince(read', met', log + more, src, seen)
  {
    assert forall i :: 0 <= i < |read| ==> read'[i] == read'[..|read|][i];
    assert forall i :: 0 <= i < |met| ==> met'[i] == met'[..|met|][i];
  }

  lemma PairStepSimulates(cfg: Config, e: Engine, read: seq<Observation>, read': seq<Observation>,
      met: seq<Observation>, met': seq<Observation>, log: seq<Alert>, more: seq<Alert>, key: PairKey, p: Pair,
      now: int)
    requires Simulates(cfg, e, read, met, log, now) && p.Valid() && p.lastSeen == now
    requires PairMatches(cfg, p, read', log + more, key, now)
    requires OnlyService(read, read', key) && OnlyService(met, met', key) && AllAbout(more, ByService(key))
    requires Past(read', now) && PastAlerts(log + more, now)
    ensures Simulates(cfg, e.(pairs := e.pairs[key := p]), read', met', log + more, now)
  {
    var after := e.(pairs := e.pairs[key := p]);
    hide SourceMatches, PairMatches, SourceQuietSince;
    forall src: IpAddr
      ensures SourceMatches(cfg, SourceAt(cfg, after, src, now), read', met', log + more, src, now)
    {
      assert SourceMatches(cfg, SourceAt(cfg, e, src, now), read, met, log, src, now);
      SourceUnmovedByService(cfg, SourceAt(cfg, e, src, now), read, read', met, met', log, more, key, src, now);
    }
    forall other: PairKey
      ensures PairMatches(cfg, PairAt(cfg, after, other, now), read', log + more, other, now)
    {
      if other != key {
        assert PairMatches(cfg, PairAt(cfg, e, other, now), read, log, other, now);
        OtherServiceUnmoved(cfg, PairAt(cfg, e, other, now), read, read', log, more, key, other, now);
      }
    }
    forall src | src in after.sources
      ensures var seen := after.sources[src].lastSeen;
        seen <= now && SourceQuietSince(read', met', log + more, src, seen)
    {
      SourceQuietKeptByService(read, read', met, met', log, more, key, src, e.sources[src].lastSeen);
    }
    forall other | other in after.pairs
      ensures var seen := after.pairs[other].lastSeen;
        seen <= now && PairQuietSince(read', log + more, other, seen)
    {
      if other != key {
        PairQuietKept(read, read', log, more, other, e.pairs[other].lastSeen);
      }
    }
  }

  // ----- Each handler judges as the judge with a perfect memory does -----

  lemma ReadingsTouched(history: seq<Observation>, o: Observation, m: Meter)
    requires Reading(o, m).Some?
    ensures Readings(history + [o], m) == Readings(history, m) + [Stamp(o.ts, Reading(o, m).value)]
  {
    assert (history + [o])[..|history|] == history;
  }

  lemma SightingsTouched(history: seq<Observation>, o: Observation, g: Group)
    requires Contacts(o, g)
    ensures Sightings(history + [o], g) == Sightings(history, g) + [Sighting(o.dst, o.ts)]
  {
    assert (history + [o])[..|history|] == history;
  }

  /** A meter that counts the observation: still matching, and its total is what history says. */
  lemma MeterCounts(cfg: Config, r: Rate, history: seq<Observation>, o: Observation, m: Meter)
    requires MeterMatches(cfg, r, history, m, o.ts) && Reading(o, m).Some?
    ensures var added := RateAdd(r, o.ts, Reading(o, m).value);
      && MeterMatches(cfg, added, history + [o], m, o.ts)
      && RateTotal(added, o.ts) == Measured(cfg, history + [o], m, o.ts)
  {
    hide RateAdd, RateTotal, WindowSum, Readings;
    ReadingsTouched(history, o, m);
    RateAddMatches(r, WindowOf(cfg, m), Readings(history, m), o.ts, o.ts, Reading(o, m).value);
  }

  lemma GroupCounts(cfg: Config, w: Distinct<IpAddr>, history: seq<Observation>, o: Observation, g: Group)
    requires Sensible(cfg) && GroupMatches(cfg, w, history, g, o.ts) && Contacts(o, g)
    requires !InsertRefused(w, o.dst, o.ts, cfg.window)
    ensures var table := Inserted(w, o.dst, o.ts, cfg.window);
      && GroupMatches(cfg, table, history + [o], g, o.ts)
      && |table.seen| == HostCount(cfg, history + [o], g, o.ts)
      && table.seen != map[]
  {
    assert o.dst in Inserted(w, o.dst, o.ts, cfg.window).seen;
    hide Inserted, InsertRefused, LiveKeys, Sightings, DistinctMatches;
    SightingsTouched(history, o, g);
    InsertIsExact(w, cfg.window, Sightings(history, g), o.ts, o.dst, o.ts);
  }

  /** One gate's verdict among the other alerts of the same observation. */
  lemma GateJudgesAmong(gate: Option<int>, log: seq<Alert>, before: seq<Alert>, over: bool, a: Alert, interval: int,
      after: seq<Alert>)
    requires GateMatches(gate, log, a.kind, SubjectOf(a), a.at, interval)
    requires NoneConcern(before, a.kind, SubjectOf(a)) && NoneConcern(after, a.kind, SubjectOf(a))
    ensures When(Fires(over, gate, a.at, interval), a) == Judge(log, over, a, interval)
    ensures GateMatches(Armed(over, gate, a.at, interval), log + (before + Judge(log, over, a, interval) + after),
      a.kind, SubjectOf(a), a.at, interval)
  {
    GateJudges(gate, log, over, a, interval);
    var verdict := Judge(log, over, a, interval);
    hide Quiet, Allows, Judge, Armed, NoneConcern;
    forall t | t >= a.at
      ensures Quiet(log + (before + verdict + after), a.kind, SubjectOf(a), t, interval) <==>
        Quiet(log + verdict, a.kind, SubjectOf(a), t, interval)
    {
      QuietAppend(log, before + verdict + after, a.kind, SubjectOf(a), t, interval);
      QuietAppend(before + verdict, after, a.kind, SubjectOf(a), t, interval);
      QuietAppend(before, verdict, a.kind, SubjectOf(a), t, interval);
      QuietAppend(log, verdict, a.kind, SubjectOf(a), t, interval);
      NoneConcernQuiet(before, a.kind, SubjectOf(a), t, interval);
      NoneConcernQuiet(after, a.kind, SubjectOf(a), t, interval);
    }
  }

  /** Replacing the packet meter and its gate. */
  lemma VolumeAssembles(cfg: Config, s: Source, t: Source, history: seq<Observation>, longer: seq<Observation>,
      log: seq<Alert>, more: seq<Alert>, src: IpAddr, now: int)
    requires SourceMatches(cfg, s, history, history, log, src, now)
    requires t == s.(packets := t.packets, floodGate := t.floodGate)
    requires MeterMatches(cfg, t.packets, longer, Packets(src), now)
    requires GateMatches(t.floodGate, log + more, PacketFlood, BySource(src), now, cfg.floodInterval)
    requires forall m: Meter :: m == BytesOut(src) || m == BytesIn(src) ==> Readings(longer, m) == Readings(history, m)
    requires forall g: Group :: Sightings(longer, g) == Sightings(history, g)
    requires forall kind: Kind :: kind != PacketFlood ==> NoneConcern(more, kind, BySource(src))
    ensures SourceMatches(cfg, t, longer, longer, log + more, src, now)
  {
    hide MeterMatches, GroupMatches, GateMatches, PortTable, Readings, Sightings, NoneConcern;
    RestUnmoved(cfg, s, history, longer, history, longer, log, more, src, now);
    assert Readings(longer, BytesOut(src)) == Readings(history, BytesOut(src));
    assert Readings(longer, BytesIn(src)) == Readings(history, BytesIn(src));
    assert Sightings(longer, Group(src, None)) == Sightings(history, Group(src, None));
    assert forall port: Port :: Sightings(longer, Group(src, Some(port))) == Sightings(history, Group(src, Some(port)));
    SamePorts(cfg, s, t, longer, src, now);
  }

  lemma VolumeMatches(cfg: Config, s: Source, history: seq<Observation>, log: seq<Alert>, o: Observation)
    requires o.Volume? && o.ts >= 0 && s.Valid()
    requires SourceMatches(cfg, s, history, history, log, o.src, o.ts)
    ensures var r := SourceVolume(cfg, s, o.ts, o.src, o.packets);
      && r.alerts == Expected(cfg, history + [o], log)
      && SourceMatches(cfg, r.state, history + [o], history + [o], log + r.alerts, o.src, o.ts)
  {
    var src, longer := o.src, history + [o];
    var r := SourceVolume(cfg, s, o.ts, o.src, o.packets);
    var total := Measured(cfg, longer, Packets(src), o.ts);
    var a := Alert(PacketFlood, o.ts, src, UNSPECIFIED, 0, total, 0);
    var verdict := Judge(log, total > cfg.floodLimit, a, cfg.floodInterval);
    assert longer[..|history|] == history && longer[|history|] == o;
    MeterCounts(cfg, s.packets, history, o, Packets(src));
    GateJudgesAmong(s.floodGate, log, [], total > cfg.floodLimit, a, cfg.floodInterval, []);
    assert [] + verdict + [] == verdict;
    assert Expected(cfg, longer, log) == verdict && r.alerts == verdict;
    assert r.state == s.(
      packets := RateAdd(s.packets, o.ts, o.packets),
      floodGate := Armed(total > cfg.floodLimit, s.floodGate, o.ts, cfg.floodInterval));
    hide SourceMatches, MeterMatches, GateMatches, RateAdd, RateTotal, Measured, Armed, Expected, SourceVolume, Judge;
    forall m: Meter | m == BytesOut(src) || m == BytesIn(src)
      ensures Readings(longer, m) == Readings(history, m)
    {
      ReadingsUntouched(history, longer, m);
    }
    forall g: Group
      ensures Sightings(longer, g) == Sightings(history, g)
    {
      SightingsUntouched(history, longer, g);
    }
    VerdictConcerns(log, total > cfg.floodLimit, a, cfg.floodInterval);
    VolumeAssembles(cfg, s, r.state, history, longer, log, verdict, src, o.ts);
  }

  /** A verdict concerns nothing but its own kind and subject. */
  lemma VerdictConcerns(log: seq<Alert>, over: bool, a: Alert, interval: int)
    ensures forall kind: Kind, subject: Subject :: kind != a.kind || subject != SubjectOf(a) ==>
      NoneConcern(Judge(log, over, a, interval), kind, subject)
    ensures AllAbout(Judge(log, over, a, interval), SubjectOf(a))
    ensures PastAlerts(Judge(log, over, a, interval), a.at)
  {
  }

  /** Meters, groups and gates that an observation and its alerts do not concern. */
  lemma RestUnmoved(cfg: Config, s: Source, read: seq<Observation>, read': seq<Observation>, met: seq<Observation>,
      met': seq<Observation>, log: seq<Alert>, more: seq<Alert>, src: IpAddr, now: int)
    requires SourceMatches(cfg, s, read, met, log, src, now)
    ensures Readings(read', Packets(src)) == Readings(read, Packets(src)) ==>
      MeterMatches(cfg, s.packets, read', Packets(src), now)
    ensures Readings(read', BytesOut(src)) == Readings(read, BytesOut(src)) ==>
      MeterMatches(cfg, s.bytesOut, read', BytesOut(src), now)
    ensures Readings(read', BytesIn(src)) == Readings(read, BytesIn(src)) ==>
      MeterMatches(cfg, s.bytesIn, read', BytesIn(src), now)
    ensures Sightings(met', Group(src, None)) == Sightings(met, Group(src, None)) ==>
      GroupMatches(cfg, s.unansweredAny, met', Group(src, None), now)
    ensures forall port: Port :: Sightings(met', Group(src, Some(port))) == Sightings(met, Group(src, Some(port))) ==>
      GroupMatches(cfg, PortTable(cfg, s, port), met', Group(src, Some(port)), now)
    ensures NoneConcern(more, PacketFlood, BySource(src)) ==>
      GateMatches(s.floodGate, log + more, PacketFlood, BySource(src), now, cfg.floodInterval)
    ensures NoneConcern(more, HorizontalScan, BySource(src)) ==>
      GateMatches(s.scanGate, log + more, HorizontalScan, BySource(src), now, cfg.alertInterval)
    ensures NoneConcern(more, HostSweep, BySource(src)) ==>
      GateMatches(s.scanAnyGate, log + more, HostSweep, BySource(src), now, cfg.alertInterval)
    ensures NoneConcern(more, ExfilVolume, BySource(src)) ==>
      GateMatches(s.exfilGate, log + more, ExfilVolume, BySource(src), now, cfg.alertInterval)
    ensures NoneConcern(more, ExfilRatio, BySource(src)) ==>
      GateMatches(s.ratioGate, log + more, ExfilRatio, BySource(src), now, cfg.alertInterval)
  {
    hide RateMatches, DistinctMatches, Readings, Sightings, PortTable, GateMatches, NoneConcern;
    if NoneConcern(more, PacketFlood, BySource(src)) {
      GateIgnoresOthers(s.floodGate, log, more, PacketFlood, BySource(src), now, cfg.floodInterval);
    }
    if NoneConcern(more, HorizontalScan, BySource(src)) {
      GateIgnoresOthers(s.scanGate, log, more, HorizontalScan, BySource(src), now, cfg.alertInterval);
    }
    if NoneConcern(more, HostSweep, BySource(src)) {
      GateIgnoresOthers(s.scanAnyGate, log, more, HostSweep, BySource(src), now, cfg.alertInterval);
    }
    if NoneConcern(more, ExfilVolume, BySource(src)) {
      GateIgnoresOthers(s.exfilGate, log, more, ExfilVolume, BySource(src), now, cfg.alertInterval);
    }
    if NoneConcern(more, ExfilRatio, BySource(src)) {
      GateIgnoresOthers(s.ratioGate, log, more, ExfilRatio, BySource(src), now, cfg.alertInterval);
    }
    forall port: Port
      ensures Sightings(met', Group(src, Some(port))) == Sightings(met, Group(src, Some(port))) ==>
        GroupMatches(cfg, PortTable(cfg, s, port), met', Group(src, Some(port)), now)
    {
      assert GroupMatches(cfg, PortTable(cfg, s, port), met, Group(src, Some(port)), now);
    }
  }

  lemma SamePorts(cfg: Config, s: Source, t: Source, met: seq<Observation>, src: IpAddr, now: int)
    requires s.unansweredByPort == t.unansweredByPort
    requires forall port: Port :: GroupMatches(cfg, PortTable(cfg, s, port), met, Group(src, Some(port)), now)
    ensures forall port: Port :: GroupMatches(cfg, PortTable(cfg, t, port), met, Group(src, Some(port)), now)
  {
    hide GroupMatches;
    forall port: Port
      ensures GroupMatches(cfg, PortTable(cfg, t, port), met, Group(src, Some(port)), now)
    {
      assert GroupMatches(cfg, PortTable(cfg, s, port), met, Group(src, Some(port)), now);
      assert PortTable(cfg, t, port) == PortTable(cfg, s, port);
    }
  }

  /** Replacing the byte meters and their gates. */
  lemma BytesAssembles(cfg: Config, s: Source, t: Source, read: seq<Observation>, read': seq<Observation>,
      met: seq<Observation>, log: seq<Alert>, more: seq<Alert>, src: IpAddr, now: int)
    requires SourceMatches(cfg, s, read, met, log, src, now)
    requires t == s.(bytesOut := t.bytesOut, bytesIn := t.bytesIn, exfilGate := t.exfilGate, ratioGate := t.ratioGate)
    requires MeterMatches(cfg, t.bytesOut, read', BytesOut(src), now) &&
      MeterMatches(cfg, t.bytesIn, read', BytesIn(src), now)
    requires GateMatches(t.exfilGate, log + more, ExfilVolume, BySource(src), now, cfg.alertInterval)
    requires GateMatches(t.ratioGate, log + more, ExfilRatio, BySource(src), now, cfg.alertInterval)
    requires Readings(read', Packets(src)) == Readings(read, Packets(src))
    requires forall kind: Kind :: kind != ExfilVolume && kind != ExfilRatio ==> NoneConcern(more, kind, BySource(src))
    ensures SourceMatches(cfg, t, read', met, log + more, src, now)
  {
    hide MeterMatches, GroupMatches, GateMatches, PortTable, Readings, Sightings, NoneConcern;
    RestUnmoved(cfg, s, read, read', met, met, log, more, src, now);
    SamePorts(cfg, s, t, met, src, now);
  }

  /** Two verdicts of one observation: each kind is concerned by its own alone. */
  lemma TwoVerdicts(log: seq<Alert>, over1: bool, a1: Alert, over2: bool, a2: Alert, interval: int)
    requires a1.kind != a2.kind && SubjectOf(a1) == SubjectOf(a2) && a1.at == a2.at
    ensures var both := Judge(log, over1, a1, interval) + Judge(log, over2, a2, interval);
      && AllAbout(both, SubjectOf(a1)) && PastAlerts(both, a1.at)
      && (forall kind: Kind, subject: Subject :: (kind != a1.kind && kind != a2.kind) || subject != SubjectOf(a1) ==>
        NoneConcern(both, kind, subject))
  {
  }

  /** Both gates of a two-alert handler, judged against the same log. */
  lemma TwoGates(g1: Option<int>, g2: Option<int>, log: seq<Alert>, over1: bool, a1: Alert, over2: bool, a2: Alert,
      interval: int)
    requires GateMatches(g1, log, a1.kind, SubjectOf(a1), a1.at, interval)
    requires GateMatches(g2, log, a2.kind, SubjectOf(a2), a2.at, interval)
    requires a1.kind != a2.kind && SubjectOf(a1) == SubjectOf(a2)
    ensures When(Fires(over1, g1, a1.at, interval), a1) == Judge(log, over1, a1, interval)
    ensures When(Fires(over2, g2, a2.at, interval), a2) == Judge(log, over2, a2, interval)
    ensures var both := Judge(log, over1, a1, interval) + Judge(log, over2, a2, interval);
      && GateMatches(Armed(over1, g1, a1.at, interval), log + both, a1.kind, SubjectOf(a1), a1.at, interval)
      && GateMatches(Armed(over2, g2, a2.at, interval), log + both, a2.kind, SubjectOf(a2), a2.at, interval)
  {
    var v1, v2 := Judge(log, over1, a1, interval), Judge(log, over2, a2, interval);
    VerdictConcerns(log, over1, a1, interval);
    VerdictConcerns(log, over2, a2, interval);
    hide GateMatches, Judge, Fires, Armed, NoneConcern;
    NothingConcerns(a1.kind, SubjectOf(a1));
    NothingConcerns(a2.kind, SubjectOf(a2));
    GateJudgesAmong(g1, log, [], over1, a1, interval, v2);
    GateJudgesAmong(g2, log, v1, over2, a2, interval, []);
    assert [] + v1 + v2 == v1 + v2 && v1 + v2 + [] == v1 + v2;
  }

  lemma NothingConcerns(kind: Kind, subject: Subject)
    ensures NoneConcern([], kind, subject)
  {
  }

  lemma QuotientAbove(a: real, b: real, limit: real)
    requires b > 0.0
    ensures a / b > limit <==> a > limit * b
  {
    var q := a / b;
    assert q * b == a;
    assert (q - limit) * b == a - limit * b;
  }

  lemma ScaledKept(k: real, a: real, b: real)
    requires k >= 0.0 && a <= b
    ensures k * a <= k * b
  {
    assert k * b - k * a == k * (b - a);
  }

  /** The quotient the engine computes is over the limit exactly when what was sent outweighs what was received. */
  lemma LopsidedIff(cfg: Config, sent: nat, received: nat)
    ensures Lopsided(cfg, sent, received) <==> OutOfProportion(cfg, sent, received)
  {
    QuotientAbove(sent as real, Max(received, 1) as real, cfg.exfilRatio);
  }

  /** Sending more, or receiving less, never clears a source of it. */
  lemma LopsidedIsMonotone(cfg: Config, sent: nat, received: nat, sent': nat, received': nat)
    requires Lopsided(cfg, sent, received) && sent <= sent' && received' <= received && cfg.exfilRatio >= 0.0
    ensures Lopsided(cfg, sent', received')
  {
    LopsidedIff(cfg, sent, received);
    LopsidedIff(cfg, sent', received');
    hide Lopsided;
    ScaledKept(cfg.exfilRatio, Max(received', 1) as real, Max(received, 1) as real);
  }

  /** The verdicts on a source's bytes, once both totals are known to be right. */
  lemma BytesJudged(cfg: Config, s: Source, longer: seq<Observation>, log: seq<Alert>, now: int, src: IpAddr,
      dst: IpAddr, port: Port, bytesOut: nat, bytesIn: nat)
    requires now >= 0 && s.Valid()
    requires RateTotal(RateAdd(s.bytesOut, now, bytesOut), now) == Measured(cfg, longer, BytesOut(src), now)
    requires RateTotal(RateAdd(s.bytesIn, now, bytesIn), now) == Measured(cfg, longer, BytesIn(src), now)
    requires GateMatches(s.exfilGate, log, ExfilVolume, BySource(src), now, cfg.alertInterval)
    requires GateMatches(s.ratioGate, log, ExfilRatio, BySource(src), now, cfg.alertInterval)
    ensures var r := SourceBytes(cfg, s, now, src, dst, port, bytesOut, bytesIn);
      && r.alerts == ExpectedBytes(cfg, longer, log, now, src, dst, port)
      && AllAbout(r.alerts, BySource(src)) && PastAlerts(r.alerts, now)
      && GateMatches(r.state.exfilGate, log + r.alerts, ExfilVolume, BySource(src), now, cfg.alertInterval)
      && GateMatches(r.state.ratioGate, log + r.alerts, ExfilRatio, BySource(src), now, cfg.alertInterval)
      && forall kind: Kind :: kind != ExfilVolume && kind != ExfilRatio ==> NoneConcern(r.alerts, kind, BySource(src))
  {
    hide RateAdd, RateTotal, Measured, Lopsided, OutOfProportion, GateMatches, Fires, Armed, Judge, NoneConcern;
    hide AllAbout, PastAlerts;
    var sent, received := Measured(cfg, longer, BytesOut(src), now), Measured(cfg, longer, BytesIn(src), now);
    var a1, a2 := Alert(ExfilVolume, now, src, dst, port, sent, 0),
      Alert(ExfilRatio, now, src, dst, port, sent, received);
    var over1, over2 := sent > cfg.exfilBytes, Lopsided(cfg, sent, received);
    LopsidedIff(cfg, sent, received);
    TwoGates(s.exfilGate, s.ratioGate, log, over1, a1, over2, a2, cfg.alertInterval);
    TwoVerdicts(log, over1, a1, over2, a2, cfg.alertInterval);
  }

  lemma BytesMatches(cfg: Config, s: Source, read: seq<Observation>, met: seq<Observation>, log: seq<Alert>,
      o: Observation)
    requires (o.Flow? || o.Traffic?) && !IsBroadcastLike(o.dst) && o.ts >= 0 && s.Valid()
    requires SourceMatches(cfg, s, read, met, log, o.src, o.ts)
    ensures var r := SourceBytes(cfg, s, o.ts, o.src, o.dst, o.dstPort, o.bytesOut, o.bytesIn);
      && r.alerts == ExpectedBytes(cfg, read + [o], log, o.ts, o.src, o.dst, o.dstPort)
      && AllAbout(r.alerts, BySource(o.src)) && PastAlerts(r.alerts, o.ts)
      && SourceMatches(cfg, r.state, read + [o], met, log + r.alerts, o.src, o.ts)
  {
    var src, now, longer := o.src, o.ts, read + [o];
    assert longer[..|read|] == read && longer[|read|] == o;
    assert Reading(o, BytesOut(src)) == Some(o.bytesOut) && Reading(o, BytesIn(src)) == Some(o.bytesIn);
    MeterCounts(cfg, s.bytesOut, read, o, BytesOut(src));
    MeterCounts(cfg, s.bytesIn, read, o, BytesIn(src));
    BytesJudged(cfg, s, longer, log, now, src, o.dst, o.dstPort, o.bytesOut, o.bytesIn);
    ReadingsUntouched(read, longer, Packets(src));
    hide SourceMatches, MeterMatches, GateMatches, RateAdd, RateTotal, ExpectedBytes, Fires, Armed, NoneConcern;
    var r := SourceBytes(cfg, s, now, src, o.dst, o.dstPort, o.bytesOut, o.bytesIn);
    BytesAssembles(cfg, s, r.state, read, longer, met, log, r.alerts, src, now);
  }

  /** Replacing one port's table, the any-port table and the scan gates. */
  lemma UnansweredAssembles(cfg: Config, s: Source, t: Source, read: seq<Observation>, met: seq<Observation>,
      met': seq<Observation>, log: seq<Alert>, more: seq<Alert>, src: IpAddr, port: Port, table: Distinct<IpAddr>,
      now: int)
    requires SourceMatches(cfg, s, read, met, log, src, now)
    requires t == s.(unansweredByPort := s.unansweredByPort[port := table], unansweredAny := t.unansweredAny,
                     scanGate := t.scanGate, scanAnyGate := t.scanAnyGate)
    requires GroupMatches(cfg, t.unansweredAny, met', Group(src, None), now)
    requires GroupMatches(cfg, table, met', Group(src, Some(port)), now) && table.seen != map[]
    requires GateMatches(t.scanGate, log + more, HorizontalScan, BySource(src), now, cfg.alertInterval)
    requires GateMatches(t.scanAnyGate, log + more, HostSweep, BySource(src), now, cfg.alertInterval)
    requires forall other: Port :: other != port ==>
      Sightings(met', Group(src, Some(other))) == Sightings(met, Group(src, Some(other)))
    requires forall kind: Kind :: kind != HorizontalScan && kind != HostSweep ==> NoneConcern(more, kind, BySource(src))
    ensures SourceMatches(cfg, t, read, met', log + more, src, now)
  {
    hide MeterMatches, GroupMatches, GateMatches, Readings, Sightings, NoneConcern;
    RestUnmoved(cfg, s, read, read, met, met', log, more, src, now);
    forall other: Port
      ensures GroupMatches(cfg, PortTable(cfg, t, other), met', Group(src, Some(other)), now)
    {
      if other != port {
        assert PortTable(cfg, t, other) == PortTable(cfg, s, other);
        assert Sightings(met', Group(src, Some(other))) == Sightings(met, Group(src, Some(other)));
      }
    }
  }

  /** As long as no table is empty, the bound on the per-port map drops nothing. */
  lemma PortBoundDropsNothing(ports: map<Port, Distinct<IpAddr>>)
    requires forall p :: p in ports ==> ports[p].seen != map[]
    ensures PortsBounded(ports) == ports
  {
    forall p | p in ports
      ensures |ports[p].seen| > 0
    {
      var k :| k in ports[p].seen;
    }
  }

  /** The verdicts of an unanswered connection, once both counts are known to be right. */
  lemma UnansweredJudged(cfg: Config, s: Source, longer: seq<Observation>, log: seq<Alert>, now: int, src: IpAddr,
      dst: IpAddr, port: Port)
    requires now >= 0 && s.Valid()
    requires |Inserted(PortTable(cfg, s, port), dst, now, cfg.window).seen| ==
      HostCount(cfg, longer, Group(src, Some(port)), now)
    requires |Inserted(s.unansweredAny, dst, now, cfg.window).seen| == HostCount(cfg, longer, Group(src, None), now)
    requires GateMatches(s.scanGate, log, HorizontalScan, BySource(src), now, cfg.alertInterval)
    requires GateMatches(s.scanAnyGate, log, HostSweep, BySource(src), now, cfg.alertInterval)
    ensures var r := SourceUnanswered(cfg, s, now, src, dst, port);
      && r.alerts == ExpectedUnanswered(cfg, longer, log, now, src, dst, port)
      && AllAbout(r.alerts, BySource(src)) && PastAlerts(r.alerts, now)
      && GateMatches(r.state.scanGate, log + r.alerts, HorizontalScan, BySource(src), now, cfg.alertInterval)
      && GateMatches(r.state.scanAnyGate, log + r.alerts, HostSweep, BySource(src), now, cfg.alertInterval)
      && forall kind: Kind :: kind != HorizontalScan && kind != HostSweep ==> NoneConcern(r.alerts, kind, BySource(src))
  {
    hide Inserted, PortTable, PortsBounded, HostCount, GateMatches, Fires, Armed, Judge, NoneConcern, AllAbout,
      PastAlerts;
    var perPort, anyPort := HostCount(cfg, longer, Group(src, Some(port)), now),
      HostCount(cfg, longer, Group(src, None), now);
    var a1, a2 := Alert(HorizontalScan, now, src, dst, port, perPort, 0),
      Alert(HostSweep, now, src, dst, port, anyPort, 0);
    var over1, over2 := perPort > cfg.horizontalScanHosts, anyPort > cfg.horizontalScanHostsAnyPort;
    TwoGates(s.scanGate, s.scanAnyGate, log, over1, a1, over2, a2, cfg.alertInterval);
    TwoVerdicts(log, over1, a1, over2, a2, cfg.alertInterval);
  }

  /** The part of a source's match that an unanswered connection is judged on. */
  lemma ContactsMatch(cfg: Config, s: Source, read: seq<Observation>, met: seq<Observation>, log: seq<Alert>,
      src: IpAddr, port: Port, now: int)
    requires SourceMatches(cfg, s, read, met, log, src, now)
    ensures GroupMatches(cfg, PortTable(cfg, s, port), met, Group(src, Some(port)), now)
    ensures GroupMatches(cfg, s.unansweredAny, met, Group(src, None), now)
    ensures GateMatches(s.scanGate, log, HorizontalScan, BySource(src), now, cfg.alertInterval)
    ensures GateMatches(s.scanAnyGate, log, HostSweep, BySource(src), now, cfg.alertInterval)
    ensures forall p :: p in s.unansweredByPort ==> s.unansweredByPort[p].seen != map[]
  {
    hide GroupMatches, MeterMatches, GateMatches, PortTable;
  }

  lemma OtherPortsUnmet(met: seq<Observation>, o: Observation, port: Port)
    requires o.Flow? && o.dstPort == port
    ensures forall other: Port :: other != port ==>
      Sightings(met + [o], Group(o.src, Some(other))) == Sightings(met, Group(o.src, Some(other)))
  {
    hide Sightings;
    forall other: Port | other != port
      ensures Sightings(met + [o], Group(o.src, Some(other))) == Sightings(met, Group(o.src, Some(other)))
    {
      assert (met + [o])[..|met|] == met;
      SightingsUntouched(met, met + [o], Group(o.src, Some(other)));
    }
  }

  lemma UnansweredMatches(cfg: Config, s: Source, read: seq<Observation>, met: seq<Observation>, log: seq<Alert>,
      o: Observation)
    requires Sensible(cfg) && o.Flow? && !o.answered && o.ts >= 0 && s.Valid()
    requires SourceMatches(cfg, s, read, met, log, o.src, o.ts)
    requires !InsertRefused(PortTable(cfg, s, o.dstPort), o.dst, o.ts, cfg.window)
    requires !InsertRefused(s.unansweredAny, o.dst, o.ts, cfg.window)
    ensures var r := SourceUnanswered(cfg, s, o.ts, o.src, o.dst, o.dstPort);
      && r.alerts == ExpectedUnanswered(cfg, met + [o], log, o.ts, o.src, o.dst, o.dstPort)
      && AllAbout(r.alerts, BySource(o.src)) && PastAlerts(r.alerts, o.ts)
      && SourceMatches(cfg, r.state, read, met + [o], log + r.alerts, o.src, o.ts)
  {
    hide GroupMatches, SourceMatches, ExpectedUnanswered, GateMatches, Inserted, InsertRefused, PortTable, PortsBounded;
    hide HostCount, Armed, Fires, NoneConcern, AllAbout, PastAlerts, Sightings, Sensible, Source.Valid, Judge;
    var src, now, port, longer := o.src, o.ts, o.dstPort, met + [o];
    var table := Inserted(PortTable(cfg, s, port), o.dst, now, cfg.window);
    ContactsMatch(cfg, s, read, met, log, src, port, now);
    GroupCounts(cfg, PortTable(cfg, s, port), met, o, Group(src, Some(port)));
    GroupCounts(cfg, s.unansweredAny, met, o, Group(src, None));
    PortBoundDropsNothing(s.unansweredByPort[port := table]);
    UnansweredJudged(cfg, s, longer, log, now, src, o.dst, port);
    OtherPortsUnmet(met, o, port);
    var r := SourceUnanswered(cfg, s, now, src, o.dst, port);
    UnansweredAssembles(cfg, s, r.state, read, met, longer, log, r.alerts, src, port, table, now);
  }

  /** One gate's verdict when the observation raises nothing else. */
  lemma GateJudgesAlone(gate: Option<int>, log: seq<Alert>, over: bool, a: Alert, interval: int)
    requires GateMatches(gate, log, a.kind, SubjectOf(a), a.at, interval)
    ensures When(Fires(over, gate, a.at, interval), a) == Judge(log, over, a, interval)
    ensures GateMatches(Armed(over, gate, a.at, interval), log + Judge(log, over, a, interval),
                        a.kind, SubjectOf(a), a.at, interval)
  {
    hide GateMatches, Judge, Armed, Fires, NoneConcern;
    NothingConcerns(a.kind, SubjectOf(a));
    GateJudgesAmong(gate, log, [], over, a, interval, []);
    var verdict := Judge(log, over, a, interval);
    assert [] + verdict + [] == verdict;
  }

  /** What one attempt adds to the history and what the judge makes of it. */
  lemma AttemptExpected(cfg: Config, history: seq<Observation>, log: seq<Alert>, o: Observation)
    requires o.AuthAttempt?
    ensures Reading(o, Attempts(ServiceOf(o))) == Some(1)
    ensures Readings(history + [o], Failures(ServiceOf(o))) == Readings(history, Failures(ServiceOf(o)))
    ensures var n := Measured(cfg, history + [o], Attempts(ServiceOf(o)), o.ts);
      Expected(cfg, history + [o], log) ==
        Judge(log, n > cfg.bruteForceAttempts, Alert(BruteForceAttempts, o.ts, o.src, o.dst, o.dstPort, n, 0),
          cfg.alertInterval)
  {
    hide Measured, Judge, Readings;
    assert (history + [o])[..|history|] == history;
    ReadingsUntouched(history, history + [o], Failures(ServiceOf(o)));
  }

  lemma AttemptMatches(cfg: Config, p: Pair, history: seq<Observation>, log: seq<Alert>, o: Observation)
    requires o.AuthAttempt? && o.ts >= 0 && p.Valid()
    requires PairMatches(cfg, p, history, log, ServiceOf(o), o.ts)
    ensures var r := PairAttempt(cfg, p, o.ts, ServiceOf(o));
      && r.alerts == Expected(cfg, history + [o], log)
      && AllAbout(r.alerts, ByService(ServiceOf(o))) && PastAlerts(r.alerts, o.ts)
      && PairMatches(cfg, r.state, history + [o], log + r.alerts, ServiceOf(o), o.ts)
  {
    hide Expected, Reading, Readings, RateMatches, RateAdd, RateTotal, Measured, GateMatches, Judge, Fires, Armed;
    hide NoneConcern, AllAbout, PastAlerts, Pair.Valid, Rate.Valid;
    var key, now, longer := ServiceOf(o), o.ts, history + [o];
    AttemptExpected(cfg, history, log, o);
    MeterCounts(cfg, p.authAttempts, history, o, Attempts(key));
    var n := Measured(cfg, longer, Attempts(key), now);
    var a, over := Alert(BruteForceAttempts, now, key.src, key.dst, key.port, n, 0), n > cfg.bruteForceAttempts;
    GateJudgesAlone(p.authGate, log, over, a, cfg.alertInterval);
    VerdictConcerns(log, over, a, cfg.alertInterval);
    GateIgnoresOthers(p.failureGate, log, Judge(log, over, a, cfg.alertInterval), BruteForceFailures, ByService(key),
      now, cfg.alertInterval);
  }

  /** What one failure adds to the history and what the judge makes of it. */
  lemma FailureExpected(cfg: Config, history: seq<Observation>, log: seq<Alert>, o: Observation)
    requires o.AuthFailure?
    ensures Reading(o, Failures(ServiceOf(o))) == Some(1)
    ensures Readings(history + [o], Attempts(ServiceOf(o))) == Readings(history, Attempts(ServiceOf(o)))
    ensures var n := Measured(cfg, history + [o], Failures(ServiceOf(o)), o.ts);
      Expected(cfg, history + [o], log) ==
        Judge(log, n > cfg.bruteForceFailures, Alert(BruteForceFailures, o.ts, o.src, o.dst, o.dstPort, n, 0),
          cfg.alertInterval)
  {
    hide Measured, Judge, Readings;
    assert (history + [o])[..|history|] == history;
    ReadingsUntouched(history, history + [o], Attempts(ServiceOf(o)));
  }

  lemma FailureMatches(cfg: Config, p: Pair, history: seq<Observation>, log: seq<Alert>, o: Observation)
    requires o.AuthFailure? && o.ts >= 0 && p.Valid()
    requires PairMatches(cfg, p, history, log, ServiceOf(o), o.ts)
    ensures var r := PairFailure(cfg, p, o.ts, ServiceOf(o));
      && r.alerts == Expected(cfg, history + [o], log)
      && AllAbout(r.alerts, ByService(ServiceOf(o))) && PastAlerts(r.alerts, o.ts)
      && PairMatches(cfg, r.state, history + [o], log + r.alerts, ServiceOf(o), o.ts)
  {
    hide Expected, Reading, Readings, RateMatches, RateAdd, RateTotal, Measured, GateMatches, Judge, Fires, Armed;
    hide NoneConcern, AllAbout, PastAlerts, Pair.Valid, Rate.Valid;
    var key, now, longer := ServiceOf(o), o.ts, history + [o];
    FailureExpected(cfg, history, log, o);
    MeterCounts(cfg, p.authFailures, history, o, Failures(key));
    var n := Measured(cfg, longer, Failures(key), now);
    var a, over := Alert(BruteForceFailures, now, key.src, key.dst, key.port, n, 0), n > cfg.bruteForceFailures;
    GateJudgesAlone(p.failureGate, log, over, a, cfg.alertInterval);
    VerdictConcerns(log, over, a, cfg.alertInterval);
    GateIgnoresOthers(p.authGate, log, Judge(log, over, a, cfg.alertInterval), BruteForceAttempts, ByService(key),
      now, cfg.alertInterval);
  }

  // ----- One observation through the engine -----

  /** Some table the observation needs is full. */
  predicate Refuses(cfg: Config, e: Engine, o: Observation) {
    var now := o.ts;
    match o
    case AuthAttempt(_, src, dst, port, _) => PairRefused(cfg, e, PairKey(src, dst, port))
    case AuthFailure(_, src, dst, port, _) => PairRefused(cfg, e, PairKey(src, dst, port))
    case Volume(_, src, _) => SourceRefused(cfg, e, src)
    case Traffic(_, src, dst, _, _, _) => !IsBroadcastLike(dst) && SourceRefused(cfg, e, src)
    case Flow(_, src, dst, port, _, _, answered) =>
      var s := SourceAt(cfg, e, src, now);
      || ((!answered || !IsBroadcastLike(dst)) && SourceRefused(cfg, e, src))
      || (!answered && (InsertRefused(PortTable(cfg, s, port), dst, now, cfg.window) ||
        InsertRefused(s.unansweredAny, dst, now, cfg.window)))
    case DnsQuery(_, _, _, _) => false
  }

  /** History, log and clock so far, and an engine that answers for them. */
  ghost predicate InStep(cfg: Config, e: Engine, history: seq<Observation>, log: seq<Alert>, now: int) {
    && Sensible(cfg) && now >= 0
    && Simulates(cfg, e, history, history, log, now)
    && Past(history, now) && PastAlerts(log, now)
  }

  ghost predicate Advances(cfg: Config, r: Step<Engine>, history: seq<Observation>, log: seq<Alert>, o: Observation) {
    r.alerts == Expected(cfg, history + [o], log) && InStep(cfg, r.state, history + [o], log + r.alerts, o.ts)
  }

  lemma PastGrows(history: seq<Observation>, o: Observation, log: seq<Alert>, more: seq<Alert>)
    requires Past(history, o.ts) && PastAlerts(log, o.ts) && PastAlerts(more, o.ts)
    ensures Past(history + [o], o.ts) && PastAlerts(log + more, o.ts)
  {
  }

  lemma SourceAvailable(cfg: Config, e: Engine, read: seq<Observation>, met: seq<Observation>, log: seq<Alert>,
      src: IpAddr, now: int)
    requires Simulates(cfg, e, read, met, log, now)
    ensures SourceAt(cfg, e, src, now).Valid() && e.Valid()
    ensures SourceMatches(cfg, SourceAt(cfg, e, src, now), read, met, log, src, now)
  {
  }

  lemma OnlySourceAppend(history: seq<Observation>, o: Observation)
    requires o.Volume? || o.Flow? || o.Traffic?
    ensures OnlySource(history, history + [o], o.src) && OnlySource(history, history, o.src)
  {
    assert (history + [o])[..|history|] == history;
  }

  lemma VolumeStep(cfg: Config, e: Engine, history: seq<Observation>, log: seq<Alert>, o: Observation)
    requires InStep(cfg, e, history, log, o.ts) && o.Volume? && !Refuses(cfg, e, o)
    ensures Advances(cfg, Dispatch(cfg, e, o), history, log, o)
  {
    var s := SourceAt(cfg, e, o.src, o.ts);
    SourceAvailable(cfg, e, history, history, log, o.src, o.ts);
    var r := SourceVolume(cfg, s, o.ts, o.src, o.packets);
    assert AllAbout(r.alerts, BySource(o.src)) && PastAlerts(r.alerts, o.ts) && r.state.lastSeen == o.ts;
    hide SourceMatches, Expected, SourceVolume, SourceAt, Simulates, Past, PastAlerts, AllAbout, OnlySource;
    VolumeMatches(cfg, s, history, log, o);
    PastGrows(history, o, log, r.alerts);
    OnlySourceAppend(history, o);
    SourceStepSimulates(cfg, e, history, history + [o], history, history + [o], log, r.alerts, o.src, r.state, o.ts);
  }

  lemma BytesStep(cfg: Config, e: Engine, read: seq<Observation>, met: seq<Observation>, log: seq<Alert>,
      o: Observation)
    requires Sensible(cfg) && o.ts >= 0 && Simulates(cfg, e, read, met, log, o.ts)
    requires Past(read, o.ts) && Past(met, o.ts) && PastAlerts(log, o.ts)
    requires (o.Flow? || o.Traffic?) && !IsBroadcastLike(o.dst) && !SourceRefused(cfg, e, o.src)
    ensures var r := OnBytes(cfg, e, o.ts, o.src, o.dst, o.dstPort, o.bytesOut, o.bytesIn);
      && r.alerts == ExpectedBytes(cfg, read + [o], log, o.ts, o.src, o.dst, o.dstPort)
      && Simulates(cfg, r.state, read + [o], met, log + r.alerts, o.ts)
      && PastAlerts(r.alerts, o.ts)
  {
    var s := SourceAt(cfg, e, o.src, o.ts);
    SourceAvailable(cfg, e, read, met, log, o.src, o.ts);
    var r := SourceBytes(cfg, s, o.ts, o.src, o.dst, o.dstPort, o.bytesOut, o.bytesIn);
    assert r.state.lastSeen == o.ts;
    hide SourceMatches, ExpectedBytes, SourceBytes, SourceAt, Simulates, Past, PastAlerts, AllAbout, OnlySource;
    BytesMatches(cfg, s, read, met, log, o);
    PastGrows(read, o, log, r.alerts);
    OnlySourceAppend(read, o);
    OnlySourceAppend(met, o);
    SourceStepSimulates(cfg, e, read, read + [o], met, met, log, r.alerts, o.src, r.state, o.ts);
  }

  lemma UnansweredStep(cfg: Config, e: Engine, history: seq<Observation>, log: seq<Alert>, o: Observation)
    requires InStep(cfg, e, history, log, o.ts) && o.Flow? && !o.answered && !Refuses(cfg, e, o)
    ensures var r := OnUnanswered(cfg, e, o.ts, o.src, o.dst, o.dstPort);
      && r.alerts == ExpectedUnanswered(cfg, history + [o], log, o.ts, o.src, o.dst, o.dstPort)
      && Simulates(cfg, r.state, history, history + [o], log + r.alerts, o.ts)
      && PastAlerts(r.alerts, o.ts)
      && !SourceRefused(cfg, r.state, o.src)
  {
    var s := SourceAt(cfg, e, o.src, o.ts);
    SourceAvailable(cfg, e, history, history, log, o.src, o.ts);
    var r := SourceUnanswered(cfg, s, o.ts, o.src, o.dst, o.dstPort);
    assert r.state.lastSeen == o.ts;
    hide SourceMatches, ExpectedUnanswered, SourceUnanswered, SourceAt, Simulates, Past, PastAlerts, AllAbout,
      OnlySource, InsertRefused;
    UnansweredMatches(cfg, s, history, history, log, o);
    PastGrows(history, o, log, r.alerts);
    OnlySourceAppend(history, o);
    SourceStepSimulates(cfg, e, history, history, history, history + [o], log, r.alerts, o.src, r.state, o.ts);
  }

  /** The refusal counters play no part in any answer. */
  lemma CountersInvisible(cfg: Config, e: Engine, after: Engine, read: seq<Observation>, met: seq<Observation>,
      log: seq<Alert>, now: int)
    requires Simulates(cfg, e, read, met, log, now)
    requires after.sources == e.sources && after.pairs == e.pairs
    ensures Simulates(cfg, after, read, met, log, now)
  {
    hide SourceMatches, PairMatches, SourceQuietSince, PairQuietSince;
    forall src: IpAddr
      ensures SourceMatches(cfg, SourceAt(cfg, after, src, now), read, met, log, src, now)
    {
      assert SourceAt(cfg, after, src, now) == SourceAt(cfg, e, src, now);
    }
    forall key: PairKey
      ensures PairMatches(cfg, PairAt(cfg, after, key, now), read, log, key, now)
    {
      assert PairAt(cfg, after, key, now) == PairAt(cfg, e, key, now);
    }
  }

  /** Touching a service's state, or being refused it, changes no answer. */
  lemma TouchStep(cfg: Config, e: Engine, read: seq<Observation>, met: seq<Observation>, log: seq<Alert>,
      key: PairKey, now: int)
    requires Simulates(cfg, e, read, met, log, now) && Past(read, now) && PastAlerts(log, now)
    ensures Simulates(cfg, OnPair(cfg, e, key, Step(PairAt(cfg, e, key, now), [])).state, read, met, log, now)
  {
    var p := PairAt(cfg, e, key, now);
    PairAvailable(cfg, e, read, met, log, key, now);
    hide PairMatches, Simulates, PairAt;
    if PairRefused(cfg, e, key) {
      CountersInvisible(cfg, e, e.(pairsRefused := e.pairsRefused + 1), read, met, log, now);
    } else {
      assert log + [] == log;
      PairStepSimulates(cfg, e, read, read, met, met, log, [], key, p, now);
    }
  }

  /** Alerts of other kinds do not change a verdict. */
  lemma JudgeIgnores(log: seq<Alert>, more: seq<Alert>, over: bool, a: Alert, interval: int)
    requires NoneConcern(more, a.kind, SubjectOf(a))
    ensures Judge(log + more, over, a, interval) == Judge(log, over, a, interval)
  {
    QuietAppend(log, more, a.kind, SubjectOf(a), a.at, interval);
    NoneConcernQuiet(more, a.kind, SubjectOf(a), a.at, interval);
  }

  lemma BytesIgnoreScans(cfg: Config, history: seq<Observation>, log: seq<Alert>, now: int, src: IpAddr, dst: IpAddr,
      port: Port)
    ensures var scans := ExpectedUnanswered(cfg, history, log, now, src, dst, port);
      ExpectedBytes(cfg, history, log + scans, now, src, dst, port) ==
      ExpectedBytes(cfg, history, log, now, src, dst, port)
  {
    var scans := ExpectedUnanswered(cfg, history, log, now, src, dst, port);
    hide Measured, HostCount, Quiet, OutOfProportion;
    var sent, received := Measured(cfg, history, BytesOut(src), now), Measured(cfg, history, BytesIn(src), now);
    JudgeIgnores(log, scans, sent > cfg.exfilBytes, Alert(ExfilVolume, now, src, dst, port, sent, 0),
      cfg.alertInterval);
    JudgeIgnores(log, scans, OutOfProportion(cfg, sent, received),
      Alert(ExfilRatio, now, src, dst, port, sent, received), cfg.alertInterval);
  }

  /** One more observation that no meter reads. */
  ghost predicate Unread(before: seq<Observation>, after: seq<Observation>) {
    after == before ||
    (|after| == |before| + 1 && after[..|before|] == before && forall m: Meter :: Reading(after[|before|], m) == None)
  }

  /** One more observation that contacts nobody. */
  ghost predicate Unmet(before: seq<Observation>, after: seq<Observation>) {
    after == before ||
    (|after| == |before| + 1 && after[..|before|] == before && forall g: Group :: !Contacts(after[|before|], g))
  }

  lemma UncountedQuiet(read: seq<Observation>, read': seq<Observation>, met: seq<Observation>, met': seq<Observation>,
      log: seq<Alert>, src: IpAddr, seen: int)
    requires SourceQuietSince(read, met, log, src, seen) && Unread(read, read') && Unmet(met, met')
    ensures SourceQuietSince(read', met', log, src, seen)
  {
    assert forall i :: 0 <= i < |read| ==> read'[i] == read'[..|read|][i];
    assert forall i :: 0 <= i < |met| ==> met'[i] == met'[..|met|][i];
    if read' != read {
      assert Reading(read'[|read|], Packets(src)) == None && Reading(read'[|read|], BytesOut(src)) == None;
    }
    if met' != met {
      assert !Contacts(met'[|met|], Group(src, None));
    }
  }

  lemma UncountedPairQuiet(read: seq<Observation>, read': seq<Observation>, log: seq<Alert>, key: PairKey, seen: int)
    requires PairQuietSince(read, log, key, seen) && Unread(read, read')
    ensures PairQuietSince(read', log, key, seen)
  {
    assert forall i :: 0 <= i < |read| ==> read'[i] == read'[..|read|][i];
    if read' != read {
      assert Reading(read'[|read|], Attempts(key)) == None && Reading(read'[|read|], Failures(key)) == None;
    }
  }

  lemma UncountedSource(cfg: Config, s: Source, read: seq<Observation>, read': seq<Observation>,
      met: seq<Observation>, met': seq<Observation>, log: seq<Alert>, src: IpAddr, now: int)
    requires SourceMatches(cfg, s, read, met, log, src, now) && Unread(read, read') && Unmet(met, met')
    ensures SourceMatches(cfg, s, read', met', log, src, now)
  {
    hide SourceMatches;
    forall m: Meter
      ensures Readings(read', m) == Readings(read, m)
    {
      ReadingsUntouched(read, read', m);
    }
    forall g: Group
      ensures Sightings(met', g) == Sightings(met, g)
    {
      SightingsUntouched(met, met', g);
    }
    assert log + [] == log;
    SourceUnmoved(cfg, s, read, read', met, met', log, [], src, now);
  }

  lemma UncountedPair(cfg: Config, p: Pair, read: seq<Observation>, read': seq<Observation>, log: seq<Alert>,
      key: PairKey, now: int)
    requires PairMatches(cfg, p, read, log, key, now) && Unread(read, read')
    ensures PairMatches(cfg, p, read', log, key, now)
  {
    hide PairMatches;
    forall m: Meter
      ensures Readings(read', m) == Readings(read, m)
    {
      ReadingsUntouched(read, read', m);
    }
    assert log + [] == log;
    PairUnmoved(cfg, p, read, read', log, [], key, now);
  }

  lemma UncountedSimulates(cfg: Config, e: Engine, read: seq<Observation>, read': seq<Observation>,
      met: seq<Observation>, met': seq<Observation>, log: seq<Alert>, now: int)
    requires Simulates(cfg, e, read, met, log, now) && Unread(read, read') && Unmet(met, met')
    ensures Simulates(cfg, e, read', met', log, now)
  {
    hide SourceMatches, PairMatches, SourceQuietSince, PairQuietSince, Unread, Unmet;
    forall src: IpAddr
      ensures SourceMatches(cfg, SourceAt(cfg, e, src, now), read', met', log, src, now)
    {
      assert SourceMatches(cfg, SourceAt(cfg, e, src, now), read, met, log, src, now);
      UncountedSource(cfg, SourceAt(cfg, e, src, now), read, read', met, met', log, src, now);
    }
    forall key: PairKey
      ensures PairMatches(cfg, PairAt(cfg, e, key, now), read', log, key, now)
    {
      assert PairMatches(cfg, PairAt(cfg, e, key, now), read, log, key, now);
      UncountedPair(cfg, PairAt(cfg, e, key, now), read, read', log, key, now);
    }
    forall src | src in e.sources
      ensures SourceQuietSince(read', met', log, src, e.sources[src].lastSeen)
    {
      UncountedQuiet(read, read', met, met', log, src, e.sources[src].lastSeen);
    }
    forall key | key in e.pairs
      ensures PairQuietSince(read', log, key, e.pairs[key].lastSeen)
    {
      UncountedPairQuiet(read, read', log, key, e.pairs[key].lastSeen);
    }
  }

  lemma UncountedAppend(history: seq<Observation>, o: Observation)
    ensures (forall m: Meter :: Reading(o, m) == None) ==> Unread(history, history + [o])
    ensures (forall g: Group :: !Contacts(o, g)) ==> Unmet(history, history + [o])
  {
    assert (history + [o])[..|history|] == history && (history + [o])[|history|] == o;
  }

  lemma PairAvailable(cfg: Config, e: Engine, read: seq<Observation>, met: seq<Observation>, log: seq<Alert>,
      key: PairKey, now: int)
    requires Simulates(cfg, e, read, met, log, now)
    ensures PairAt(cfg, e, key, now).Valid() && e.Valid()
    ensures PairMatches(cfg, PairAt(cfg, e, key, now), read, log, key, now)
  {
  }

  lemma OnlyServiceAppend(history: seq<Observation>, o: Observation)
    requires o.AuthAttempt? || o.AuthFailure?
    ensures OnlyService(history, history + [o], ServiceOf(o))
  {
    assert (history + [o])[..|history|] == history;
  }

  lemma AttemptStep(cfg: Config, e: Engine, history: seq<Observation>, log: seq<Alert>, o: Observation)
    requires InStep(cfg, e, history, log, o.ts) && o.AuthAttempt? && !Refuses(cfg, e, o)
    ensures Advances(cfg, Dispatch(cfg, e, o), history, log, o)
  {
    var key := ServiceOf(o);
    var p := PairAt(cfg, e, key, o.ts);
    PairAvailable(cfg, e, history, history, log, key, o.ts);
    var r := PairAttempt(cfg, p, o.ts, key);
    assert r.state.lastSeen == o.ts;
    hide PairMatches, Expected, PairAttempt, PairAt, Simulates, Past, PastAlerts, AllAbout, OnlyService;
    AttemptMatches(cfg, p, history, log, o);
    PastGrows(history, o, log, r.alerts);
    OnlyServiceAppend(history, o);
    PairStepSimulates(cfg, e, history, history + [o], history, history + [o], log, r.alerts, key, r.state, o.ts);
  }

  lemma FailureStep(cfg: Config, e: Engine, history: seq<Observation>, log: seq<Alert>, o: Observation)
    requires InStep(cfg, e, history, log, o.ts) && o.AuthFailure? && !Refuses(cfg, e, o)
    ensures Advances(cfg, Dispatch(cfg, e, o), history, log, o)
  {
    var key := ServiceOf(o);
    var p := PairAt(cfg, e, key, o.ts);
    PairAvailable(cfg, e, history, history, log, key, o.ts);
    var r := PairFailure(cfg, p, o.ts, key);
    assert r.state.lastSeen == o.ts;
    hide PairMatches, Expected, PairFailure, PairAt, Simulates, Past, PastAlerts, AllAbout, OnlyService;
    FailureMatches(cfg, p, history, log, o);
    PastGrows(history, o, log, r.alerts);
    OnlyServiceAppend(history, o);
    PairStepSimulates(cfg, e, history, history + [o], history, history + [o], log, r.alerts, key, r.state, o.ts);
  }

  /** An observation nothing counts: no alert, and no difference. */
  lemma UncountedStep(cfg: Config, e: Engine, history: seq<Observation>, log: seq<Alert>, o: Observation)
    requires InStep(cfg, e, history, log, o.ts)
    requires (forall m: Meter :: Reading(o, m) == None) && (forall g: Group :: !Contacts(o, g))
    requires Dispatch(cfg, e, o) == Step(e, []) && Expected(cfg, history + [o], log) == []
    ensures Advances(cfg, Dispatch(cfg, e, o), history, log, o)
  {
    hide Simulates, Dispatch, Expected, Unread, Unmet, Reading, Contacts;
    UncountedAppend(history, o);
    UncountedSimulates(cfg, e, history, history + [o], history, history + [o], log, o.ts);
    assert log + [] == log;
  }

  lemma TrafficStep(cfg: Config, e: Engine, history: seq<Observation>, log: seq<Alert>, o: Observation)
    requires InStep(cfg, e, history, log, o.ts) && o.Traffic? && !Refuses(cfg, e, o)
    ensures Advances(cfg, Dispatch(cfg, e, o), history, log, o)
  {
    if IsBroadcastLike(o.dst) {
      hide InStep;
      UncountedStep(cfg, e, history, log, o);
    } else {
      var r := OnBytes(cfg, e, o.ts, o.src, o.dst, o.dstPort, o.bytesOut, o.bytesIn);
      assert Dispatch(cfg, e, o) == r;
      assert Expected(cfg, history + [o], log) == ExpectedBytes(cfg, history + [o], log, o.ts, o.src, o.dst, o.dstPort);
      hide Simulates, Dispatch, OnBytes, Expected, ExpectedBytes, Past, PastAlerts, Unmet, Contacts;
      BytesStep(cfg, e, history, history, log, o);
      NoContact(history, o);
      UncountedSimulates(cfg, r.state, history + [o], history + [o], history, history + [o], log + r.alerts, o.ts);
      PastGrows(history, o, log, r.alerts);
    }
  }

  lemma NoContact(history: seq<Observation>, o: Observation)
    requires o.Flow? ==> o.answered
    ensures Unmet(history, history + [o])
  {
    UncountedAppend(history, o);
  }

  /** The first half of a connection: its contact, when it went unanswered. */
  lemma ContactStep(cfg: Config, e: Engine, history: seq<Observation>, log: seq<Alert>, o: Observation)
    requires InStep(cfg, e, history, log, o.ts) && o.Flow? && !Refuses(cfg, e, o)
    ensures var first := if o.answered then Step(e, []) else OnUnanswered(cfg, e, o.ts, o.src, o.dst, o.dstPort);
      && first.alerts ==
         (if o.answered then [] else ExpectedUnanswered(cfg, history + [o], log, o.ts, o.src, o.dst, o.dstPort))
      && Simulates(cfg, first.state, history, history + [o], log + first.alerts, o.ts)
      && PastAlerts(first.alerts, o.ts)
      && (!IsBroadcastLike(o.dst) ==> !SourceRefused(cfg, first.state, o.src))
  {
    hide Simulates, OnUnanswered, ExpectedUnanswered, Past, Unmet, Contacts;
    if o.answered {
      NoContact(history, o);
      UncountedSimulates(cfg, e, history, history, history, history + [o], log, o.ts);
      assert log + [] == log;
    } else {
      UnansweredStep(cfg, e, history, log, o);
    }
  }

  lemma GroupFlowUnfolds(cfg: Config, e: Engine, history: seq<Observation>, log: seq<Alert>, o: Observation)
    requires e.Valid() && o.Flow? && IsBroadcastLike(o.dst)
    ensures Dispatch(cfg, e, o) ==
      if o.answered then Step(e, []) else OnUnanswered(cfg, e, o.ts, o.src, o.dst, o.dstPort)
    ensures Expected(cfg, history + [o], log) ==
      if o.answered then [] else ExpectedUnanswered(cfg, history + [o], log, o.ts, o.src, o.dst, o.dstPort)
  {
    hide OnUnanswered, ExpectedUnanswered, IsBroadcastLike;
    UnansweredKeepsValid(cfg, e, o.ts, o.src, o.dst, o.dstPort);
    var first := if o.answered then Step(e, []) else OnUnanswered(cfg, e, o.ts, o.src, o.dst, o.dstPort);
    assert first.alerts + [] == first.alerts;
  }

  lemma GroupFlowUncounted(history: seq<Observation>, o: Observation)
    requires o.Flow? && IsBroadcastLike(o.dst)
    ensures Unread(history, history + [o])
  {
    hide IsBroadcastLike, Unread;
    UncountedAppend(history, o);
  }

  /** A connection to a group address: only its contact is judged. */
  lemma GroupFlowStep(cfg: Config, e: Engine, history: seq<Observation>, log: seq<Alert>, o: Observation)
    requires InStep(cfg, e, history, log, o.ts) && o.Flow? && IsBroadcastLike(o.dst) && !Refuses(cfg, e, o)
    ensures Advances(cfg, Dispatch(cfg, e, o), history, log, o)
  {
    hide IsBroadcastLike, OnUnanswered, ExpectedUnanswered, Dispatch, Expected, Unread, Unmet, Refuses;
    hide Simulates, Past, PastAlerts;
    ValidOf(cfg, e, history, history, log, o.ts);
    var longer := history + [o];
    var first := if o.answered then Step(e, []) else OnUnanswered(cfg, e, o.ts, o.src, o.dst, o.dstPort);
    ContactStep(cfg, e, history, log, o);
    PastGrows(history, o, log, first.alerts);
    GroupFlowUnfolds(cfg, e, history, log, o);
    GroupFlowUncounted(history, o);
    UnmetItself(longer);
    UncountedSimulates(cfg, first.state, history, longer, longer, longer, log + first.alerts, o.ts);
  }

  lemma UnmetItself(met: seq<Observation>)
    ensures Unmet(met, met)
  {
  }

  lemma FlowStep(cfg: Config, e: Engine, history: seq<Observation>, log: seq<Alert>, o: Observation)
    requires InStep(cfg, e, history, log, o.ts) && o.Flow? && !Refuses(cfg, e, o)
    ensures Advances(cfg, Dispatch(cfg, e, o), history, log, o)
  {
    hide InStep, Advances, Refuses, Dispatch, OnUnanswered, IsBroadcastLike;
    if IsBroadcastLike(o.dst) {
      GroupFlowStep(cfg, e, history, log, o);
    } else {
      ServedFlowStep(cfg, e, history, log, o);
    }
  }

  /** A connection to an ordinary host, with both handlers spelled out. */
  lemma FlowUnfolds(cfg: Config, e: Engine, o: Observation, first: Step<Engine>, touched: Engine)
    requires e.Valid() && o.Flow? && !IsBroadcastLike(o.dst)
    requires first == if o.answered then Step(e, []) else OnUnanswered(cfg, e, o.ts, o.src, o.dst, o.dstPort)
    requires first.state.Valid() && !SourceRefused(cfg, first.state, o.src)
    requires var key := PairKey(o.src, o.dst, o.dstPort);
      touched == OnPair(cfg, first.state, key, Step(PairAt(cfg, first.state, key, o.ts), [])).state
    ensures touched.Valid() && !SourceRefused(cfg, touched, o.src)
    ensures var second := OnBytes(cfg, touched, o.ts, o.src, o.dst, o.dstPort, o.bytesOut, o.bytesIn);
      Dispatch(cfg, e, o) == Step(second.state, first.alerts + second.alerts)
  {
    hide OnBytes, OnUnanswered, IsBroadcastLike;
    var key := PairKey(o.src, o.dst, o.dstPort);
    OnPairKeepsValid(cfg, first.state, key, Step(PairAt(cfg, first.state, key, o.ts), []));
  }

  lemma FlowExpected(cfg: Config, history: seq<Observation>, log: seq<Alert>, o: Observation)
    requires o.Flow? && !IsBroadcastLike(o.dst)
    ensures Expected(cfg, history + [o], log) ==
      (if o.answered then [] else ExpectedUnanswered(cfg, history + [o], log, o.ts, o.src, o.dst, o.dstPort)) +
      ExpectedBytes(cfg, history + [o], log, o.ts, o.src, o.dst, o.dstPort)
  {
    hide ExpectedBytes, ExpectedUnanswered, IsBroadcastLike;
  }

  lemma BytesIgnoreFirst(cfg: Config, longer: seq<Observation>, log: seq<Alert>, scans: seq<Alert>, o: Observation)
    requires o.Flow?
    requires scans == if o.answered then [] else ExpectedUnanswered(cfg, longer, log, o.ts, o.src, o.dst, o.dstPort)
    ensures ExpectedBytes(cfg, longer, log + scans, o.ts, o.src, o.dst, o.dstPort) ==
      ExpectedBytes(cfg, longer, log, o.ts, o.src, o.dst, o.dstPort)
  {
    if o.answered {
      assert log + [] == log;
    } else {
      BytesIgnoreScans(cfg, longer, log, o.ts, o.src, o.dst, o.dstPort);
    }
  }

  /** The second half of a connection: its bytes, judged after its contact. */
  lemma FlowBytes(cfg: Config, e: Engine, history: seq<Observation>, longer: seq<Observation>, log: seq<Alert>,
      scans: seq<Alert>, more: seq<Alert>, o: Observation)
    requires Sensible(cfg) && o.ts >= 0 && o.Flow? && !IsBroadcastLike(o.dst) && longer == history + [o]
    requires Simulates(cfg, e, history, longer, log + scans, o.ts) && !SourceRefused(cfg, e, o.src)
    requires Past(history, o.ts) && Past(longer, o.ts) && PastAlerts(log + scans, o.ts) && e.Valid()
    requires more == OnBytes(cfg, e, o.ts, o.src, o.dst, o.dstPort, o.bytesOut, o.bytesIn).alerts
    ensures more == ExpectedBytes(cfg, longer, log + scans, o.ts, o.src, o.dst, o.dstPort)
    ensures var after := OnBytes(cfg, e, o.ts, o.src, o.dst, o.dstPort, o.bytesOut, o.bytesIn).state;
      Simulates(cfg, after, longer, longer, log + (scans + more), o.ts)
    ensures PastAlerts(log + (scans + more), o.ts)
  {
    hide Simulates, ExpectedBytes, OnBytes, SourceRefused, Past, PastAlerts;
    BytesStep(cfg, e, history, longer, log + scans, o);
    assert (log + scans) + more == log + (scans + more);
    PastGrows(history, o, log + scans, more);
  }

  lemma ServedFlowStep(cfg: Config, e: Engine, history: seq<Observation>, log: seq<Alert>, o: Observation)
    requires InStep(cfg, e, history, log, o.ts) && o.Flow? && !IsBroadcastLike(o.dst) && !Refuses(cfg, e, o)
    ensures Advances(cfg, Dispatch(cfg, e, o), history, log, o)
  {
    hide Simulates, Dispatch, Expected, ExpectedBytes, ExpectedUnanswered, OnBytes, OnUnanswered, SourceRefused,
      OnPair, PairAt, Past, PastAlerts, Refuses;
    ValidOf(cfg, e, history, history, log, o.ts);
    var first := if o.answered then Step(e, []) else OnUnanswered(cfg, e, o.ts, o.src, o.dst, o.dstPort);
    ContactStep(cfg, e, history, log, o);
    PastGrows(history, o, log, first.alerts);
    var longer, key := history + [o], PairKey(o.src, o.dst, o.dstPort);
    ValidOf(cfg, first.state, history, longer, log + first.alerts, o.ts);
    var touched := OnPair(cfg, first.state, key, Step(PairAt(cfg, first.state, key, o.ts), [])).state;
    FlowUnfolds(cfg, e, o, first, touched);
    FlowExpected(cfg, history, log, o);
    TouchStep(cfg, first.state, history, longer, log + first.alerts, key, o.ts);
    ValidOf(cfg, touched, history, longer, log + first.alerts, o.ts);
    FlowBytes(cfg, touched, history, longer, log, first.alerts,
      OnBytes(cfg, touched, o.ts, o.src, o.dst, o.dstPort, o.bytesOut, o.bytesIn).alerts, o);
    BytesIgnoreFirst(cfg, longer, log, first.alerts, o);
  }

  lemma ValidOf(cfg: Config, e: Engine, read: seq<Observation>, met: seq<Observation>, log: seq<Alert>, now: int)
    requires Simulates(cfg, e, read, met, log, now)
    ensures e.Valid()
  {
  }

  // ----- Whole runs -----

  lemma DispatchAdvances(cfg: Config, e: Engine, history: seq<Observation>, log: seq<Alert>, o: Observation)
    requires InStep(cfg, e, history, log, o.ts) && !Refuses(cfg, e, o)
    ensures Advances(cfg, Dispatch(cfg, e, o), history, log, o)
  {
    hide InStep, Advances, Dispatch, Refuses;
    match o {
      case AuthAttempt(_, _, _, _, _) => AttemptStep(cfg, e, history, log, o);
      case AuthFailure(_, _, _, _, _) => FailureStep(cfg, e, history, log, o);
      case Flow(_, _, _, _, _, _, _) => FlowStep(cfg, e, history, log, o);
      case Volume(_, _, _) => VolumeStep(cfg, e, history, log, o);
      case Traffic(_, _, _, _, _, _) => TrafficStep(cfg, e, history, log, o);
      case DnsQuery(_, _, _, _) => DnsStep(cfg, e, history, log, o);
    }
  }

  lemma DnsStep(cfg: Config, e: Engine, history: seq<Observation>, log: seq<Alert>, o: Observation)
    requires InStep(cfg, e, history, log, o.ts) && o.DnsQuery?
    ensures Advances(cfg, Dispatch(cfg, e, o), history, log, o)
  {
    hide Simulates, Advances;
    UncountedStep(cfg, e, history, log, o);
  }

  lemma ObserveAdvances(cfg: Config, e: Engine, history: seq<Observation>, log: seq<Alert>, last: int, o: Observation)
    requires InStep(cfg, e, history, log, last) && last <= o.ts
    requires !Refuses(cfg, Swept(cfg, e, o.ts), o)
    ensures Advances(cfg, Observe(cfg, e, o), history, log, o)
  {
    hide Simulates, Advances, Dispatch, Refuses, Swept;
    SweepSimulates(cfg, e, history, log, last, o.ts);
    DispatchAdvances(cfg, Swept(cfg, e, o.ts), history, log, o);
  }

  /** The engine after a run, and every alert it raised. */
  function RunEngine(cfg: Config, run: seq<Observation>): (r: Step<Engine>)
    ensures r.state.Valid()
  {
    if run == [] then Step(INITIAL, [])
    else
      var before := RunEngine(cfg, run[..|run| - 1]);
      var o := run[|run| - 1];
      ObserveKeepsValid(cfg, before.state, o);
      var r := Observe(cfg, before.state, o);
      Step(r.state, before.alerts + r.alerts)
  }

  /** Times never go back and are not negative, and no table is full when it is needed. */
  ghost predicate Orderly(cfg: Config, run: seq<Observation>) {
    run == [] ||
    (Orderly(cfg, run[..|run| - 1]) &&
     0 <= run[|run| - 1].ts &&
     (|run| >= 2 ==> run[|run| - 2].ts <= run[|run| - 1].ts) &&
     !Refuses(cfg, Swept(cfg, RunEngine(cfg, run[..|run| - 1]).state, run[|run| - 1].ts), run[|run| - 1]))
  }

  lemma InitiallyInStep(cfg: Config)
    requires Sensible(cfg)
    ensures InStep(cfg, INITIAL, [], [], 0)
  {
    forall src: IpAddr
      ensures SourceMatches(cfg, SourceAt(cfg, INITIAL, src, 0), [], [], [], src, 0)
    {
      ForgottenSourceMatches(cfg, [], [], [], src, 0, -cfg.window);
      assert SourceAt(cfg, INITIAL, src, 0) == FreshSource(cfg, 0);
    }
    forall key: PairKey
      ensures PairMatches(cfg, PairAt(cfg, INITIAL, key, 0), [], [], key, 0)
    {
      ForgottenPairMatches(cfg, [], [], key, 0, -cfg.window);
      assert PairAt(cfg, INITIAL, key, 0) == FreshPair(cfg, 0);
    }
  }

  lemma {:induction false} RunInStep(cfg: Config, run: seq<Observation>)
    requires Sensible(cfg) && Orderly(cfg, run)
    ensures RunEngine(cfg, run).alerts == ExpectedLog(cfg, run)
    ensures InStep(cfg, RunEngine(cfg, run).state, run, ExpectedLog(cfg, run),
                   if run == [] then 0 else run[|run| - 1].ts)
  {
    hide InStep, Observe, Expected, Refuses, Swept;
    if run == [] {
      InitiallyInStep(cfg);
    } else {
      var front, o := run[..|run| - 1], run[|run| - 1];
      RunInStep(cfg, front);
      assert front + [o] == run;
      ObserveAdvances(cfg, RunEngine(cfg, front).state, front, ExpectedLog(cfg, front),
                      if front == [] then 0 else front[|front| - 1].ts, o);
    }
  }

  /**
   * For every orderly run, with the flood window and the alert intervals no longer than the
   * behaviour window: the alerts raised by the engine, which forgets idle sources and services,
   * reuses ring buckets and prunes its host tables, are exactly the alerts that follow from the
   * whole unswept history, in the same order and with the same figures.
   */
  lemma SweepsAreInvisible(cfg: Config, run: seq<Observation>)
    requires Sensible(cfg) && Orderly(cfg, run)
    ensures RunEngine(cfg, run).alerts == ExpectedLog(cfg, run)
  {
    RunInStep(cfg, run);
  }
}
