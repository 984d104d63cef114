/**
 * What the order of processing buys: the same alerts on every replay, and alerts that follow from the history alone.
 */
module ReplayTheorems {
  import opened Observations
  import opened Behavior
  import opened BehaviorTheorems
  import opened TableRoom
  import opened Reordering

  /** No table is full when a run needs it. */
  ghost predicate NeverFull(cfg: Config, run: seq<Observation>) {
    run == [] ||
    (var front, o := run[..|run| - 1], run[|run| - 1];
     NeverFull(cfg, front) && !Refuses(cfg, Swept(cfg, RunEngine(cfg, front).state, o.ts), o))
  }

  predicate NoNegativeTimes(run: seq<Observation>) {
    forall i :: 0 <= i < |run| ==> 0 <= run[i].ts
  }

  lemma {:induction false} SortedRunIsOrderly(cfg: Config, run: seq<Observation>)
    requires Ordered(run) && NoNegativeTimes(run) && NeverFull(cfg, run)
    ensures Orderly(cfg, run)
  {
    hide Refuses, Swept, RunEngine, Le;
    if run != [] {
      SortedRunIsOrderly(cfg, run[..|run| - 1]);
      if |run| >= 2 {
        OrderIsTotal(run[|run| - 2], run[|run| - 1], run[|run| - 1]);
      }
    }
  }

  /**
   * Replays of one capture agree: however its observations were permuted on the way, the sorted runs are the same
   * and so are the alerts.
   */
  lemma ReplaysAgree(cfg: Config, arrivals: seq<Observation>, permuted: seq<Observation>, p: seq<Observation>,
      q: seq<Observation>)
    requires multiset(arrivals) == multiset(permuted) && AllModest(arrivals)
    requires SortOf(p, arrivals) && SortOf(q, permuted)
    ensures p == q && RunEngine(cfg, p).alerts == RunEngine(cfg, q).alerts
  {
    forall i | 0 <= i < |p|
      ensures Modest(p[i])
    {
      assert p[i] in multiset(arrivals);
    }
    SortIsUnique(p, q);
  }

  /** Feeding the engine a run, one observation at a time. */
  method Process(cfg: Config, run: seq<Observation>) returns (alerts: seq<Alert>)
    ensures alerts == RunEngine(cfg, run).alerts
  {
    hide Observe;
    var engine := new BehaviorEngine(cfg);
    alerts := [];
    for i := 0 to |run|
      invariant engine.cfg == cfg
      invariant Step(engine.View(), alerts) == RunEngine(cfg, run[..i])
    {
      assert run[..i + 1][..i] == run[..i];
      var raised := engine.ObserveNext(run[i]);
      alerts := alerts + raised;
    }
    assert run[..|run|] == run;
  }

  /**
   * A replay of up to the limit: the alerts are those that follow, by the reference definition, from the whole
   * history of the observations in order of time, with nothing swept and nothing forgotten.
   */
  method Replay(cfg: Config, arrivals: seq<Observation>) returns (run: seq<Observation>, alerts: seq<Alert>)
    ensures multiset(run) == multiset(arrivals)
    ensures alerts == RunEngine(cfg, run).alerts
    ensures |arrivals| <= MAX_ORDERED_OBSERVATIONS ==> Ordered(run)
    ensures |arrivals| <= MAX_ORDERED_OBSERVATIONS && Sensible(cfg) && NoNegativeTimes(arrivals) &&
            (NeverFull(cfg, run) || Roomy(cfg, run)) ==>
              alerts == ExpectedLog(cfg, run)
  {
    hide Ordered, RunEngine, ExpectedLog, NoNegativeTimes, NeverFull, Roomy;
    run := RunOrdered(arrivals);
    alerts := Process(cfg, run);
    if |arrivals| <= MAX_ORDERED_OBSERVATIONS && Sensible(cfg) && NoNegativeTimes(arrivals) {
      TimesKept(run, arrivals);
      if NeverFull(cfg, run) {
        SortedRunIsOrderly(cfg, run);
        SweepsAreInvisible(cfg, run);
      } else if Roomy(cfg, run) {
        SortedRunIsInTime(run);
        RoomIsEnough(cfg, run);
        SweepsAreInvisible(cfg, run);
      }
    }
  }

  lemma SortedRunIsInTime(run: seq<Observation>)
    requires Ordered(run) && NoNegativeTimes(run)
    ensures InTime(run)
  {
    hide Le;
    forall i, j | 0 <= i < j < |run|
      ensures run[i].ts <= run[j].ts
    {
      OrderIsTotal(run[i], run[j], run[j]);
    }
  }

  lemma TimesKept(run: seq<Observation>, arrivals: seq<Observation>)
    requires multiset(run) == multiset(arrivals) && NoNegativeTimes(arrivals)
    ensures NoNegativeTimes(run)
  {
    forall i | 0 <= i < |run|
      ensures 0 <= run[i].ts
    {
      assert run[i] in multiset(arrivals);
    }
  }

  /** A live capture on which nothing is late raises exactly the alerts of a replay of the same arrivals. */
  method Live(cfg: Config, events: seq<Event>) returns (run: seq<Observation>, alerts: seq<Alert>)
    ensures multiset(run) == multiset(Arrivals(events))
    ensures alerts == RunEngine(cfg, run).alerts
    ensures Punctual(events) && AllModest(Arrivals(events)) ==>
              forall sorted :: SortOf(sorted, Arrivals(events)) ==> alerts == RunEngine(cfg, sorted).alerts
  {
    hide RunEngine;
    var counts;
    run, counts := RunLive(events);
    alerts := Process(cfg, run);
    if Punctual(events) && AllModest(Arrivals(events)) {
      forall sorted | SortOf(sorted, Arrivals(events))
        ensures run == sorted
      {
        ReplaysAgree(cfg, Arrivals(events), Arrivals(events), run, sorted);
      }
    }
  }
}
