/**
 * What the alert writer remembers between alerts (src/engine.rs, `run_alert_writer`): which alerts count as the same,
 * what its notes of suppressed repeats add up to, and what a prune leaves behind.
 */
module AlertNotes {
  import opened Base
  import opened AlertWriting

  /**
   * Two alerts share a key exactly when category, source and protocol agree, the destination too unless they are packet
   * floods, and the message too if they are signature matches.
   */
  lemma SameKeyIff(a: Alert, b: Alert)
    ensures a.Key() == b.Key() <==>
      && a.category == b.category && a.src == b.src && a.proto == b.proto
      && (a.category == "PACKET_FLOOD" || a.dst == b.dst)
      && (a.category != "SIGNATURE_MATCH" || a.message == b.message)
  {
    assert "PACKET_FLOOD" != "SIGNATURE_MATCH" by {
      assert "PACKET_FLOOD"[0] != "SIGNATURE_MATCH"[0];
    }
  }

  // -------------------------------------------------------------------- notes

  /** When an alert of this key was last emitted. */
  function LastEmission(alerts: seq<Alert>, outcomes: seq<Outcome>, k: Key): Option<int>
    requires |alerts| == |outcomes|
  {
    if alerts == [] then None
    else
      var n := |alerts| - 1;
      if outcomes[n].Emitted? && alerts[n].Key() == k then Some(alerts[n].ts)
      else LastEmission(alerts[..n], outcomes[..n], k)
  }

  /** How many alerts of this key have been suppressed since the last one emitted. */
  function RepeatsSince(alerts: seq<Alert>, outcomes: seq<Outcome>, k: Key): nat
    requires |alerts| == |outcomes|
  {
    if alerts == [] then 0
    else
      var n := |alerts| - 1;
      if alerts[n].Key() != k then RepeatsSince(alerts[..n], outcomes[..n], k)
      else if outcomes[n].Emitted? then 0
      else RepeatsSince(alerts[..n], outcomes[..n], k) + (if outcomes[n].Suppressed? then 1 else 0)
  }

  lemma LogGrows(alerts: seq<Alert>, outcomes: seq<Outcome>, a: Alert, o: Outcome, k: Key)
    requires |alerts| == |outcomes|
    ensures LastEmission(alerts + [a], outcomes + [o], k) ==
      if o.Emitted? && a.Key() == k then Some(a.ts) else LastEmission(alerts, outcomes, k)
    ensures RepeatsSince(alerts + [a], outcomes + [o], k) ==
      if a.Key() != k then RepeatsSince(alerts, outcomes, k)
      else if o.Emitted? then 0
      else RepeatsSince(alerts, outcomes, k) + (if o.Suppressed? then 1 else 0)
  {
    hide Alert.Key;
    var n := |alerts|;
    assert (alerts + [a])[..n] == alerts && (outcomes + [o])[..n] == outcomes;
  }

  /** A key that is remembered is remembered as it was last emitted, with the repeats since; of any other, nothing. */
  ghost predicate RemembersKey(w: Writer, alerts: seq<Alert>, outcomes: seq<Outcome>, k: Key)
    requires |alerts| == |outcomes|
  {
    if k in w.lastSeen then
      LastEmission(alerts, outcomes, k) == Some(w.lastSeen[k]) && Pending(w, k) == RepeatsSince(alerts, outcomes, k)
    else
      k !in w.suppressed
  }

  ghost predicate Remembers(w: Writer, alerts: seq<Alert>, outcomes: seq<Outcome>)
    requires |alerts| == |outcomes|
  {
    forall k :: RemembersKey(w, alerts, outcomes, k)
  }

  /** A prune forgets a key altogether or not at all. */
  lemma PreparedForgetsWhole(w: Writer, ts: int, window: nat)
    requires forall k :: k !in w.lastSeen ==> k !in w.suppressed
    ensures var v := Prepared(w, ts, window);
      forall k ::
        if k in v.lastSeen then k in w.lastSeen && v.lastSeen[k] == w.lastSeen[k] && Pending(v, k) == Pending(w, k)
        else k !in v.suppressed
  {
  }

  lemma StepRemembers(w: Writer, a: Alert, window: nat, alerts: seq<Alert>, outcomes: seq<Outcome>)
    requires |alerts| == |outcomes| && Remembers(w, alerts, outcomes)
    ensures Remembers(Step(w, a, window), alerts + [a], outcomes + [Verdict(w, a, window)])
  {
    hide Prepared, LastEmission, RepeatsSince, Alert.Key;
    forall k
      ensures k !in w.lastSeen ==> k !in w.suppressed
    {
      assert RemembersKey(w, alerts, outcomes, k);
    }
    PreparedForgetsWhole(w, a.ts, window);
    forall k
      ensures RemembersKey(Step(w, a, window), alerts + [a], outcomes + [Verdict(w, a, window)], k)
    {
      assert RemembersKey(w, alerts, outcomes, k);
      LogGrows(alerts, outcomes, a, Verdict(w, a, window), k);
    }
  }

  lemma {:induction false} RunRemembers(alerts: seq<Alert>, window: nat)
    ensures Remembers(After(alerts, window), alerts, Outcomes(alerts, window))
  {
    if alerts != [] {
      hide Remembers, Step, Verdict;
      var front, last := alerts[..|alerts| - 1], alerts[|alerts| - 1];
      RunRemembers(front, window);
      StepRemembers(After(front, window), last, window, front, Outcomes(front, window));
      assert alerts == front + [last];
    }
  }

  /**
   * An emitted alert is announced with exactly the repeats suppressed since the last one like it, unless that one has
   * been forgotten by a prune, whose repeats are then never announced.
   */
  lemma NoteCountsRepeats(alerts: seq<Alert>, window: nat)
    requires alerts != [] && Outcomes(alerts, window)[|alerts| - 1].Emitted?
    ensures var front, last := alerts[..|alerts| - 1], alerts[|alerts| - 1];
      Outcomes(alerts, window)[|alerts| - 1].note ==
      if last.Key() in Prepared(After(front, window), last.ts, window).lastSeen then
        RepeatsSince(front, Outcomes(front, window), last.Key())
      else 0
  {
    hide Prepared, Repeats, LastEmission, RepeatsSince, Alert.Key;
    var front, last := alerts[..|alerts| - 1], alerts[|alerts| - 1];
    RunRemembers(front, window);
    var w := After(front, window);
    forall k
      ensures k !in w.lastSeen ==> k !in w.suppressed
    {
      assert RemembersKey(w, front, Outcomes(front, window), k);
    }
    PreparedForgetsWhole(w, last.ts, window);
    assert RemembersKey(w, front, Outcomes(front, window), last.Key());
  }

  // ------------------------------------------------------------------- prunes

  /** The table is at least half full, and it is a second since the last prune. */
  predicate PruneWanted(w: Writer, ts: int) {
    |w.lastSeen| >= 32_768 && (w.lastPruned.None? || ts >= w.lastPruned.value + 1_000_000_000)
  }

  /** What an alert leaves of the table: no key is forgotten but by a prune, and a prune forgets by age alone. */
  lemma PreparedIs(w: Writer, ts: int, window: nat)
    ensures var v, newest := Prepared(w, ts, window), if w.newest.None? then ts else Max(w.newest.value, ts);
      && v.newest == Some(newest)
      && v.lastPruned == (if PruneWanted(w, ts) then Some(ts) else w.lastPruned)
      && (!PruneWanted(w, ts) ==> v.lastSeen == w.lastSeen && v.suppressed == w.suppressed && v.stats == w.stats)
      && (PruneWanted(w, ts) && v.stats.resets == w.stats.resets ==>
            forall k :: k in v.lastSeen <==> k in w.lastSeen && Max(0, newest - w.lastSeen[k]) < 10 * window)
  {
  }

  /** A reset empties the table, when more keys than the cap are younger than ten windows. */
  lemma ResetIff(w: Writer, ts: int, window: nat)
    ensures var v, newest := Prepared(w, ts, window), if w.newest.None? then ts else Max(w.newest.value, ts);
      var young := set k | k in w.lastSeen && Max(0, newest - w.lastSeen[k]) < 10 * window;
      && (v.stats.resets != w.stats.resets <==> PruneWanted(w, ts) && |young| > 65_536)
      && (v.stats.resets != w.stats.resets ==>
            v.stats.resets == w.stats.resets + 1 && v.lastSeen == map[] && v.suppressed == map[])
  {
    var newest := if w.newest.None? then ts else Max(w.newest.value, ts);
    var kept := Recent(w.lastSeen, newest, window);
    var young := set k | k in w.lastSeen && Max(0, newest - w.lastSeen[k]) < 10 * window;
    assert kept.Keys == young && |kept| == |kept.Keys|;
  }

  /** Right after an alert that brought a prune, nothing but that alert is ten windows behind the newest. */
  lemma NothingOldAfterPrune(alerts: seq<Alert>, window: nat)
    requires alerts != [] && !alerts[|alerts| - 1].allowed
    requires PruneWanted(After(alerts[..|alerts| - 1], window), alerts[|alerts| - 1].ts)
    ensures var w := After(alerts, window);
      && w.lastPruned == Some(alerts[|alerts| - 1].ts) && w.newest.Some?
      && forall k :: k in w.lastSeen && k != alerts[|alerts| - 1].Key() ==>
           Max(0, w.newest.value - w.lastSeen[k]) < 10 * window
  {
    hide Prepared, Repeats, Alert.Key, PruneWanted, Pending;
    var front, last := alerts[..|alerts| - 1], alerts[|alerts| - 1];
    var w := After(front, window);
    PreparedIs(w, last.ts, window);
    ResetIff(w, last.ts, window);
    PreparedKeepsTimes(w, last.ts, window);
    StepKeepsRest(w, last, window);
  }

  lemma StepKeepsRest(w: Writer, a: Alert, window: nat)
    requires !a.allowed
    ensures var v, r := Prepared(w, a.ts, window), Step(w, a, window);
      && r.newest == v.newest && r.lastPruned == v.lastPruned
      && forall k :: k in r.lastSeen && k != a.Key() ==> k in v.lastSeen && r.lastSeen[k] == v.lastSeen[k]
  {
    hide Prepared, Repeats, Alert.Key, Pending;
  }


  lemma PreparedKeepsTimes(w: Writer, ts: int, window: nat)
    ensures var v := Prepared(w, ts, window);
      forall k :: k in v.lastSeen ==> k in w.lastSeen && v.lastSeen[k] == w.lastSeen[k]
  {
  }
}
