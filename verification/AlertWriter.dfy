/** The alert writer's suppression of repeats (src/engine.rs, `run_alert_writer`). */
module AlertWriting {
  import opened Base
  import opened Observations

  const MAX_SUPPRESSION_KEYS := 65_536
  const SECOND := 1_000_000_000

  /** What tells two alerts apart for suppression; the destination and the message count only for some categories. */
  datatype Key =
    | FloodKey(src: IpAddr, proto: int)
    | SignatureKey(src: IpAddr, dst: IpAddr, proto: int, message: string)
    | PlainKey(category: string, src: IpAddr, dst: IpAddr, proto: int)

  /** `ts` is in nanoseconds; `allowed` is whether the allowlist matches. */
  datatype Alert = Alert(ts: int, category: string, src: IpAddr, dst: IpAddr, proto: int, message: string,
      allowed: bool)
  {
    function Key(): Key {
      if category == "PACKET_FLOOD" then FloodKey(src, proto)
      else if category == "SIGNATURE_MATCH" then SignatureKey(src, dst, proto, message)
      else PlainKey(category, src, dst, proto)
    }
  }

  /** `note` is how many earlier repeats an emitted alert reports first. */
  datatype Outcome = Allowlisted | Suppressed | Emitted(note: nat)

  datatype Stats = Stats(emitted: nat, suppressed: nat, allowlisted: nat, resets: nat)

  datatype Writer = Writer(
    lastSeen: map<Key, int>, suppressed: map<Key, nat>,
    newest: Option<int>, lastPruned: Option<int>, stats: Stats)

  const FRESH: Writer := Writer(map[], map[], None, None, Stats(0, 0, 0, 0))

  // ----------------------------------------------------------------- a step

  function Noted(w: Writer, ts: int): Writer {
    w.(newest := Some(if w.newest.None? then ts else Max(w.newest.value, ts)))
  }

  predicate Due(w: Writer, ts: int) {
    |w.lastSeen| >= MAX_SUPPRESSION_KEYS / 2 && (w.lastPruned.None? || ts - w.lastPruned.value >= SECOND)
  }

  function Recent(lastSeen: map<Key, int>, horizon: int, window: nat): map<Key, int> {
    map k | k in lastSeen && Max(0, horizon - lastSeen[k]) < 10 * window :: lastSeen[k]
  }

  function Counted(suppressed: map<Key, nat>, kept: map<Key, int>): map<Key, nat> {
    map k | k in suppressed && suppressed[k] > 0 && k in kept :: suppressed[k]
  }

  function Pruned(w: Writer, ts: int, window: nat): Writer
    requires w.newest.Some?
  {
    var kept := Recent(w.lastSeen, w.newest.value, window);
    if |kept| > MAX_SUPPRESSION_KEYS then
      w.(lastSeen := map[], suppressed := map[], lastPruned := Some(ts),
         stats := w.stats.(resets := w.stats.resets + 1))
    else
      w.(lastSeen := kept, suppressed := Counted(w.suppressed, kept), lastPruned := Some(ts))
  }

  /** The table as the decision on an alert finds it. */
  function Prepared(w: Writer, ts: int, window: nat): Writer {
    var v := Noted(w, ts);
    if Due(v, ts) then Pruned(v, ts, window) else v
  }

  /** Seen already, not later than this alert, and less than a window ago. */
  predicate Repeats(lastSeen: map<Key, int>, a: Alert, window: nat) {
    a.Key() in lastSeen && 0 <= a.ts - lastSeen[a.Key()] < window
  }

  function Pending(w: Writer, k: Key): nat {
    if k in w.suppressed then w.suppressed[k] else 0
  }

  function Verdict(w: Writer, a: Alert, window: nat): Outcome {
    if a.allowed then Allowlisted
    else
      var v := Prepared(w, a.ts, window);
      if Repeats(v.lastSeen, a, window) then Suppressed else Emitted(Pending(v, a.Key()))
  }

  function Step(w: Writer, a: Alert, window: nat): Writer {
    if a.allowed then w.(stats := w.stats.(allowlisted := w.stats.allowlisted + 1))
    else
      var v := Prepared(w, a.ts, window);
      if Repeats(v.lastSeen, a, window) then
        v.(suppressed := v.suppressed[a.Key() := Pending(v, a.Key()) + 1],
           stats := v.stats.(suppressed := v.stats.suppressed + 1))
      else
        v.(suppressed := if a.Key() in v.suppressed then v.suppressed[a.Key() := 0] else v.suppressed,
           lastSeen := v.lastSeen[a.Key() := a.ts],
           stats := v.stats.(emitted := v.stats.emitted + 1))
  }

  function After(alerts: seq<Alert>, window: nat): Writer {
    if alerts == [] then FRESH else Step(After(alerts[..|alerts| - 1], window), alerts[|alerts| - 1], window)
  }

  function Outcomes(alerts: seq<Alert>, window: nat): (os: seq<Outcome>)
    ensures |os| == |alerts|
  {
    if alerts == [] then []
    else
      var front := alerts[..|alerts| - 1];
      Outcomes(front, window) + [Verdict(After(front, window), alerts[|alerts| - 1], window)]
  }

  // ------------------------------------------------- a writer that never prunes

  function Remembered(lastSeen: map<Key, int>, a: Alert, window: nat): map<Key, int> {
    if a.allowed || Repeats(lastSeen, a, window) then lastSeen else lastSeen[a.Key() := a.ts]
  }

  /** The last emission of every key, with nothing ever forgotten. */
  function Memory(alerts: seq<Alert>, window: nat): map<Key, int> {
    if alerts == [] then map[] else Remembered(Memory(alerts[..|alerts| - 1], window), alerts[|alerts| - 1], window)
  }

  /** Whether the writer that never prunes shows each alert. */
  function Shown(alerts: seq<Alert>, window: nat): (shown: seq<bool>)
    ensures |shown| == |alerts|
  {
    if alerts == [] then []
    else
      var front, last := alerts[..|alerts| - 1], alerts[|alerts| - 1];
      Shown(front, window) + [!last.allowed && !Repeats(Memory(front, window), last, window)]
  }

  /** The newest timestamp of the alerts that got past the allowlist. */
  function NewestOf(alerts: seq<Alert>): Option<int> {
    if alerts == [] then None
    else
      var front, last := NewestOf(alerts[..|alerts| - 1]), alerts[|alerts| - 1];
      if last.allowed then front
      else Some(if front.None? then last.ts else Max(front.value, last.ts))
  }

  /** No alert arrives nine or more windows behind the newest seen before it. */
  predicate Prompt(alerts: seq<Alert>, window: nat) {
    alerts == [] ||
    var front, last := alerts[..|alerts| - 1], alerts[|alerts| - 1];
    && Prompt(front, window)
    && (var n := NewestOf(front);
        last.allowed || n.None? || last.ts >= n.value || n.value - last.ts < 9 * window)
  }

  /** The pruned table agrees with the full memory but for entries ten windows behind the newest alert. */
  ghost predicate Agrees(lastSeen: map<Key, int>, memory: map<Key, int>, newest: Option<int>, window: nat) {
    && (forall k :: k in lastSeen ==> k in memory && lastSeen[k] == memory[k])
    && (forall k :: k in memory && k !in lastSeen ==> newest.Some? && Max(0, newest.value - memory[k]) >= 10 * window)
  }

  lemma AgreesLater(lastSeen: map<Key, int>, memory: map<Key, int>, newest: Option<int>, later: int, window: nat)
    requires Agrees(lastSeen, memory, newest, window) && (newest.None? || newest.value <= later)
    ensures Agrees(lastSeen, memory, Some(later), window)
  {
  }

  lemma RecentAgrees(lastSeen: map<Key, int>, memory: map<Key, int>, newest: int, window: nat)
    requires Agrees(lastSeen, memory, Some(newest), window)
    ensures Agrees(Recent(lastSeen, newest, window), memory, Some(newest), window)
  {
  }

  lemma PreparedAgrees(w: Writer, memory: map<Key, int>, ts: int, window: nat)
    requires Agrees(w.lastSeen, memory, w.newest, window)
    requires Prepared(w, ts, window).stats.resets == w.stats.resets
    ensures var v := Prepared(w, ts, window);
            v.newest == Noted(w, ts).newest && Agrees(v.lastSeen, memory, v.newest, window)
  {
    var v := Noted(w, ts);
    AgreesLater(w.lastSeen, memory, w.newest, v.newest.value, window);
    if Due(v, ts) {
      RecentAgrees(w.lastSeen, memory, v.newest.value, window);
    }
    hide Agrees, Recent, Counted;
  }

  lemma StepAgrees(w: Writer, memory: map<Key, int>, a: Alert, window: nat)
    requires Agrees(w.lastSeen, memory, w.newest, window)
    requires a.allowed || w.newest.None? || a.ts >= w.newest.value || w.newest.value - a.ts < 9 * window
    requires Step(w, a, window).stats.resets == w.stats.resets
    ensures var v := Step(w, a, window);
            && Agrees(v.lastSeen, Remembered(memory, a, window), v.newest, window)
            && v.newest == (if a.allowed then w.newest else Noted(w, a.ts).newest)
    ensures Verdict(w, a, window).Emitted? <==> !a.allowed && !Repeats(memory, a, window)
  {
    if !a.allowed {
      PreparedAgrees(w, memory, a.ts, window);
      SameRepeats(Prepared(w, a.ts, window), memory, a, window);
      hide Prepared, Repeats;
      RememberedAgrees(Prepared(w, a.ts, window), memory, a, window);
      hide Agrees;
    }
  }

  lemma SameRepeats(v: Writer, memory: map<Key, int>, a: Alert, window: nat)
    requires Agrees(v.lastSeen, memory, v.newest, window)
    requires v.newest.Some? && (a.ts >= v.newest.value || v.newest.value - a.ts < 9 * window)
    ensures Repeats(memory, a, window) <==> Repeats(v.lastSeen, a, window)
  {
  }

  lemma RememberedAgrees(v: Writer, memory: map<Key, int>, a: Alert, window: nat)
    requires Agrees(v.lastSeen, memory, v.newest, window)
    ensures Agrees(v.lastSeen[a.Key() := a.ts], memory[a.Key() := a.ts], v.newest, window)
  {
  }

  lemma ResetsGrow(w: Writer, a: Alert, window: nat)
    ensures w.stats.resets <= Step(w, a, window).stats.resets
  {
  }

  lemma {:induction false} RunAgrees(alerts: seq<Alert>, window: nat)
    requires Prompt(alerts, window) && After(alerts, window).stats.resets == 0
    ensures Agrees(After(alerts, window).lastSeen, Memory(alerts, window), After(alerts, window).newest, window)
    ensures After(alerts, window).newest == NewestOf(alerts)
    ensures forall i :: 0 <= i < |alerts| ==> (Outcomes(alerts, window)[i].Emitted? <==> Shown(alerts, window)[i])
  {
    if alerts != [] {
      hide Step, Verdict, Agrees, Repeats, Remembered;
      var front, last := alerts[..|alerts| - 1], alerts[|alerts| - 1];
      ResetsGrow(After(front, window), last, window);
      RunAgrees(front, window);
      StepAgrees(After(front, window), Memory(front, window), last, window);
    } else {
      assert Agrees(map[], map[], None, window);
    }
  }

  /** Pruning never changes a decision, so long as no alert is nine windows late and the table was never reset. */
  lemma PruningIsInvisible(alerts: seq<Alert>, window: nat, i: nat)
    requires Prompt(alerts, window) && After(alerts, window).stats.resets == 0
    requires i < |alerts|
    ensures Outcomes(alerts, window)[i].Emitted? <==> Shown(alerts, window)[i]
  {
    RunAgrees(alerts, window);
  }

  // -------------------------------------------------------------- accounting

  /** Every alert received is emitted, suppressed or allowlisted, and each is counted as what it was. */
  lemma {:induction false} NothingIsLost(alerts: seq<Alert>, window: nat)
    ensures var s := After(alerts, window).stats;
            && s.emitted + s.suppressed + s.allowlisted == |alerts|
            && s.emitted == CountOf(Outcomes(alerts, window), 0)
            && s.suppressed == CountOf(Outcomes(alerts, window), 1)
            && s.allowlisted == CountOf(Outcomes(alerts, window), 2)
  {
    if alerts != [] {
      var front, last := alerts[..|alerts| - 1], alerts[|alerts| - 1];
      NothingIsLost(front, window);
      var os := Outcomes(alerts, window);
      assert os[..|os| - 1] == Outcomes(front, window);
      PreparedKeepsCounts(After(front, window), last.ts, window);
      hide Prepared;
    }
  }

  lemma PreparedKeepsCounts(w: Writer, ts: int, window: nat)
    ensures Prepared(w, ts, window).stats.(resets := 0) == w.stats.(resets := 0)
  {
  }

  function Kind(o: Outcome): nat {
    match o
    case Emitted(_) => 0
    case Suppressed => 1
    case Allowlisted => 2
  }

  function CountOf(os: seq<Outcome>, kind: nat): nat {
    if os == [] then 0 else CountOf(os[..|os| - 1], kind) + (if Kind(os[|os| - 1]) == kind then 1 else 0)
  }

  // ----------------------------------------------------------------- spacing

  predicate InOrder(alerts: seq<Alert>) {
    forall i, j :: 0 <= i < j < |alerts| ==> alerts[i].ts <= alerts[j].ts
  }

  lemma {:induction false} NewestIsBehind(alerts: seq<Alert>, bound: int)
    requires forall i :: 0 <= i < |alerts| ==> alerts[i].ts <= bound
    ensures var n := NewestOf(alerts); n.None? || n.value <= bound
  {
    if alerts != [] {
      NewestIsBehind(alerts[..|alerts| - 1], bound);
    }
  }

  lemma {:induction false} InOrderIsPrompt(alerts: seq<Alert>, window: nat)
    requires InOrder(alerts)
    ensures Prompt(alerts, window)
  {
    if alerts != [] {
      InOrderIsPrompt(alerts[..|alerts| - 1], window);
      NewestIsBehind(alerts[..|alerts| - 1], alerts[|alerts| - 1].ts);
    }
  }

  /** Whatever was shown is remembered at that time or later. */
  lemma {:induction false} ShownIsRemembered(alerts: seq<Alert>, window: nat, i: nat)
    requires InOrder(alerts) && i < |alerts| && Shown(alerts, window)[i]
    ensures var m := Memory(alerts, window); var k := alerts[i].Key();
      k in m && alerts[i].ts <= m[k] <= alerts[|alerts| - 1].ts
  {
    if i < |alerts| - 1 {
      ShownIsRemembered(alerts[..|alerts| - 1], window, i);
    }
  }

  lemma {:induction false} ShownAreSpaced(alerts: seq<Alert>, window: nat, i: nat, j: nat)
    requires InOrder(alerts) && i < j < |alerts|
    requires Shown(alerts, window)[i] && Shown(alerts, window)[j] && alerts[i].Key() == alerts[j].Key()
    ensures alerts[j].ts - alerts[i].ts >= window
  {
    var front := alerts[..|alerts| - 1];
    if j < |alerts| - 1 {
      ShownAreSpaced(front, window, i, j);
    } else {
      ShownIsRemembered(front, window, i);
    }
  }

  /** With timestamps in order and no reset, two emitted alerts with one key are at least a window apart. */
  lemma EmissionsAreSpaced(alerts: seq<Alert>, window: nat, i: nat, j: nat)
    requires InOrder(alerts) && After(alerts, window).stats.resets == 0 && i < j < |alerts|
    requires Outcomes(alerts, window)[i].Emitted? && Outcomes(alerts, window)[j].Emitted?
    requires alerts[i].Key() == alerts[j].Key()
    ensures alerts[j].ts - alerts[i].ts >= window
  {
    InOrderIsPrompt(alerts, window);
    RunAgrees(alerts, window);
    ShownAreSpaced(alerts, window, i, j);
  }

  // -------------------------------------------------- nothing hidden on its own

  /** An emitted alert of this key at this time. */
  ghost predicate WasEmitted(alerts: seq<Alert>, window: nat, k: Key, ts: int) {
    exists i :: 0 <= i < |alerts| && Outcomes(alerts, window)[i].Emitted? && alerts[i].Key() == k && alerts[i].ts == ts
  }

  lemma WasEmittedBefore(alerts: seq<Alert>, window: nat, k: Key, ts: int)
    requires alerts != [] && WasEmitted(alerts[..|alerts| - 1], window, k, ts)
    ensures WasEmitted(alerts, window, k, ts)
  {
    var front := alerts[..|alerts| - 1];
    var i :| 0 <= i < |front| && Outcomes(front, window)[i].Emitted? && front[i].Key() == k && front[i].ts == ts;
    assert Outcomes(alerts, window)[i] == Outcomes(front, window)[i] && alerts[i] == front[i];
  }

  lemma {:induction false} RememberedWasEmitted(alerts: seq<Alert>, window: nat, k: Key)
    requires k in After(alerts, window).lastSeen
    ensures WasEmitted(alerts, window, k, After(alerts, window).lastSeen[k])
  {
    var front, last := alerts[..|alerts| - 1], alerts[|alerts| - 1];
    var w := After(front, window);
    if !last.allowed && k == last.Key() && Verdict(w, last, window).Emitted? {
      assert Outcomes(alerts, window)[|alerts| - 1].Emitted?;
    } else {
      PreparedIsSubset(w, last.ts, window, k);
      RememberedWasEmitted(front, window, k);
      WasEmittedBefore(alerts, window, k, w.lastSeen[k]);
    }
  }

  lemma PreparedIsSubset(w: Writer, ts: int, window: nat, k: Key)
    ensures var v := Prepared(w, ts, window); k in v.lastSeen ==> k in w.lastSeen && w.lastSeen[k] == v.lastSeen[k]
  {
  }

  /**
   * In every run, in any order, through prunes and resets: an alert is suppressed only if one like it was emitted
   * less than a window before.
   */
  lemma SuppressedOnlyAsRepeat(alerts: seq<Alert>, window: nat)
    requires alerts != [] && Outcomes(alerts, window)[|alerts| - 1].Suppressed?
    ensures var last := alerts[|alerts| - 1];
            exists ts :: last.ts - window < ts <= last.ts && WasEmitted(alerts, window, last.Key(), ts)
  {
    var front, last := alerts[..|alerts| - 1], alerts[|alerts| - 1];
    var w := After(front, window);
    PreparedIsSubset(w, last.ts, window, last.Key());
    RememberedWasEmitted(front, window, last.Key());
    WasEmittedBefore(alerts, window, last.Key(), w.lastSeen[last.Key()]);
  }

  // ---------------------------------------------------------------------- bounds

  /** With fewer keys than half the cap nothing is ever pruned, however late an alert is. */
  lemma {:induction false} SmallTablesAreNeverPruned(alerts: seq<Alert>, window: nat)
    requires |Memory(alerts, window)| < MAX_SUPPRESSION_KEYS / 2
    ensures After(alerts, window).lastSeen == Memory(alerts, window)
    ensures forall i :: 0 <= i < |alerts| ==> (Outcomes(alerts, window)[i].Emitted? <==> Shown(alerts, window)[i])
  {
    if alerts != [] {
      var front, last := alerts[..|alerts| - 1], alerts[|alerts| - 1];
      MemoryGrows(Memory(front, window), last, window);
      SmallTablesAreNeverPruned(front, window);
    }
  }

  lemma MemoryGrows(memory: map<Key, int>, a: Alert, window: nat)
    ensures |memory| <= |Remembered(memory, a, window)|
  {
    if a.Key() !in memory {
      assert memory[a.Key() := a.ts].Keys == memory.Keys + {a.Key()};
    } else {
      assert memory[a.Key() := a.ts].Keys == memory.Keys;
    }
  }

  /** Right after a prune the table holds at most the cap and the alert just emitted. */
  lemma PruneBounds(w: Writer, a: Alert, window: nat)
    requires !a.allowed && Due(Noted(w, a.ts), a.ts)
    ensures |Step(w, a, window).lastSeen| <= MAX_SUPPRESSION_KEYS + 1
  {
    hide Prepared, Due, Noted, Repeats, Pending, Alert.Key;
    PreparedSize(w, a.ts, window);
    OneKeyMore(Prepared(w, a.ts, window).lastSeen, a.Key(), a.ts);
  }

  predicate Burst(alerts: seq<Alert>, ts: int) {
    && (forall i :: 0 <= i < |alerts| ==> alerts[i].ts == ts && !alerts[i].allowed)
    && forall i, j :: 0 <= i < j < |alerts| ==> alerts[i].Key() != alerts[j].Key()
  }

  /** One entry for every alert of a burst, and at most the prune that changes nothing. */
  ghost predicate HeldInFull(w: Writer, alerts: seq<Alert>, ts: int) {
    && |w.lastSeen| == |alerts|
    && (alerts != [] ==> w.newest == Some(ts))
    && (alerts == [] ==> w.newest == None)
    && (w.lastPruned == Some(ts) || (w.lastPruned == None && |alerts| <= MAX_SUPPRESSION_KEYS / 2))
    && forall k :: k in w.lastSeen ==> w.lastSeen[k] == ts && exists i :: 0 <= i < |alerts| && alerts[i].Key() == k
  }

  lemma HeldGrows(w: Writer, v: Writer, front: seq<Alert>, last: Alert, ts: int)
    requires HeldInFull(w, front, ts) && last.ts == ts
    requires v.lastSeen == w.lastSeen[last.Key() := ts] && |v.lastSeen| == |w.lastSeen| + 1 && v.newest == Some(ts)
    requires v.lastPruned == if w.lastPruned.Some? || |w.lastSeen| == MAX_SUPPRESSION_KEYS / 2 then Some(ts) else None
    ensures HeldInFull(v, front + [last], ts)
  {
    var alerts := front + [last];
    forall k | k in v.lastSeen
      ensures exists i :: 0 <= i < |alerts| && alerts[i].Key() == k
    {
      if k == last.Key() {
        assert alerts[|front|].Key() == k;
      } else {
        var i :| 0 <= i < |front| && front[i].Key() == k;
        assert alerts[i].Key() == k;
      }
    }
  }

  lemma BurstFront(front: seq<Alert>, last: Alert, ts: int)
    requires Burst(front + [last], ts)
    ensures Burst(front, ts) && last.ts == ts && !last.allowed
    ensures forall i :: 0 <= i < |front| ==> front[i].Key() != last.Key()
  {
    var alerts := front + [last];
    assert alerts[|front|] == last;
    forall i | 0 <= i < |front|
      ensures alerts[i] == front[i]
    {
    }
  }

  lemma BurstIsFresh(w: Writer, front: seq<Alert>, last: Alert, ts: int)
    requires HeldInFull(w, front, ts) && forall i :: 0 <= i < |front| ==> front[i].Key() != last.Key()
    ensures last.Key() !in w.lastSeen && forall k :: k in w.lastSeen ==> w.lastSeen[k] == ts
    ensures w.newest.None? || w.newest.value == ts
    ensures w.lastPruned == Some(ts) || (w.lastPruned == None && |w.lastSeen| <= MAX_SUPPRESSION_KEYS / 2)
  {
  }

  /**
   * But prunes are a second apart at least, so the cap alone bounds nothing: a burst of distinct keys is held in
   * full.
   */
  lemma {:induction false} BurstIsHeldInFull(alerts: seq<Alert>, window: nat, ts: int)
    requires Burst(alerts, ts) && window > 0
    ensures HeldInFull(After(alerts, window), alerts, ts)
  {
    if alerts != [] {
      hide Burst, HeldInFull, Step;
      var front, last := alerts[..|alerts| - 1], alerts[|alerts| - 1];
      assert front + [last] == alerts;
      BurstFront(front, last, ts);
      BurstIsHeldInFull(front, window, ts);
      var w := After(front, window);
      BurstIsFresh(w, front, last, ts);
      BurstStep(w, last, window);
      HeldGrows(w, Step(w, last, window), front, last, ts);
    } else {
      assert HeldInFull(FRESH, [], ts);
    }
  }

  /** The alerts emitted since the table was last pruned, the one it was pruned for included. */
  function SincePrune(alerts: seq<Alert>, window: nat): nat {
    if alerts == [] then 0
    else
      var front, last := alerts[..|alerts| - 1], alerts[|alerts| - 1];
      var w := After(front, window);
      (if !last.allowed && Due(Noted(w, last.ts), last.ts) then 0 else SincePrune(front, window)) +
      (if Verdict(w, last, window).Emitted? then 1 else 0)
  }

  /**
   * One step adds at most one entry, for an alert that is emitted, to a table that a prune has brought within the
   * cap.
   */
  lemma StepSize(w: Writer, a: Alert, window: nat)
    ensures var due := !a.allowed && Due(Noted(w, a.ts), a.ts);
      var before := if due then Min(|w.lastSeen|, MAX_SUPPRESSION_KEYS) else |w.lastSeen|;
            |Step(w, a, window).lastSeen| <= before + (if Verdict(w, a, window).Emitted? then 1 else 0)
    ensures (Step(w, a, window).lastPruned.Some? <==>
             w.lastPruned.Some? || (!a.allowed && Due(Noted(w, a.ts), a.ts)))
  {
    hide Prepared, Due, Noted, Repeats, Pending, Alert.Key;
    if !a.allowed {
      PreparedSize(w, a.ts, window);
      OneKeyMore(Prepared(w, a.ts, window).lastSeen, a.Key(), a.ts);
    }
  }

  lemma OneKeyMore(lastSeen: map<Key, int>, k: Key, ts: int)
    ensures |lastSeen[k := ts]| == |lastSeen| + (if k in lastSeen then 0 else 1)
  {
    assert lastSeen[k := ts].Keys == lastSeen.Keys + {k};
    assert k in lastSeen ==> lastSeen.Keys + {k} == lastSeen.Keys;
  }

  lemma PreparedSize(w: Writer, ts: int, window: nat)
    ensures |Prepared(w, ts, window).lastSeen| <= |w.lastSeen|
    ensures Due(Noted(w, ts), ts) ==> |Prepared(w, ts, window).lastSeen| <= MAX_SUPPRESSION_KEYS
    ensures Prepared(w, ts, window).lastPruned == if Due(Noted(w, ts), ts) then Some(ts) else w.lastPruned
  {
    var kept := Recent(w.lastSeen, Noted(w, ts).newest.value, window);
    assert kept.Keys <= w.lastSeen.Keys;
    SubsetIsNoLarger(kept.Keys, w.lastSeen.Keys);
  }

  /**
   * What does bound the table, on every run: the cap, once there has been a prune, and the alerts emitted since;
   * before any prune, the alerts emitted.
   */
  lemma {:induction false} TableIsBounded(alerts: seq<Alert>, window: nat)
    ensures var w := After(alerts, window);
            |w.lastSeen| <= (if w.lastPruned.Some? then MAX_SUPPRESSION_KEYS else 0) + SincePrune(alerts, window)
  {
    if alerts != [] {
      var front, last := alerts[..|alerts| - 1], alerts[|alerts| - 1];
      hide Step, Verdict, Due, Noted;
      TableIsBounded(front, window);
      StepSize(After(front, window), last, window);
    }
  }

  /**
   * The cap is passed at exactly one kind of step: a new key, not allowlisted, when the table is exactly full even
   * after any prune.
   */
  lemma CapIsPassedIff(w: Writer, a: Alert, window: nat)
    requires |w.lastSeen| <= MAX_SUPPRESSION_KEYS
    ensures |Step(w, a, window).lastSeen| > MAX_SUPPRESSION_KEYS <==>
            !a.allowed && |Prepared(w, a.ts, window).lastSeen| == MAX_SUPPRESSION_KEYS
            && a.Key() !in Prepared(w, a.ts, window).lastSeen
  {
    hide Prepared, Due, Noted, Pending, Alert.Key;
    if !a.allowed {
      PreparedSize(w, a.ts, window);
      OneKeyMore(Prepared(w, a.ts, window).lastSeen, a.Key(), a.ts);
    }
  }

  lemma BurstStep(w: Writer, a: Alert, window: nat)
    requires window > 0 && !a.allowed && a.Key() !in w.lastSeen
    requires forall k :: k in w.lastSeen ==> w.lastSeen[k] == a.ts
    requires w.newest.None? || w.newest.value == a.ts
    requires w.lastPruned == Some(a.ts) || (w.lastPruned == None && |w.lastSeen| <= MAX_SUPPRESSION_KEYS / 2)
    ensures var v := Step(w, a, window);
            && v.lastSeen == w.lastSeen[a.Key() := a.ts] && |v.lastSeen| == |w.lastSeen| + 1 && v.newest == Some(a.ts)
            && v.lastPruned ==
               if w.lastPruned.Some? || |w.lastSeen| == MAX_SUPPRESSION_KEYS / 2 then Some(a.ts) else None
  {
    BurstPrunesNothing(w, a.ts, window);
    hide Prepared;
    assert w.lastSeen[a.Key() := a.ts].Keys == w.lastSeen.Keys + {a.Key()};
  }

  lemma BurstPrunesNothing(w: Writer, ts: int, window: nat)
    requires window > 0 && forall k :: k in w.lastSeen ==> w.lastSeen[k] == ts
    requires w.newest.None? || w.newest.value == ts
    requires w.lastPruned == Some(ts) || (w.lastPruned == None && |w.lastSeen| <= MAX_SUPPRESSION_KEYS / 2)
    ensures var v := Prepared(w, ts, window);
            && v.lastSeen == w.lastSeen && v.newest == Some(ts)
            && v.lastPruned == if w.lastPruned.Some? || |w.lastSeen| == MAX_SUPPRESSION_KEYS / 2 then Some(ts) else None
  {
    assert Recent(w.lastSeen, ts, window) == w.lastSeen;
  }

  // ---------------------------------------------------------------- the loop

  class AlertWriter {
    const window: nat
    var lastSeen: map<Key, int>
    var suppressed: map<Key, nat>
    var newest: Option<int>
    var lastPruned: Option<int>
    var stats: Stats

    function State(): Writer
      reads this
    {
      Writer(lastSeen, suppressed, newest, lastPruned, stats)
    }

    constructor (window: nat)
      ensures this.window == window && State() == FRESH
    {
      this.window := window;
      lastSeen, suppressed, newest, lastPruned := map[], map[], None, None;
      stats := Stats(0, 0, 0, 0);
    }

    method Prune(ts: int)
      requires newest.Some?
      modifies this
      ensures State() == Pruned(old(State()), ts, window)
    {
      lastPruned := Some(ts);
      lastSeen := Recent(lastSeen, newest.value, window);
      suppressed := Counted(suppressed, lastSeen);
      if |lastSeen| > MAX_SUPPRESSION_KEYS {
        lastSeen, suppressed := map[], map[];
        stats := stats.(resets := stats.resets + 1);
      }
    }

    method Prepare(ts: int)
      modifies this
      ensures State() == Prepared(old(State()), ts, window)
    {
      newest := Some(if newest.None? then ts else Max(newest.value, ts));
      if && |lastSeen| >= MAX_SUPPRESSION_KEYS / 2
         && (lastPruned.None? || ts - lastPruned.value >= SECOND)
      {
        Prune(ts);
      }
    }

    method Receive(a: Alert) returns (outcome: Outcome)
      modifies this
      ensures State() == Step(old(State()), a, window)
      ensures outcome == Verdict(old(State()), a, window)
    {
      hide Prepared;
      if a.allowed {
        stats := stats.(allowlisted := stats.allowlisted + 1);
        return Allowlisted;
      }
      Prepare(a.ts);
      var key := a.Key();
      var count := if key in suppressed then suppressed[key] else 0;
      if key in lastSeen && 0 <= a.ts - lastSeen[key] < window {
        suppressed := suppressed[key := count + 1];
        stats := stats.(suppressed := stats.suppressed + 1);
        return Suppressed;
      }
      if key in suppressed {
        suppressed := suppressed[key := 0];
      }
      lastSeen := lastSeen[key := a.ts];
      stats := stats.(emitted := stats.emitted + 1);
      return Emitted(count);
    }
  }

  method RunAlertWriter(alerts: seq<Alert>, window: nat) returns (outcomes: seq<Outcome>, stats: Stats)
    ensures outcomes == Outcomes(alerts, window)
    ensures stats == After(alerts, window).stats
  {
    hide Step, Verdict;
    var writer := new AlertWriter(window);
    outcomes := [];
    for i := 0 to |alerts|
      invariant writer.window == window && writer.State() == After(alerts[..i], window)
      invariant outcomes == Outcomes(alerts[..i], window)
    {
      assert alerts[..i + 1][..i] == alerts[..i];
      var outcome := writer.Receive(alerts[i]);
      outcomes := outcomes + [outcome];
    }
    assert alerts[..|alerts|] == alerts;
    stats := writer.stats;
  }
}
