/**
 * When the order in which alerts arrive makes a difference to how many are emitted (src/engine.rs,
 * `run_alert_writer`).
 */
module AlertOrdering {
  import opened Base
  import opened AlertWriting

  /** How many alerts a run emits. */
  function Emissions(alerts: seq<Alert>, window: nat): nat {
    CountOf(Outcomes(alerts, window), 0)
  }

  /** How many the writer that never prunes shows. */
  function ShownCount(alerts: seq<Alert>, window: nat): nat {
    if alerts == [] then 0
    else
      var front, last := alerts[..|alerts| - 1], alerts[|alerts| - 1];
      ShownCount(front, window) + (if last.allowed || Repeats(Memory(front, window), last, window) then 0 else 1)
  }

  /** The keys of a run, allowlisted alerts aside. */
  function Keys(alerts: seq<Alert>): set<Key> {
    set i | 0 <= i < |alerts| && !alerts[i].allowed :: alerts[i].Key()
  }

  lemma {:induction false} MemoryKeys(alerts: seq<Alert>, window: nat)
    ensures Memory(alerts, window).Keys <= Keys(alerts)
  {
    if alerts != [] {
      MemoryKeys(alerts[..|alerts| - 1], window);
    }
  }

  lemma {:induction false} EmissionsAreShown(alerts: seq<Alert>, window: nat)
    requires |Memory(alerts, window)| < MAX_SUPPRESSION_KEYS / 2
    ensures Emissions(alerts, window) == ShownCount(alerts, window)
  {
    if alerts != [] {
      var front, last := alerts[..|alerts| - 1], alerts[|alerts| - 1];
      SmallTablesAreNeverPruned(alerts, window);
      MemoryGrows(Memory(front, window), last, window);
      EmissionsAreShown(front, window);
      var os := Outcomes(alerts, window);
      assert os[..|os| - 1] == Outcomes(front, window);
      assert os[|os| - 1].Emitted? <==> Shown(alerts, window)[|os| - 1];
    }
  }

  lemma SmallRun(alerts: seq<Alert>, window: nat)
    requires |Keys(alerts)| < MAX_SUPPRESSION_KEYS / 2
    ensures Emissions(alerts, window) == ShownCount(alerts, window)
  {
    MemoryKeys(alerts, window);
    SubsetIsNoLarger(Memory(alerts, window).Keys, Keys(alerts));
    EmissionsAreShown(alerts, window);
  }

  predicate Alike(a: Alert, b: Alert) {
    !a.allowed && !b.allowed && a.Key() == b.Key()
  }

  predicate Apart(a: Alert, b: Alert, window: nat) {
    Max(a.ts, b.ts) - Min(a.ts, b.ts) >= window
  }

  /** The alerts of one key: all at one time, or no two of them within a window of each other. */
  ghost predicate UniformFor(alerts: seq<Alert>, k: Key, window: nat) {
    || (forall i, j :: 0 <= i < j < |alerts| && Alike(alerts[i], alerts[j]) && alerts[i].Key() == k ==>
          alerts[i].ts == alerts[j].ts)
    || (forall i, j :: 0 <= i < j < |alerts| && Alike(alerts[i], alerts[j]) && alerts[i].Key() == k ==>
          Apart(alerts[i], alerts[j], window))
  }

  ghost predicate Uniform(alerts: seq<Alert>, window: nat) {
    forall k: Key :: UniformFor(alerts, k, window)
  }

  /** Every arrangement of the same alerts emits as many. */
  ghost predicate OrderIrrelevant(alerts: seq<Alert>, window: nat) {
    forall p: seq<Alert> :: multiset(p) == multiset(alerts) ==> Emissions(p, window) == Emissions(alerts, window)
  }

  /** The pairs of key and time in a run. */
  function Occasions(alerts: seq<Alert>): set<(Key, int)> {
    set i | 0 <= i < |alerts| && !alerts[i].allowed :: (alerts[i].Key(), alerts[i].ts)
  }

  lemma UniformFront(alerts: seq<Alert>, window: nat)
    requires Uniform(alerts, window) && alerts != []
    ensures Uniform(alerts[..|alerts| - 1], window)
  {
    var front := alerts[..|alerts| - 1];
    forall k: Key
      ensures UniformFor(front, k, window)
    {
      assert UniformFor(alerts, k, window);
    }
  }

  /** The memory of a key is the time of some alert that was shown, and a key without one has had no alert. */
  lemma {:induction false} MemoryIsOfAnAlert(alerts: seq<Alert>, window: nat, k: Key)
    ensures var m := Memory(alerts, window);
            if k in m then
              (exists i :: 0 <= i < |alerts| && !alerts[i].allowed && alerts[i].Key() == k && alerts[i].ts == m[k])
            else k !in Keys(alerts)
  {
    if alerts != [] {
      var front, last := alerts[..|alerts| - 1], alerts[|alerts| - 1];
      MemoryIsOfAnAlert(front, window, k);
      var m := Memory(alerts, window);
      if k in m && (last.allowed || last.Key() != k || Repeats(Memory(front, window), last, window)) {
        var i :| 0 <= i < |front| && !front[i].allowed && front[i].Key() == k && front[i].ts == m[k];
        assert alerts[i] == front[i];
      }
      if k !in m {
        assert forall i :: 0 <= i < |front| ==> alerts[i] == front[i];
      }
    }
  }

  /** In a uniform run an alert is shown exactly when no like one of the same time came before it. */
  lemma UniformShows(front: seq<Alert>, last: Alert, window: nat)
    requires window > 0 && !last.allowed && UniformFor(front + [last], last.Key(), window)
    ensures Repeats(Memory(front, window), last, window) <==> (last.Key(), last.ts) in Occasions(front)
  {
    var all, k, m := front + [last], last.Key(), Memory(front, window);
    MemoryIsOfAnAlert(front, window, k);
    assert all[|front|] == last;
    if k in m {
      var i :| 0 <= i < |front| && !front[i].allowed && front[i].Key() == k && front[i].ts == m[k];
      assert all[i] == front[i] && Alike(all[i], all[|front|]);
      if (k, last.ts) in Occasions(front) {
        var j :| 0 <= j < |front| && !front[j].allowed && (front[j].Key(), front[j].ts) == (k, last.ts);
        assert all[j] == front[j] && Alike(all[j], all[|front|]) && !Apart(all[j], all[|front|], window);
        assert all[i].ts == all[|front|].ts;
      } else {
        assert (front[i].Key(), front[i].ts) in Occasions(front);
        assert Apart(all[i], all[|front|], window);
      }
    }
  }

  lemma UniformAt(alerts: seq<Alert>, k: Key, window: nat)
    requires Uniform(alerts, window)
    ensures UniformFor(alerts, k, window)
  {
  }

  lemma {:induction false} UniformCount(alerts: seq<Alert>, window: nat)
    requires window > 0 && Uniform(alerts, window)
    ensures ShownCount(alerts, window) == |Occasions(alerts)|
  {
    hide Uniform, UniformFor, Memory, Repeats, Occasions;
    if alerts == [] {
      NoOccasions();
    } else {
      var front, last := alerts[..|alerts| - 1], alerts[|alerts| - 1];
      UniformFront(alerts, window);
      UniformCount(front, window);
      assert alerts == front + [last];
      OccasionsGrow(front, last);
      if !last.allowed {
        UniformAt(alerts, last.Key(), window);
        UniformShows(front, last, window);
        var x := (last.Key(), last.ts);
        if x in Occasions(front) {
          assert Occasions(front) + {x} == Occasions(front);
        } else {
          assert |Occasions(front) + {x}| == |Occasions(front)| + 1;
        }
      }
    }
  }

  lemma NoOccasions()
    ensures Occasions([]) == {}
  {
  }

  lemma OccasionsGrow(front: seq<Alert>, last: Alert)
    ensures Occasions(front + [last]) == Occasions(front) + (if last.allowed then {} else {(last.Key(), last.ts)})
  {
    var all, o := front + [last], Occasions(front + [last]);
    assert all[|front|] == last;
    forall x | x in Occasions(front)
      ensures x in o
    {
      var i :| 0 <= i < |front| && !front[i].allowed && (front[i].Key(), front[i].ts) == x;
      assert all[i] == front[i];
    }
    forall x | x in o
      ensures x in Occasions(front) + (if last.allowed then {} else {(last.Key(), last.ts)})
    {
      var i :| 0 <= i < |all| && !all[i].allowed && (all[i].Key(), all[i].ts) == x;
      if i < |front| {
        assert all[i] == front[i];
      }
    }
  }

  lemma FindIn(p: seq<Alert>, q: seq<Alert>, i: nat) returns (j: nat)
    requires multiset(p) == multiset(q) && i < |p|
    ensures j < |q| && q[j] == p[i]
  {
    assert p[i] in multiset(p);
    j :| 0 <= j < |q| && q[j] == p[i];
  }

  lemma SubMembers(p: seq<Alert>, q: seq<Alert>)
    requires multiset(p) == multiset(q)
    ensures Occasions(p) <= Occasions(q) && Keys(p) <= Keys(q)
  {
    forall x | x in Occasions(p)
      ensures x in Occasions(q)
    {
      var i :| 0 <= i < |p| && !p[i].allowed && (p[i].Key(), p[i].ts) == x;
      var j := FindIn(p, q, i);
    }
    forall x | x in Keys(p)
      ensures x in Keys(q)
    {
      var i :| 0 <= i < |p| && !p[i].allowed && p[i].Key() == x;
      var j := FindIn(p, q, i);
    }
  }

  lemma SameMembers(p: seq<Alert>, q: seq<Alert>)
    requires multiset(p) == multiset(q)
    ensures Occasions(p) == Occasions(q) && Keys(p) == Keys(q)
  {
    SubMembers(p, q);
    SubMembers(q, p);
  }

  /** With no window nothing is suppressed. */
  function Unallowed(alerts: seq<Alert>): nat {
    if alerts == [] then 0 else Unallowed(alerts[..|alerts| - 1]) + (if alerts[|alerts| - 1].allowed then 0 else 1)
  }

  lemma {:induction false} NoWindowCount(alerts: seq<Alert>)
    ensures ShownCount(alerts, 0) == Unallowed(alerts)
  {
    if alerts != [] {
      NoWindowCount(alerts[..|alerts| - 1]);
    }
  }

  lemma {:induction false} UnallowedJoins(a: seq<Alert>, b: seq<Alert>)
    ensures Unallowed(a + b) == Unallowed(a) + Unallowed(b)
  {
    if b == [] {
      assert a + b == a;
    } else {
      assert (a + b)[..|a + b| - 1] == a + b[..|b| - 1];
      UnallowedJoins(a, b[..|b| - 1]);
    }
  }

  /** Taking one element out of a sequence. */
  lemma TakeOut(s: seq<Alert>, a: Alert) returns (rest: seq<Alert>, i: nat)
    requires a in s
    ensures i < |s| && s[i] == a && rest == s[..i] + s[i + 1..] && s == s[..i] + ([a] + s[i + 1..])
    ensures multiset(rest) == multiset(s) - multiset{a} && |rest| == |s| - 1
  {
    i :| 0 <= i < |s| && s[i] == a;
    rest := s[..i] + s[i + 1..];
    assert s == s[..i] + ([a] + s[i + 1..]);
  }

  lemma {:induction false} UnallowedPermutes(p: seq<Alert>, q: seq<Alert>)
    requires multiset(p) == multiset(q)
    ensures Unallowed(p) == Unallowed(q)
    decreases |p|
  {
    assert |multiset(p)| == |p| && |multiset(q)| == |q|;
    if p != [] {
      var front, last := p[..|p| - 1], p[|p| - 1];
      assert p == front + [last];
      assert last in multiset(q);
      var rest, i := TakeOut(q, last);
      UnallowedPermutes(front, rest);
      UnallowedJoins(q[..i], [last] + q[i + 1..]);
      UnallowedJoins([last], q[i + 1..]);
      UnallowedJoins(q[..i], q[i + 1..]);
      assert [last][..0] == [];
    }
  }

  lemma UniformIsIrrelevant(alerts: seq<Alert>, window: nat)
    requires |Keys(alerts)| < MAX_SUPPRESSION_KEYS / 2 && Uniform(alerts, window)
    ensures OrderIrrelevant(alerts, window)
  {
    hide Emissions, Uniform;
    forall p: seq<Alert> | multiset(p) == multiset(alerts)
      ensures Emissions(p, window) == Emissions(alerts, window)
    {
      SameMembers(p, alerts);
      SmallRun(p, window);
      SmallRun(alerts, window);
      if window == 0 {
        NoWindowCount(p);
        NoWindowCount(alerts);
        UnallowedPermutes(p, alerts);
      } else {
        UniformPermutes(p, alerts, window);
        UniformCount(p, window);
        UniformCount(alerts, window);
      }
    }
  }

  lemma UniformPermutes(p: seq<Alert>, q: seq<Alert>, window: nat)
    requires multiset(p) == multiset(q) && Uniform(q, window) && window > 0
    ensures Uniform(p, window)
  {
    forall k: Key
      ensures UniformFor(p, k, window)
    {
      assert UniformFor(q, k, window);
      UniformForPermutes(p, q, k, window);
    }
  }

  lemma TwoOf(s: seq<Alert>, i: nat, j: nat)
    requires i < j < |s|
    ensures multiset{s[i], s[j]} <= multiset(s)
  {
    assert s == s[..i] + [s[i]] + s[i + 1..j] + [s[j]] + s[j + 1..];
  }

  lemma OneAfterOther(s: seq<Alert>, a: Alert, b: Alert) returns (i: nat, j: nat)
    requires multiset{a, b} <= multiset(s)
    ensures i < j < |s| && ((s[i] == a && s[j] == b) || (s[i] == b && s[j] == a))
  {
    assert a in multiset{a, b};
    assert a in multiset(s);
    var rest, m := TakeOut(s, a);
    assert multiset{a, b}[b] <= multiset(s)[b];
    assert b in multiset(rest);
    var k :| 0 <= k < |rest| && rest[k] == b;
    i, j := if k < m then k else m, if k < m then m else k + 1;
  }

  lemma UniformForPermutes(p: seq<Alert>, q: seq<Alert>, k: Key, window: nat)
    requires multiset(p) == multiset(q) && UniformFor(q, k, window)
    ensures UniformFor(p, k, window)
  {
    hide Alike, Apart;
    forall i, j | 0 <= i < j < |p| && Alike(p[i], p[j]) && p[i].Key() == k
      ensures exists x, y :: 0 <= x < y < |q| && Alike(q[x], q[y]) && q[x].Key() == k &&
                             (q[x].ts == q[y].ts <==> p[i].ts == p[j].ts) &&
                             (Apart(q[x], q[y], window) <==> Apart(p[i], p[j], window))
    {
      TwoOf(p, i, j);
      var x, y := OneAfterOther(q, p[i], p[j]);
      PairsSwap(p[i], p[j], window);
    }
  }

  lemma PairsSwap(a: Alert, b: Alert, window: nat)
    ensures Alike(a, b) <==> Alike(b, a)
    ensures Apart(a, b, window) <==> Apart(b, a, window)
    ensures Alike(a, b) ==> a.Key() == b.Key()
  {
  }

  // ------------------------------------------ when the order does make a difference

  lemma ShownOfMore(front: seq<Alert>, c: Alert, window: nat)
    ensures Memory(front + [c], window) == Remembered(Memory(front, window), c, window)
    ensures ShownCount(front + [c], window) ==
            ShownCount(front, window) + (if c.allowed || Repeats(Memory(front, window), c, window) then 0 else 1)
  {
    assert (front + [c])[..|front|] == front;
  }

  /** The rest of a run after two beginnings that leave the same memory. */
  lemma {:induction false} SameRest(p: seq<Alert>, q: seq<Alert>, rest: seq<Alert>, window: nat)
    requires Memory(p, window) == Memory(q, window)
    ensures Memory(p + rest, window) == Memory(q + rest, window)
    ensures ShownCount(p + rest, window) + ShownCount(q, window) == ShownCount(q + rest, window) + ShownCount(p, window)
  {
    hide Memory, ShownCount, Repeats, Remembered;
    if rest == [] {
      assert p + rest == p && q + rest == q;
    } else {
      var front, last := rest[..|rest| - 1], rest[|rest| - 1];
      SameRest(p, q, front, window);
      ShownOfMore(p + front, last, window);
      ShownOfMore(q + front, last, window);
      assert p + rest == p + front + [last];
      assert q + rest == q + front + [last];
    }
  }

  lemma MemoryOfTwo(a: Alert, b: Alert, window: nat)
    requires Alike(a, b)
    ensures Memory([a, b], window) == map[a.Key() := if 0 <= b.ts - a.ts < window then a.ts else b.ts]
    ensures ShownCount([a, b], window) == if 0 <= b.ts - a.ts < window then 1 else 2
  {
    assert [a, b][..1] == [a] && [a][..0] == [];
    assert Memory([], window) == map[];
    assert Memory([a], window) == map[a.Key() := a.ts];
    assert ShownCount([a], window) == 1;
  }

  lemma MemoryOfThree(a: Alert, b: Alert, c: Alert, window: nat)
    requires Alike(a, b) && Alike(b, c)
    ensures var m := if 0 <= b.ts - a.ts < window then a.ts else b.ts;
            && Memory([a, b, c], window) == map[a.Key() := if 0 <= c.ts - m < window then m else c.ts]
            && ShownCount([a, b, c], window) == ShownCount([a, b], window) + if 0 <= c.ts - m < window then 0 else 1
  {
    MemoryOfTwo(a, b, window);
    assert [a, b, c][..2] == [a, b];
    hide ShownCount;
    ShownOfMore([a, b], c, window);
    assert [a, b] + [c] == [a, b, c];
  }

  /** The rest of a run after some of its alerts have been put first. */
  lemma {:induction false} Complete(alerts: seq<Alert>, first: seq<Alert>) returns (rest: seq<Alert>)
    requires multiset(first) <= multiset(alerts)
    ensures multiset(first + rest) == multiset(alerts)
  {
    if first == [] {
      rest := alerts;
    } else {
      var front, last := first[..|first| - 1], first[|first| - 1];
      assert first == front + [last];
      var more := Complete(alerts, front);
      assert multiset(front + more) == multiset(front) + multiset(more);
      assert multiset(first)[last] <= multiset(alerts)[last];
      assert last in multiset(more);
      var i;
      rest, i := TakeOut(more, last);
    }
  }

  /** Two beginnings that leave the same memory but show a different number make the order matter. */
  lemma BeginningsDiffer(alerts: seq<Alert>, p: seq<Alert>, q: seq<Alert>, window: nat)
    requires |Keys(alerts)| < MAX_SUPPRESSION_KEYS / 2
    requires multiset(p) <= multiset(alerts) && multiset(q) == multiset(p)
    requires Memory(p, window) == Memory(q, window) && ShownCount(p, window) != ShownCount(q, window)
    ensures !OrderIrrelevant(alerts, window)
  {
    hide Emissions;
    var rest := Complete(alerts, p);
    assert multiset(q + rest) == multiset(alerts);
    SameRest(p, q, rest, window);
    SameMembers(p + rest, alerts);
    SameMembers(q + rest, alerts);
    SmallRun(p + rest, window);
    SmallRun(q + rest, window);
    if OrderIrrelevant(alerts, window) {
      SameEmissions(alerts, p + rest, window);
      SameEmissions(alerts, q + rest, window);
    }
  }

  lemma SameEmissions(alerts: seq<Alert>, p: seq<Alert>, window: nat)
    requires OrderIrrelevant(alerts, window) && multiset(p) == multiset(alerts)
    ensures Emissions(p, window) == Emissions(alerts, window)
  {
  }

  /** Two alerts of one key within a window of each other: the earlier first shows one of them, the later first both. */
  lemma CloseAlertsDiffer(alerts: seq<Alert>, x: Alert, y: Alert, window: nat)
    requires |Keys(alerts)| < MAX_SUPPRESSION_KEYS / 2 && multiset{x, y} <= multiset(alerts)
    requires Alike(x, y) && 0 < y.ts - x.ts < window
    ensures !OrderIrrelevant(alerts, window)
  {
    MemoryOfTwo(x, y, window);
    MemoryOfTwo(y, x, window);
    assert multiset([x, y]) == multiset{x, y} == multiset([y, x]);
    BeginningsDiffer(alerts, [x, y], [y, x], window);
  }

  lemma PairInAnyOrder<T>(x: T, y: T)
    ensures multiset([x, y]) == multiset{x, y} == multiset([y, x])
  {
  }

  lemma ThreeInAnyOrder<T>(x: T, w: T, y: T)
    ensures multiset([y, x, w]) == multiset{x, w, y} == multiset([x, y, w])
  {
    PairInAnyOrder(x, y);
    assert [y, x, w] == [y, x] + [w] && [x, y, w] == [x, y] + [w];
    assert multiset{x, w, y} == multiset{x, y} + multiset{w};
  }

  /**
   * Two simultaneous alerts and a third a window away: the third between them shows all three, before them only two.
   */
  lemma RepeatedAlertsDiffer(alerts: seq<Alert>, x: Alert, w: Alert, y: Alert, window: nat)
    requires |Keys(alerts)| < MAX_SUPPRESSION_KEYS / 2 && multiset{x, w, y} <= multiset(alerts) && window > 0
    requires Alike(x, w) && Alike(w, y) && x.ts == w.ts && Apart(x, y, window)
    ensures !OrderIrrelevant(alerts, window)
  {
    hide Memory, ShownCount, OrderIrrelevant, Keys, Repeats;
    MemoryOfTwo(y, x, window);
    MemoryOfTwo(x, y, window);
    MemoryOfThree(y, x, w, window);
    MemoryOfThree(x, y, w, window);
    ThreeInAnyOrder(x, w, y);
    BeginningsDiffer(alerts, [y, x, w], [x, y, w], window);
  }

  lemma IrrelevantIsUniform(alerts: seq<Alert>, k: Key, window: nat)
    requires |Keys(alerts)| < MAX_SUPPRESSION_KEYS / 2 && !UniformFor(alerts, k, window)
    ensures !OrderIrrelevant(alerts, window)
  {
    var i, j :| 0 <= i < j < |alerts| && Alike(alerts[i], alerts[j]) && alerts[i].Key() == k &&
      !Apart(alerts[i], alerts[j], window);
    TwoOf(alerts, i, j);
    var x, w := alerts[i], alerts[j];
    hide OrderIrrelevant, Keys;
    if x.ts < w.ts {
      CloseAlertsDiffer(alerts, x, w, window);
    } else if w.ts < x.ts {
      CloseAlertsDiffer(alerts, w, x, window);
    } else {
      var y := AnotherTime(alerts, k, window, x.ts);
      ThirdAlertDiffers(alerts, x, w, y, window);
    }
  }

  lemma AnotherTime(alerts: seq<Alert>, k: Key, window: nat, ts: int) returns (y: Alert)
    requires !UniformFor(alerts, k, window)
    ensures y in alerts && !y.allowed && y.Key() == k && y.ts != ts
  {
    var a, b :| 0 <= a < b < |alerts| && Alike(alerts[a], alerts[b]) && alerts[a].Key() == k &&
      alerts[a].ts != alerts[b].ts;
    y := if alerts[a].ts != ts then alerts[a] else alerts[b];
  }

  lemma ThirdAlertDiffers(alerts: seq<Alert>, x: Alert, w: Alert, y: Alert, window: nat)
    requires |Keys(alerts)| < MAX_SUPPRESSION_KEYS / 2 && multiset{x, w} <= multiset(alerts) && y in alerts
    requires Alike(x, w) && Alike(w, y) && x.ts == w.ts && y.ts != x.ts && !Apart(x, w, window)
    ensures !OrderIrrelevant(alerts, window)
  {
    hide OrderIrrelevant, Keys;
    ThirdOf(alerts, x, w, y);
    if Apart(x, y, window) {
      RepeatedAlertsDiffer(alerts, x, w, y, window);
    } else {
      assert multiset{x, y} <= multiset{x, w, y};
      if x.ts < y.ts {
        CloseAlertsDiffer(alerts, x, y, window);
      } else {
        CloseAlertsDiffer(alerts, y, x, window);
      }
    }
  }

  lemma ThirdOf(s: seq<Alert>, x: Alert, w: Alert, y: Alert)
    requires multiset{x, w} <= multiset(s) && y in s && y != x && y != w
    ensures multiset{x, w, y} <= multiset(s)
  {
    assert multiset(s)[y] > 0;
  }

  /**
   * Contrary to the comment on pruning, the arrival order counts even when nothing is pruned. With fewer keys than half
   * the cap, every arrangement of a run's alerts emits as many if and only if, key by key, the alerts are all
   * simultaneous or no two of them lie within a window of each other.
   */
  lemma OrdersAgreeIff(alerts: seq<Alert>, window: nat)
    requires |Keys(alerts)| < MAX_SUPPRESSION_KEYS / 2
    ensures OrderIrrelevant(alerts, window) <==> Uniform(alerts, window)
  {
    hide OrderIrrelevant, UniformFor;
    if Uniform(alerts, window) {
      UniformIsIrrelevant(alerts, window);
    } else {
      var k: Key :| !UniformFor(alerts, k, window);
      IrrelevantIsUniform(alerts, k, window);
    }
  }

  // ---------------------------------------------------- which alerts are emitted

  /** The alerts a run emits, with their numbers. */
  function EmittedAlerts(alerts: seq<Alert>, window: nat): multiset<Alert> {
    if alerts == [] then multiset{}
    else
      var front, last := alerts[..|alerts| - 1], alerts[|alerts| - 1];
      EmittedAlerts(front, window) +
      (if Outcomes(alerts, window)[|alerts| - 1].Emitted? then multiset{last} else multiset{})
  }

  /** Those the writer that never prunes shows. */
  function ShownAlerts(alerts: seq<Alert>, window: nat): multiset<Alert> {
    if alerts == [] then multiset{}
    else
      var front, last := alerts[..|alerts| - 1], alerts[|alerts| - 1];
      ShownAlerts(front, window) +
      (if last.allowed || Repeats(Memory(front, window), last, window) then multiset{} else multiset{last})
  }

  lemma {:induction false} EmittedNumber(alerts: seq<Alert>, window: nat)
    ensures |EmittedAlerts(alerts, window)| == Emissions(alerts, window)
  {
    if alerts != [] {
      var front := alerts[..|alerts| - 1];
      EmittedNumber(front, window);
      var os := Outcomes(alerts, window);
      assert os[..|os| - 1] == Outcomes(front, window);
    }
  }

  lemma {:induction false} EmittedAreShown(alerts: seq<Alert>, window: nat)
    requires |Memory(alerts, window)| < MAX_SUPPRESSION_KEYS / 2
    ensures EmittedAlerts(alerts, window) == ShownAlerts(alerts, window)
  {
    if alerts != [] {
      var front, last := alerts[..|alerts| - 1], alerts[|alerts| - 1];
      SmallTablesAreNeverPruned(alerts, window);
      MemoryGrows(Memory(front, window), last, window);
      EmittedAreShown(front, window);
      assert Outcomes(alerts, window)[|front|].Emitted? <==> Shown(alerts, window)[|front|];
    }
  }

  lemma SmallRunAlerts(alerts: seq<Alert>, window: nat)
    requires |Keys(alerts)| < MAX_SUPPRESSION_KEYS / 2
    ensures EmittedAlerts(alerts, window) == ShownAlerts(alerts, window)
  {
    MemoryKeys(alerts, window);
    SubsetIsNoLarger(Memory(alerts, window).Keys, Keys(alerts));
    EmittedAreShown(alerts, window);
  }

  /** The alerts of one key: all the same alert, or no two of them within a window of each other. */
  ghost predicate SingleFor(alerts: seq<Alert>, k: Key, window: nat) {
    || (forall i, j :: 0 <= i < j < |alerts| && Alike(alerts[i], alerts[j]) && alerts[i].Key() == k ==>
          alerts[i] == alerts[j])
    || (forall i, j :: 0 <= i < j < |alerts| && Alike(alerts[i], alerts[j]) && alerts[i].Key() == k ==>
          Apart(alerts[i], alerts[j], window))
  }

  ghost predicate Single(alerts: seq<Alert>, window: nat) {
    forall k: Key :: SingleFor(alerts, k, window)
  }

  /** Every arrangement of the same alerts emits the same ones. */
  ghost predicate ChoiceIrrelevant(alerts: seq<Alert>, window: nat) {
    forall p: seq<Alert> :: multiset(p) == multiset(alerts) ==>
      EmittedAlerts(p, window) == EmittedAlerts(alerts, window)
  }

  /** The different alerts of a run, allowlisted ones aside. */
  function Different(alerts: seq<Alert>): set<Alert> {
    set i | 0 <= i < |alerts| && !alerts[i].allowed :: alerts[i]
  }

  lemma SingleFront(alerts: seq<Alert>, window: nat)
    requires Single(alerts, window) && alerts != []
    ensures Single(alerts[..|alerts| - 1], window)
  {
    var front := alerts[..|alerts| - 1];
    forall k: Key
      ensures SingleFor(front, k, window)
    {
      assert SingleFor(alerts, k, window);
    }
  }

  lemma SingleIsUniform(alerts: seq<Alert>, k: Key, window: nat)
    requires Single(alerts, window)
    ensures SingleFor(alerts, k, window) && UniformFor(alerts, k, window)
  {
    assert SingleFor(alerts, k, window);
  }

  /** In such a run an alert is shown exactly when it has not come before. */
  lemma SingleShows(front: seq<Alert>, last: Alert, window: nat)
    requires window > 0 && !last.allowed && Single(front + [last], window)
    ensures Repeats(Memory(front, window), last, window) <==> last in Different(front)
  {
    hide Single, Memory, Repeats;
    var all, k := front + [last], last.Key();
    SingleIsUniform(all, k, window);
    UniformShows(front, last, window);
    hide UniformFor;
    assert all[|front|] == last;
    if (k, last.ts) in Occasions(front) {
      var j :| 0 <= j < |front| && !front[j].allowed && (front[j].Key(), front[j].ts) == (k, last.ts);
      assert all[j] == front[j] && Alike(all[j], all[|front|]) && !Apart(all[j], all[|front|], window);
      assert front[j] == last;
    }
    if last in Different(front) {
      assert (k, last.ts) in Occasions(front);
    }
  }

  lemma DifferentGrow(front: seq<Alert>, last: Alert)
    ensures Different(front + [last]) == Different(front) + (if last.allowed then {} else {last})
  {
    var all, d := front + [last], Different(front + [last]);
    assert all[|front|] == last;
    forall x | x in Different(front)
      ensures x in d
    {
      var i :| 0 <= i < |front| && !front[i].allowed && front[i] == x;
      assert all[i] == front[i];
    }
    forall x | x in d
      ensures x in Different(front) + (if last.allowed then {} else {last})
    {
      var i :| 0 <= i < |all| && !all[i].allowed && all[i] == x;
      if i < |front| {
        assert all[i] == front[i];
      }
    }
  }

  lemma OneMore(d: set<Alert>, x: Alert)
    ensures x in d ==> d + {x} == d
    ensures x !in d ==> multiset(d + {x}) == multiset(d) + multiset{x}
  {
  }

  lemma NoneDifferent()
    ensures multiset(Different([])) == multiset{}
  {
    assert Different([]) == {};
  }

  lemma {:induction false} SingleShown(alerts: seq<Alert>, window: nat)
    requires window > 0 && Single(alerts, window)
    ensures ShownAlerts(alerts, window) == multiset(Different(alerts))
  {
    hide Single, Memory, Repeats, Different;
    if alerts == [] {
      NoneDifferent();
    } else {
      var front, last := alerts[..|alerts| - 1], alerts[|alerts| - 1];
      SingleFront(alerts, window);
      SingleShown(front, window);
      assert alerts == front + [last];
      DifferentGrow(front, last);
      OneMore(Different(front), last);
      if !last.allowed {
        SingleShows(front, last, window);
      }
    }
  }

  /** With no window all is shown. */
  lemma {:induction false} NoWindowShown(alerts: seq<Alert>, a: Alert)
    ensures ShownAlerts(alerts, 0)[a] == if a.allowed then 0 else multiset(alerts)[a]
  {
    if alerts != [] {
      var front, last := alerts[..|alerts| - 1], alerts[|alerts| - 1];
      NoWindowShown(front, a);
      assert alerts == front + [last];
      assert multiset(alerts) == multiset(front) + multiset{last};
    }
  }

  lemma SubDifferent(p: seq<Alert>, q: seq<Alert>)
    requires multiset(p) == multiset(q)
    ensures Different(p) <= Different(q)
  {
    forall x | x in Different(p)
      ensures x in Different(q)
    {
      var i :| 0 <= i < |p| && !p[i].allowed && p[i] == x;
      var j := FindIn(p, q, i);
    }
  }

  lemma SingleForPermutes(p: seq<Alert>, q: seq<Alert>, k: Key, window: nat)
    requires multiset(p) == multiset(q) && SingleFor(q, k, window)
    ensures SingleFor(p, k, window)
  {
    hide Alike, Apart;
    forall i, j | 0 <= i < j < |p| && Alike(p[i], p[j]) && p[i].Key() == k
      ensures exists x, y :: 0 <= x < y < |q| && Alike(q[x], q[y]) && q[x].Key() == k &&
                             (q[x] == q[y] <==> p[i] == p[j]) &&
                             (Apart(q[x], q[y], window) <==> Apart(p[i], p[j], window))
    {
      TwoOf(p, i, j);
      var x, y := OneAfterOther(q, p[i], p[j]);
      PairsSwap(p[i], p[j], window);
    }
  }

  lemma SingleIsIrrelevant(alerts: seq<Alert>, window: nat)
    requires |Keys(alerts)| < MAX_SUPPRESSION_KEYS / 2 && Single(alerts, window)
    ensures ChoiceIrrelevant(alerts, window)
  {
    hide EmittedAlerts, ShownAlerts, SingleFor, Keys, Different;
    forall p: seq<Alert> | multiset(p) == multiset(alerts)
      ensures EmittedAlerts(p, window) == EmittedAlerts(alerts, window)
    {
      SameMembers(p, alerts);
      SmallRunAlerts(p, window);
      SmallRunAlerts(alerts, window);
      if window == 0 {
        forall a: Alert
          ensures ShownAlerts(p, 0)[a] == ShownAlerts(alerts, 0)[a]
        {
          NoWindowShown(p, a);
          NoWindowShown(alerts, a);
        }
      } else {
        forall k: Key
          ensures SingleFor(p, k, window)
        {
          SingleForPermutes(p, alerts, k, window);
        }
        SingleShown(p, window);
        SingleShown(alerts, window);
        SubDifferent(p, alerts);
        SubDifferent(alerts, p);
      }
    }
  }

  lemma ShownOneMore(front: seq<Alert>, c: Alert, window: nat)
    ensures Memory(front + [c], window) == Remembered(Memory(front, window), c, window)
    ensures ShownAlerts(front + [c], window) == ShownAlerts(front, window) +
            (if c.allowed || Repeats(Memory(front, window), c, window) then multiset{} else multiset{c})
  {
    assert (front + [c])[..|front|] == front;
  }

  lemma AddBoth(a: multiset<Alert>, b: multiset<Alert>, c: multiset<Alert>, d: multiset<Alert>, more: multiset<Alert>)
    requires a + b == c + d
    ensures (a + more) + b == (c + more) + d
  {
    assert (a + more) + b == (a + b) + more && (c + more) + d == (c + d) + more;
  }

  lemma TwinsTell(a: multiset<Alert>, b: multiset<Alert>, x: Alert, w: Alert)
    requires x != w && a + multiset{w} == b + multiset{x}
    ensures a != b
  {
    assert (a + multiset{w})[x] == a[x] && (b + multiset{x})[x] == b[x] + 1;
  }

  lemma {:induction false} SameRestShown(p: seq<Alert>, q: seq<Alert>, rest: seq<Alert>, window: nat)
    requires Memory(p, window) == Memory(q, window)
    ensures Memory(p + rest, window) == Memory(q + rest, window)
    ensures ShownAlerts(p + rest, window) + ShownAlerts(q, window) ==
            ShownAlerts(q + rest, window) + ShownAlerts(p, window)
  {
    hide Memory, ShownAlerts, Repeats, Remembered;
    if rest == [] {
      assert p + rest == p && q + rest == q;
    } else {
      var front, last := rest[..|rest| - 1], rest[|rest| - 1];
      SameRestShown(p, q, front, window);
      ShownOneMore(p + front, last, window);
      ShownOneMore(q + front, last, window);
      var shown := if last.allowed || Repeats(Memory(p + front, window), last, window) then multiset{}
        else multiset{last};
      AddBoth(ShownAlerts(p + front, window), ShownAlerts(q, window), ShownAlerts(q + front, window),
              ShownAlerts(p, window), shown);
      assert p + rest == p + front + [last];
      assert q + rest == q + front + [last];
    }
  }

  lemma ShownOfTwo(a: Alert, b: Alert, window: nat)
    requires Alike(a, b) && a.ts == b.ts && window > 0
    ensures Memory([a, b], window) == map[a.Key() := a.ts]
    ensures ShownAlerts([a, b], window) == multiset{a}
  {
    MemoryOfTwo(a, b, window);
    assert [a, b][..1] == [a] && [a][..0] == [];
    assert Memory([], window) == map[] && Memory([a], window) == map[a.Key() := a.ts];
    assert ShownAlerts([a], window) == multiset{a};
  }

  /** Of two different alerts with one key and one time, whichever comes first is the one that is emitted. */
  lemma TwinsDiffer(alerts: seq<Alert>, x: Alert, w: Alert, window: nat)
    requires |Keys(alerts)| < MAX_SUPPRESSION_KEYS / 2 && multiset{x, w} <= multiset(alerts) && window > 0
    requires Alike(x, w) && x.ts == w.ts && x != w
    ensures !ChoiceIrrelevant(alerts, window)
  {
    hide Memory, ShownAlerts, EmittedAlerts, Keys, ChoiceIrrelevant;
    ShownOfTwo(x, w, window);
    ShownOfTwo(w, x, window);
    PairInAnyOrder(x, w);
    var rest := Complete(alerts, [x, w]);
    SameRestShown([x, w], [w, x], rest, window);
    JoinedSame([x, w], [w, x], rest);
    SameMembers([x, w] + rest, alerts);
    SameMembers([w, x] + rest, alerts);
    SmallRunAlerts([x, w] + rest, window);
    SmallRunAlerts([w, x] + rest, window);
    TwinsTell(ShownAlerts([x, w] + rest, window), ShownAlerts([w, x] + rest, window), x, w);
    if ChoiceIrrelevant(alerts, window) {
      SameChoice(alerts, [x, w] + rest, window);
      SameChoice(alerts, [w, x] + rest, window);
    }
  }

  lemma JoinedSame(p: seq<Alert>, q: seq<Alert>, rest: seq<Alert>)
    requires multiset(p) == multiset(q)
    ensures multiset(p + rest) == multiset(q + rest)
  {
  }

  lemma SameChoice(alerts: seq<Alert>, p: seq<Alert>, window: nat)
    requires ChoiceIrrelevant(alerts, window) && multiset(p) == multiset(alerts)
    ensures EmittedAlerts(p, window) == EmittedAlerts(alerts, window)
  {
  }

  lemma ChoiceCounts(alerts: seq<Alert>, window: nat)
    requires ChoiceIrrelevant(alerts, window)
    ensures OrderIrrelevant(alerts, window)
  {
    hide ChoiceIrrelevant, EmittedAlerts, Emissions;
    forall p: seq<Alert> | multiset(p) == multiset(alerts)
      ensures Emissions(p, window) == Emissions(alerts, window)
    {
      SameChoice(alerts, p, window);
      EmittedNumber(p, window);
      EmittedNumber(alerts, window);
    }
  }

  lemma ChoiceIsSingle(alerts: seq<Alert>, k: Key, window: nat)
    requires |Keys(alerts)| < MAX_SUPPRESSION_KEYS / 2 && !SingleFor(alerts, k, window)
    ensures !ChoiceIrrelevant(alerts, window)
  {
    hide ChoiceIrrelevant, OrderIrrelevant, Keys, UniformFor;
    if ChoiceIrrelevant(alerts, window) {
      ChoiceCounts(alerts, window);
      OrdersAgreeIff(alerts, window);
      var i, j := Twins(alerts, k, window);
      TwoOf(alerts, i, j);
      TwinsDiffer(alerts, alerts[i], alerts[j], window);
    }
  }

  lemma Twins(alerts: seq<Alert>, k: Key, window: nat) returns (i: nat, j: nat)
    requires Uniform(alerts, window) && !SingleFor(alerts, k, window)
    ensures i < j < |alerts| && Alike(alerts[i], alerts[j]) && alerts[i].ts == alerts[j].ts && alerts[i] != alerts[j]
    ensures window > 0
  {
    UniformAt(alerts, k, window);
    hide Uniform;
    i, j :| 0 <= i < j < |alerts| && Alike(alerts[i], alerts[j]) && alerts[i].Key() == k && alerts[i] != alerts[j];
  }

  /**
   * Which alerts are emitted depends on the order more often still: with fewer keys than half the cap, every
   * arrangement emits the same alerts if and only if, key by key, the alerts are all one and the same or no two of them
   * lie within a window of each other.
   */
  lemma ChoicesAgreeIff(alerts: seq<Alert>, window: nat)
    requires |Keys(alerts)| < MAX_SUPPRESSION_KEYS / 2
    ensures ChoiceIrrelevant(alerts, window) <==> Single(alerts, window)
  {
    hide ChoiceIrrelevant, SingleFor;
    if Single(alerts, window) {
      SingleIsIrrelevant(alerts, window);
    } else {
      var k: Key :| !SingleFor(alerts, k, window);
      ChoiceIsSingle(alerts, k, window);
    }
  }
}
