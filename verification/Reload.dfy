/**
 * Hot reload (src/reload.rs): any number of writers and readers, interleaved at every
 * lock and every atomic operation, over a mutex-guarded slot and a generation counter.
 */
module Reloading {
  import opened Base

  const GENERATIONS := 0x1_0000_0000_0000_0000

  /** One shared allocation; allocations are numbered from one in the order they reach the slot. */
  datatype Arc<T> = Arc(version: nat, value: T)

  /**
   * How far a reader is through `Cached::new` or `Cached::get`; `began` is the newest version published when it
   * started.
   */
  datatype Phase =
    | Opening(seen: nat, began: nat)
    | Resting
    | Stale(seen: nat, began: nat)
    | Loaded(seen: nat, began: nat)

  /** What one call returned, and the newest version published when the call started. */
  datatype Answer<T> = Answer(began: nat, given: Arc<T>)

  datatype Reader<T> = Reader(held: Arc<T>, generation: nat, phase: Phase, answers: seq<Answer<T>>)

  /**
   * `storing` holds the writers between replacing the slot and bumping the generation.
   * `published`, the newest version whose store has finished, is no part of the program: it is what callers may rely
   * on.
   */
  datatype Hot<T> = Hot(slot: Arc<T>, generation: nat, storing: map<nat, nat>, published: nat,
      readers: map<nat, Reader<T>>)

  datatype Event<T> =
    | Replace(writer: nat, value: T)
    | Bump(writer: nat)
    | Open(reader: nat)
    | FirstLoad(reader: nat)
    | ReadGeneration(reader: nat)
    | LoadSlot(reader: nat)
    | Record(reader: nat)

  function NewHot<T>(value: T): Hot<T> {
    Hot(Arc(1, value), 1, map[], 1, map[])
  }

  // ------------------------------------------------------------- the steps

  /** Whether an actor is at the point of its call where it would take this step. */
  predicate Enabled<T>(h: Hot<T>, e: Event<T>) {
    match e
    case Replace(w, _) => w !in h.storing
    case Bump(w) => w in h.storing
    case Open(r) => r !in h.readers
    case FirstLoad(r) => r in h.readers && h.readers[r].phase.Opening?
    case ReadGeneration(r) => r in h.readers && h.readers[r].phase.Resting?
    case LoadSlot(r) => r in h.readers && h.readers[r].phase.Stale?
    case Record(r) => r in h.readers && h.readers[r].phase.Loaded?
  }

  /** Taking the lock and replacing the slot. */
  function Replaced<T>(h: Hot<T>, w: nat, value: T): Hot<T> {
    h.(slot := Arc(h.slot.version + 1, value), storing := h.storing[w := h.slot.version + 1])
  }

  /** `fetch_add(1)` on the generation, which wraps. */
  function Bumped<T>(h: Hot<T>, w: nat): Hot<T>
    requires w in h.storing
  {
    h.(generation := (h.generation + 1) % GENERATIONS,
       storing := h.storing - {w},
       published := Max(h.published, h.storing[w]))
  }

  /** The comparison at the head of `get`: the held value is the answer when the generation has not moved. */
  function Compared<T>(r: Reader<T>, generation: nat, published: nat): Reader<T> {
    if generation == r.generation then r.(answers := r.answers + [Answer(published, r.held)])
    else r.(phase := Stale(generation, published))
  }

  /** Recording the generation that was read before the load, and returning. */
  function Finished<T>(r: Reader<T>, seen: nat, began: nat): Reader<T> {
    r.(generation := seen, phase := Resting, answers := r.answers + [Answer(began, r.held)])
  }

  function ReaderStep<T>(h: Hot<T>, e: Event<T>): Reader<T>
    requires Enabled(h, e) && !e.Replace? && !e.Bump?
  {
    match e
    case Open(_) => Reader(h.slot, h.generation, Opening(h.generation, h.published), [])
    case FirstLoad(r) =>
      var p := h.readers[r].phase;
      Finished(h.readers[r].(held := h.slot), p.seen, p.began)
    case ReadGeneration(r) => Compared(h.readers[r], h.generation, h.published)
    case LoadSlot(r) =>
      var p := h.readers[r].phase;
      h.readers[r].(held := h.slot, phase := Loaded(p.seen, p.began))
    case Record(r) =>
      var p := h.readers[r].phase;
      Finished(h.readers[r], p.seen, p.began)
  }

  function Step<T>(h: Hot<T>, e: Event<T>): Hot<T>
    requires Enabled(h, e)
  {
    match e
    case Replace(w, value) => Replaced(h, w, value)
    case Bump(w) => Bumped(h, w)
    case _ => h.(readers := h.readers[e.reader := ReaderStep(h, e)])
  }

  predicate Possible<T>(h: Hot<T>, es: seq<Event<T>>)
    decreases |es|
  {
    es == [] || (Enabled(h, es[0]) && Possible(Step(h, es[0]), es[1..]))
  }

  function Run<T>(h: Hot<T>, es: seq<Event<T>>): Hot<T>
    requires Possible(h, es)
    decreases |es|
  {
    if es == [] then h else Run(Step(h, es[0]), es[1..])
  }

  // ---------------------------------------------------------- the invariant

  /** Stores not yet finished are newer than nothing the slot holds, and finished ones are accounted for. */
  ghost predicate StoresAccounted<T>(h: Hot<T>) {
    && 1 <= h.published <= h.slot.version
    && (forall w :: w in h.storing ==> h.storing[w] <= h.slot.version)
    && (h.slot.version == h.published || exists w :: w in h.storing && h.storing[w] == h.slot.version)
    && h.generation + |h.storing| == h.slot.version
  }

  /** A version loaded after the generation `seen` was read is new enough to be recorded under it. */
  ghost predicate Covers<T>(h: Hot<T>, held: Arc<T>, seen: nat) {
    && seen <= h.generation
    && seen <= held.version <= h.slot.version
    && (held.version == h.slot.version ==> held == h.slot)
    && (seen == h.generation ==> h.published <= held.version)
  }

  ghost predicate AnswersHonest<T>(h: Hot<T>, r: Reader<T>) {
    && (forall i :: 0 <= i < |r.answers| ==> r.answers[i].began <= r.answers[i].given.version <= r.held.version)
    && (forall i, j :: 0 <= i < j < |r.answers| ==> r.answers[i].given.version <= r.answers[j].given.version)
  }

  ghost predicate ReaderHonest<T>(h: Hot<T>, r: Reader<T>) {
    && AnswersHonest(h, r)
    && (r.phase.Opening? ==> r.answers == [] && r.phase.seen <= h.generation && r.phase.began <= h.published
                             && (r.phase.seen == h.generation ==> r.phase.began == h.published))
    && (!r.phase.Opening? ==> Covers(h, r.held, r.generation))
    && (r.phase.Stale? ==> r.phase.seen <= h.generation && r.phase.began <= h.published)
    && (r.phase.Loaded? ==> Covers(h, r.held, r.phase.seen) && r.phase.began <= r.held.version)
  }

  ghost predicate Inv<T>(h: Hot<T>) {
    && StoresAccounted(h)
    && forall r :: r in h.readers ==> ReaderHonest(h, h.readers[r])
  }

  lemma InvInitially<T>(value: T)
    ensures Inv(NewHot(value))
  {
  }

  lemma ReplaceAccounted<T>(h: Hot<T>, w: nat, value: T)
    requires StoresAccounted(h) && w !in h.storing
    ensures StoresAccounted(Replaced(h, w, value))
  {
    var k := Replaced(h, w, value);
    assert k.storing.Keys == h.storing.Keys + {w};
    assert |k.storing.Keys| == |h.storing.Keys| + 1;
    assert w in k.storing && k.storing[w] == k.slot.version;
  }

  lemma ReplaceKeepsInv<T>(h: Hot<T>, w: nat, value: T)
    requires Inv(h) && w !in h.storing
    ensures Inv(Replaced(h, w, value))
  {
    ReplaceAccounted(h, w, value);
    hide StoresAccounted;
    var k := Replaced(h, w, value);
    forall r | r in k.readers
      ensures ReaderHonest(k, k.readers[r])
    {
      assert ReaderHonest(h, h.readers[r]);
    }
  }

  lemma BumpAccounted<T>(h: Hot<T>, w: nat)
    requires StoresAccounted(h) && w in h.storing && h.slot.version < GENERATIONS
    ensures StoresAccounted(Bumped(h, w))
    ensures Bumped(h, w).generation == h.generation + 1
  {
    var k := Bumped(h, w);
    assert h.storing.Keys == k.storing.Keys + {w};
    assert |h.storing.Keys| == |k.storing.Keys| + 1;
    if k.slot.version != k.published {
      var u :| u in h.storing && h.storing[u] == h.slot.version;
      assert u in k.storing && k.storing[u] == k.slot.version;
    }
  }

  lemma BumpKeepsInv<T>(h: Hot<T>, w: nat)
    requires Inv(h) && w in h.storing && h.slot.version < GENERATIONS
    ensures Inv(Bumped(h, w))
  {
    BumpAccounted(h, w);
    hide StoresAccounted;
    var k := Bumped(h, w);
    forall r | r in k.readers
      ensures ReaderHonest(k, k.readers[r])
    {
      assert ReaderHonest(h, h.readers[r]);
    }
  }

  /** Honesty looks at the shared part only. */
  lemma SameShared<T>(h: Hot<T>, k: Hot<T>, r: Reader<T>)
    requires h.slot == k.slot && h.generation == k.generation && h.published == k.published
    ensures ReaderHonest(h, r) <==> ReaderHonest(k, r)
  {
  }

  lemma StartIsHonest<T>(h: Hot<T>, e: Event<T>)
    requires StoresAccounted(h) && Enabled(h, e) && (e.Open? || e.ReadGeneration?)
    requires e.ReadGeneration? ==> ReaderHonest(h, h.readers[e.reader])
    ensures ReaderHonest(h, ReaderStep(h, e))
  {
  }

  lemma LoadIsHonest<T>(h: Hot<T>, e: Event<T>)
    requires StoresAccounted(h) && Enabled(h, e) && (e.FirstLoad? || e.LoadSlot?)
    requires ReaderHonest(h, h.readers[e.reader])
    ensures ReaderHonest(h, ReaderStep(h, e))
  {
  }

  lemma RecordIsHonest<T>(h: Hot<T>, e: Event<T>)
    requires StoresAccounted(h) && Enabled(h, e) && e.Record?
    requires ReaderHonest(h, h.readers[e.reader])
    ensures ReaderHonest(h, ReaderStep(h, e))
  {
  }

  lemma ReadingKeepsInv<T>(h: Hot<T>, e: Event<T>)
    requires Inv(h) && Enabled(h, e) && !e.Replace? && !e.Bump?
    ensures Inv(Step(h, e))
  {
    hide ReaderHonest, StoresAccounted, ReaderStep;
    var k := Step(h, e);
    match e {
      case Open(_) => StartIsHonest(h, e);
      case ReadGeneration(_) => StartIsHonest(h, e);
      case Record(_) => RecordIsHonest(h, e);
      case _ => LoadIsHonest(h, e);
    }
    forall r | r in k.readers
      ensures ReaderHonest(k, k.readers[r])
    {
      SameShared(h, k, k.readers[r]);
    }
    SameStores(h, k);
  }

  lemma SameStores<T>(h: Hot<T>, k: Hot<T>)
    requires StoresAccounted(h) && k == h.(readers := k.readers)
    ensures StoresAccounted(k)
  {
  }

  lemma VersionsGrow<T>(h: Hot<T>, es: seq<Event<T>>)
    requires Possible(h, es)
    ensures h.slot.version <= Run(h, es).slot.version
    decreases |es|
  {
    if es != [] {
      VersionsGrow(Step(h, es[0]), es[1..]);
    }
  }

  /** Every interleaving of fewer than 2^64 stores with any number of readers keeps the invariant. */
  lemma {:induction false} RunKeepsInv<T>(h: Hot<T>, es: seq<Event<T>>)
    requires Inv(h) && Possible(h, es) && Run(h, es).slot.version < GENERATIONS
    ensures Inv(Run(h, es))
    decreases |es|
  {
    if es != [] {
      var e := es[0];
      VersionsGrow(Step(h, e), es[1..]);
      match e {
        case Replace(w, value) => ReplaceKeepsInv(h, w, value);
        case Bump(w) => BumpKeepsInv(h, w);
        case _ => ReadingKeepsInv(h, e);
      }
      RunKeepsInv(Step(h, e), es[1..]);
    }
  }

  // ------------------------------------------------------------ the theorems

  /**
   * Whatever the interleaving, a reader at rest holds a version no older than the generation it recorded;
   * each of its calls returned a version no older than any store finished before the call began; and
   * what it is given never goes backwards.
   */
  lemma ReadersNeverGoBack<T>(value: T, es: seq<Event<T>>, r: nat)
    requires Possible(NewHot(value), es)
    requires var h := Run(NewHot(value), es); h.slot.version < GENERATIONS && r in h.readers
    ensures var reader := Run(NewHot(value), es).readers[r];
            && (reader.phase.Resting? ==> reader.generation <= reader.held.version)
            && (forall i :: 0 <= i < |reader.answers| ==> reader.answers[i].began <= reader.answers[i].given.version)
            && (forall i, j :: 0 <= i < j < |reader.answers| ==>
                  reader.answers[i].given.version <= reader.answers[j].given.version)
  {
    InvInitially(value);
    RunKeepsInv(NewHot(value), es);
    var h := Run(NewHot(value), es);
    assert ReaderHonest(h, h.readers[r]);
  }

  predicate OnlyReading<T>(es: seq<Event<T>>) {
    forall i :: 0 <= i < |es| ==> !es[i].Replace? && !es[i].Bump?
  }

  function Answers<T>(h: Hot<T>, r: nat): seq<Answer<T>> {
    if r in h.readers then h.readers[r].answers else []
  }

  predicate BetweenCalls<T>(h: Hot<T>, r: nat) {
    r in h.readers ==> h.readers[r].phase.Resting?
  }

  /** No store is under way, and every call beyond the first `n` of this reader gives what is in the slot. */
  ghost predicate Quiet<T>(h: Hot<T>, r: nat, n: nat) {
    && Inv(h)
    && h.storing == map[]
    && (BetweenCalls(h, r) || h.readers[r].phase.began == h.slot.version)
    && GivenSince(Answers(h, r), n, h.slot)
  }

  predicate GivenSince<T(==)>(answers: seq<Answer<T>>, n: nat, given: Arc<T>) {
    n <= |answers| && forall i :: n <= i < |answers| ==> answers[i].given == given
  }

  /** With nothing being stored, whatever a step of a settled reader answers is what is in the slot. */
  lemma QuietStep<T>(h: Hot<T>, e: Event<T>)
    requires StoresAccounted(h) && h.storing == map[] && Enabled(h, e) && !e.Replace? && !e.Bump? && !e.Open?
    requires ReaderHonest(h, h.readers[e.reader])
    requires var p := h.readers[e.reader].phase; p.Resting? || p.began == h.slot.version
    ensures var x, y := h.readers[e.reader], ReaderStep(h, e);
            && (forall n: nat :: GivenSince(x.answers, n, h.slot) ==> GivenSince(y.answers, n, h.slot))
            && (y.phase.Resting? || y.phase.began == h.slot.version)
  {
    assert h.published == h.slot.version;
    hide AnswersHonest;
  }

  lemma ReadingStaysQuiet<T>(h: Hot<T>, e: Event<T>, r: nat, n: nat)
    requires Quiet(h, r, n) && Enabled(h, e) && !e.Replace? && !e.Bump?
    ensures Quiet(Step(h, e), r, n)
  {
    ReadingKeepsInv(h, e);
    if e.reader == r && !e.Open? {
      QuietStep(h, e);
    } else if e.reader == r {
      assert h.published == h.slot.version;
    }
    hide Inv, ReaderHonest, StoresAccounted, GivenSince;
    if !e.Open? {
      hide ReaderStep;
    }
  }

  lemma {:induction false} ReadingRunStaysQuiet<T>(h: Hot<T>, es: seq<Event<T>>, r: nat, n: nat)
    requires Quiet(h, r, n) && Possible(h, es) && OnlyReading(es)
    ensures Quiet(Run(h, es), r, n) && Run(h, es).slot == h.slot
    decreases |es|
  {
    if es != [] {
      ReadingStaysQuiet(h, es[0], r, n);
      ReadingRunStaysQuiet(Step(h, es[0]), es[1..], r, n);
    }
  }

  /** Once no store is in progress, every call that begins returns the latest value, however the readers interleave. */
  lemma QuietReadersSeeTheLatest<T>(value: T, before: seq<Event<T>>, after: seq<Event<T>>, r: nat)
    requires Possible(NewHot(value), before)
    requires var h := Run(NewHot(value), before);
             h.slot.version < GENERATIONS && h.storing == map[] && BetweenCalls(h, r) && Possible(h, after)
    requires OnlyReading(after)
    ensures var h := Run(NewHot(value), before);
            var answers := Answers(Run(h, after), r);
            |Answers(h, r)| <= |answers| && forall i :: |Answers(h, r)| <= i < |answers| ==> answers[i].given == h.slot
  {
    InvInitially(value);
    RunKeepsInv(NewHot(value), before);
    var h := Run(NewHot(value), before);
    ReadingRunStaysQuiet(h, after, r, |Answers(h, r)|);
  }

  // ------------------------------------------------------ uninterrupted calls

  /** Steps that are not this reader's own. */
  predicate Elsewhere<T>(es: seq<Event<T>>, r: nat) {
    forall i :: 0 <= i < |es| ==> es[i].Replace? || es[i].Bump? || es[i].reader != r
  }

  function Replaces<T>(es: seq<Event<T>>): nat {
    if es == [] then 0 else (if es[0].Replace? then 1 else 0) + Replaces(es[1..])
  }

  function Bumps<T>(es: seq<Event<T>>): nat {
    if es == [] then 0 else (if es[0].Bump? then 1 else 0) + Bumps(es[1..])
  }

  lemma TwoThenMore<T>(h: Hot<T>, a: Event<T>, b: Event<T>, more: seq<Event<T>>)
    requires Enabled(h, a) && Enabled(Step(h, a), b) && Possible(Step(Step(h, a), b), more)
    ensures Possible(h, [a, b] + more)
    ensures Run(h, [a, b] + more) == Run(Step(Step(h, a), b), more)
    ensures Replaces([a, b] + more) == (if a.Replace? then 1 else 0) + (if b.Replace? then 1 else 0) + Replaces(more)
    ensures Bumps([a, b] + more) == (if a.Bump? then 1 else 0) + (if b.Bump? then 1 else 0) + Bumps(more)
  {
    hide Step, Enabled;
    var es := [a, b] + more;
    assert es[1..] == [b] + more && ([b] + more)[1..] == more;
  }

  /** A store that nothing interrupts is its two steps in a row. */
  lemma UninterruptedStore<T>(h: Hot<T>, w: nat, value: T)
    requires w !in h.storing
    ensures var es := [Replace(w, value), Bump(w)];
            && Possible(h, es)
            && Run(h, es) == h.(slot := Arc(h.slot.version + 1, value), generation := (h.generation + 1) % GENERATIONS,
                                published := Max(h.published, h.slot.version + 1))
  {
    var k := Step(h, Replace(w, value));
    var m := Step(k, Bump(w));
    TwoThenMore(h, Replace(w, value), Bump(w), []);
    assert [Replace(w, value), Bump(w)] + [] == [Replace(w, value), Bump(w)];
    assert m.storing == h.storing && k.storing[w] == h.slot.version + 1;
  }

  /** A call of `get` that nothing interrupts: one comparison, and the load and the record only when it fails. */
  lemma UninterruptedGet<T>(h: Hot<T>, r: nat)
    requires r in h.readers && h.readers[r].phase == Resting
    ensures var reader := h.readers[r];
            var stale := h.generation != reader.generation;
            var es := if stale then [ReadGeneration(r), LoadSlot(r), Record(r)] else [ReadGeneration(r)];
            var given := if stale then h.slot else reader.held;
            && Possible(h, es)
            && Run(h, es) == h.(readers := h.readers[r := Reader(given, h.generation, Resting,
                                                                 reader.answers + [Answer(h.published, given)])])
  {
    var k := Step(h, ReadGeneration(r));
    if h.generation == h.readers[r].generation {
      assert Possible(k, []);
    } else {
      var l := Step(k, LoadSlot(r));
      var m := Step(l, Record(r));
      assert Possible(m, []) && Possible(l, [Record(r)]) && Run(l, [Record(r)]) == m;
      var a: Event<T>, b: Event<T>, c: Event<T> := ReadGeneration(r), LoadSlot(r), Record(r);
      TwoThenMore(h, a, b, [c]);
      assert [a, b] + [c] == [a, b, c];
    }
  }

  lemma StepElsewhere<T>(h: Hot<T>, e: Event<T>, r: nat)
    requires Enabled(h, e) && r in h.readers && h.generation < GENERATIONS
    requires e.Replace? || e.Bump? || e.reader != r
    ensures var k := Step(h, e);
            && r in k.readers && k.readers[r] == h.readers[r]
            && k.slot.version == h.slot.version + (if e.Replace? then 1 else 0)
            && k.generation == (if e.Bump? then (h.generation + 1) % GENERATIONS else h.generation)
  {
    hide ReaderStep;
  }

  lemma {:induction false} ElsewhereCounts<T>(h: Hot<T>, es: seq<Event<T>>, r: nat)
    requires Possible(h, es) && r in h.readers && h.generation < GENERATIONS && Elsewhere(es, r)
    ensures var k := Run(h, es);
            && r in k.readers && k.readers[r] == h.readers[r]
            && k.slot.version == h.slot.version + Replaces(es)
            && k.generation == (h.generation + Bumps(es)) % GENERATIONS
    decreases |es|
  {
    if es != [] {
      StepElsewhere(h, es[0], r);
      hide Step, Enabled;
      ElsewhereCounts(Step(h, es[0]), es[1..], r);
      OneMoreRound(h.generation, Bumps(es[1..]));
    }
  }

  /**
   * Whatever the others do meanwhile, a reader records the generation it read before it loaded, not the one it loaded
   * under, and gives what stood in the slot when it loaded: when it is created, and in every later call that loads.
   */
  lemma OpeningRecordsItsRead<T>(h: Hot<T>, r: nat, es: seq<Event<T>>)
    requires Enabled(h, Open(r)) && h.generation < GENERATIONS
    requires Possible(Step(h, Open(r)), es) && Elsewhere(es, r)
    ensures var k := Run(Step(h, Open(r)), es);
            && Enabled(k, FirstLoad(r))
            && Step(k, FirstLoad(r)).readers[r] ==
               Reader(k.slot, h.generation, Resting, [Answer(h.published, k.slot)])
  {
    ElsewhereCounts(Step(h, Open(r)), es, r);
    hide Run, Possible;
    var answer := Answer(h.published, Run(Step(h, Open(r)), es).slot);
    assert [] + [answer] == [answer];
  }

  lemma GetRecordsItsRead<T>(h: Hot<T>, r: nat, es: seq<Event<T>>, fs: seq<Event<T>>)
    requires Enabled(h, ReadGeneration(r)) && h.generation < GENERATIONS && h.readers[r].generation != h.generation
    requires Possible(Step(h, ReadGeneration(r)), es) && Elsewhere(es, r)
    requires var k := Run(Step(h, ReadGeneration(r)), es);
             Enabled(k, LoadSlot(r)) ==> Possible(Step(k, LoadSlot(r)), fs) && Elsewhere(fs, r)
    ensures var k := Run(Step(h, ReadGeneration(r)), es);
            && Enabled(k, LoadSlot(r))
            && var m := Run(Step(k, LoadSlot(r)), fs);
            && Enabled(m, Record(r))
            && Step(m, Record(r)).readers[r] ==
               Reader(k.slot, h.generation, Resting, h.readers[r].answers + [Answer(h.published, k.slot)])
  {
    var first := Step(h, ReadGeneration(r));
    ElsewhereCounts(first, es, r);
    hide Run, Possible;
    var k := Run(first, es);
    assert k.generation < GENERATIONS;
    ElsewhereCounts(Step(k, LoadSlot(r)), fs, r);
  }

  lemma OneMoreRound(g: nat, n: nat)
    requires g < GENERATIONS
    ensures ((g + 1) % GENERATIONS + n) % GENERATIONS == (g + (1 + n)) % GENERATIONS
  {
  }

  /** The comparison answers at once if and only if the generation is the recorded one. */
  lemma ComparisonAnswers<T>(k: Hot<T>, r: nat)
    requires r in k.readers && k.readers[r].phase == Resting
    ensures Enabled(k, ReadGeneration(r))
    ensures Answers(Step(k, ReadGeneration(r)), r) == Answers(k, r) + [Answer(k.published, k.readers[r].held)] <==>
            k.generation == k.readers[r].generation
  {
    var a := Answers(k, r);
    assert |a + [Answer(k.published, k.readers[r].held)]| != |a|;
  }

  /**
   * A reader that is up to date, and any steps of any writers and other readers between two of its calls: the
   * comparison answers from the held value if and only if the number of stores published meanwhile is a multiple of
   * 2^64, which brings the generation round.
   */
  lemma StoresUnseenIff<T>(h: Hot<T>, es: seq<Event<T>>, r: nat)
    requires Possible(h, es) && h.generation < GENERATIONS && Elsewhere(es, r)
    requires r in h.readers && h.readers[r].phase == Resting && h.readers[r].generation == h.generation
    ensures var k := Run(h, es);
            && Enabled(k, ReadGeneration(r))
            && (Answers(Step(k, ReadGeneration(r)), r) == Answers(h, r) + [Answer(k.published, h.readers[r].held)] <==>
                Bumps(es) % 0x1_0000_0000_0000_0000 == 0)
            && k.slot.version == h.slot.version + Replaces(es)
  {
    hide Run, Possible, Elsewhere, Bumps, Replaces;
    ElsewhereCounts(h, es, r);
    RoundTheCounter(h.generation, Bumps(es));
    ComparisonAnswers(Run(h, es), r);
    hide Step;
  }

  lemma RoundTheCounter(g: nat, n: nat)
    requires g < GENERATIONS
    ensures (g + n) % GENERATIONS == g <==> n % GENERATIONS == 0
  {
    var q, r := n / GENERATIONS, n % GENERATIONS;
    assert n == q * GENERATIONS + r;
    if g + r < GENERATIONS {
      QuotientIsUnique(g + n, GENERATIONS, q, g + r);
    } else {
      QuotientIsUnique(g + n, GENERATIONS, q + 1, g + r - GENERATIONS);
    }
  }

  /** One writer's stores, one after another. */
  function StoresInARow<T>(w: nat, value: T, n: nat): seq<Event<T>> {
    if n == 0 then [] else [Replace(w, value), Bump(w)] + StoresInARow(w, value, n - 1)
  }

  lemma {:induction false} StoresAreARun<T>(h: Hot<T>, w: nat, value: T, n: nat, r: nat)
    requires w !in h.storing
    ensures var es := StoresInARow(w, value, n);
            Possible(h, es) && Replaces(es) == n && Bumps(es) == n && Elsewhere(es, r)
    decreases n
  {
    if n > 0 {
      var k := Step(Step(h, Replace(w, value)), Bump(w));
      StoresAreARun(k, w, value, n - 1, r);
      TwoThenMore(h, Replace(w, value), Bump(w), StoresInARow(w, value, n - 1));
    }
  }

  /** So the bound on stores is needed: exactly 2^64 of them go unseen, and the call returns the old value. */
  lemma WrappedGenerationHidesStores<T>(h: Hot<T>, w: nat, value: T, r: nat)
    requires w !in h.storing && h.generation < GENERATIONS
    requires r in h.readers && h.readers[r].phase == Resting && h.readers[r].generation == h.generation
    requires h.readers[r].held == h.slot
    ensures var es := StoresInARow(w, value, GENERATIONS);
            && Possible(h, es)
            && var k := Run(h, es);
               && k.slot.version > h.slot.version
               && Enabled(k, ReadGeneration(r))
               && Answers(Step(k, ReadGeneration(r)), r) == Answers(h, r) + [Answer(k.published, h.slot)]
  {
    hide StoresInARow, Bumps, Replaces, Possible, Run, Elsewhere, Step;
    StoresAreARun(h, w, value, GENERATIONS, r);
    StoresUnseenIff(h, StoresInARow(w, value, GENERATIONS), r);
  }

  // ------------------------------------------------- calls that nothing interrupts

  /** The steps of `Cached::new`. */
  lemma UninterruptedOpen<T>(h: Hot<T>, r: nat)
    requires r !in h.readers
    ensures var es := [Open(r), FirstLoad(r)];
            && Possible(h, es)
            && Run(h, es) ==
               h.(readers := h.readers[r := Reader(h.slot, h.generation, Resting, [Answer(h.published, h.slot)])])
  {
    var a: Event<T>, b: Event<T> := Open(r), FirstLoad(r);
    var m := Step(Step(h, a), b);
    TwoThenMore(h, a, b, []);
    assert [a, b] + [] == [a, b];
    assert m.readers[r].answers == [Answer(h.published, h.slot)];
    assert m.readers == h.readers[r := m.readers[r]];
  }

  /** The steps of `get`: one comparison, and the load and the record only when it fails. */
  function GetSteps<T>(h: Hot<T>, r: nat): seq<Event<T>>
    requires r in h.readers
  {
    if h.generation != h.readers[r].generation then [ReadGeneration(r), LoadSlot(r), Record(r)] else [ReadGeneration(r)]
  }

  /** A reader between calls while nothing is being stored is answered with what is in the slot. */
  lemma RestingReaderIsAnswered<T>(h: Hot<T>, r: nat)
    requires Inv(h) && h.storing == map[] && r in h.readers && h.readers[r].phase == Resting
    ensures h.generation == h.readers[r].generation ==> h.readers[r].held == h.slot
  {
    assert ReaderHonest(h, h.readers[r]);
  }

  lemma StoreKeepsInv<T>(h: Hot<T>, w: nat, value: T)
    requires Inv(h) && w !in h.storing && h.slot.version + 1 < GENERATIONS
    ensures Possible(h, [Replace(w, value), Bump(w)]) && Inv(Run(h, [Replace(w, value), Bump(w)]))
  {
    UninterruptedStore(h, w, value);
    RunKeepsInv(h, [Replace(w, value), Bump(w)]);
  }

  /**
   * The shared cell, with the state of the interleaving model it is the shared part of. Here a call runs to its end
   * before the next one starts.
   */
  class HotCell<T> {
    var slot: Arc<T>
    var generation: nat
    ghost var run: Hot<T>

    /**
     * The fields are the shared part of `run`, in which no store is under way; below 2^64 stores its invariant holds.
     */
    ghost predicate Valid()
      reads this
    {
      && slot == run.slot && generation == run.generation && run.storing == map[]
      && (slot.version < GENERATIONS ==> Inv(run))
    }

    constructor (value: T)
      ensures Valid() && run == NewHot(value)
    {
      slot, generation, run := Arc(1, value), 1, NewHot(value);
    }

    /** One store: in the model its two steps, and the slot then holds a new allocation of the value. */
    method Store(value: T)
      requires Valid()
      modifies this
      ensures Valid()
      ensures var es := [Replace(0, value), Bump(0)]; Possible(old(run), es) && run == Run(old(run), es)
      ensures slot == Arc(old(slot).version + 1, value)
    {
      UninterruptedStore(run, 0, value);
      if slot.version + 1 < GENERATIONS {
        StoreKeepsInv(run, 0, value);
      }
      run := Run(run, [Replace(0, value), Bump(0)]);
      slot := Arc(slot.version + 1, value);
      generation := (generation + 1) % GENERATIONS;
    }

    method Load() returns (given: Arc<T>)
      ensures given == slot
    {
      given := slot;
    }
  }

  class Cached<T> {
    ghost const id: nat
    var generation: nat
    var held: Arc<T>

    /** This object is the reader `id` of the cell's run, between calls. */
    ghost predicate Reads(hot: HotCell<T>)
      reads this, hot
    {
      && id in hot.run.readers
      && hot.run.readers[id] == Reader(held, generation, Resting, Answers(hot.run, id))
    }

    constructor (hot: HotCell<T>, ghost reader: nat)
      requires hot.Valid() && reader !in hot.run.readers
      modifies hot`run
      ensures hot.Valid() && Reads(hot) && id == reader
      ensures var es := [Open(reader), FirstLoad(reader)];
        Possible(old(hot.run), es) && hot.run == Run(old(hot.run), es)
    {
      id, generation, held := reader, hot.generation, hot.slot;
      new;
      UninterruptedOpen(hot.run, reader);
      if hot.slot.version < GENERATIONS {
        RunKeepsInv(hot.run, [Open(reader), FirstLoad(reader)]);
      }
      hot.run := Run(hot.run, [Open(reader), FirstLoad(reader)]);
    }

    /**
     * One call: in the model exactly its steps, answered with what it returns; and with fewer than 2^64 stores so far
     * that is what was stored last.
     */
    method Get(hot: HotCell<T>) returns (given: Arc<T>)
      requires hot.Valid() && Reads(hot)
      modifies this, hot`run
      ensures hot.Valid() && Reads(hot)
      ensures var es := GetSteps(old(hot.run), id); Possible(old(hot.run), es) && hot.run == Run(old(hot.run), es)
      ensures Answers(hot.run, id) == old(Answers(hot.run, id)) + [Answer(hot.run.published, given)]
      ensures hot.slot.version < GENERATIONS ==> given == hot.slot
    {
      UninterruptedGet(hot.run, id);
      if hot.slot.version < GENERATIONS {
        RestingReaderIsAnswered(hot.run, id);
        RunKeepsInv(hot.run, GetSteps(hot.run, id));
      }
      hot.run := Run(hot.run, GetSteps(hot.run, id));
      var g := hot.generation;
      if g != generation {
        held := hot.Load();
        generation := g;
      }
      given := held;
    }
  }
}
