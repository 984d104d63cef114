/** The reputation set of addresses and CIDR blocks (src/intel.rs, `IpSet`). */
module IpSets {
  import opened Base
  import opened Observations

  /** An inclusive range of addresses of one family, read as numbers. */
  datatype Range = Range(start: nat, end: nat, tag: string)

  predicate Covers(r: Range, key: nat) {
    r.start <= key <= r.end
  }

  predicate Ordered(v: seq<Range>) {
    forall i, j :: 0 <= i < j < |v| ==> v[i].start <= v[j].start
  }

  // ---------------------------------------------------------------- blocks

  function Pow2(n: nat): (p: nat)
    ensures p > 0
  {
    if n == 0 then 1 else 2 * Pow2(n - 1)
  }

  /** Address bytes read big-endian. */
  function Number(octets: seq<byte>): nat {
    if octets == [] then 0 else Number(octets[..|octets| - 1]) * 0x100 + octets[|octets| - 1]
  }

  /** Bits in an address of this family. */
  function Width(a: IpAddr): nat {
    if a.V4? then 32 else 128
  }

  /** `base & mask` to `(base & mask) | !mask`, the mask having its low `host` bits clear. */
  function Block(base: nat, host: nat, tag: string): Range {
    var p := Pow2(host);
    QuotientNotNegative(base, p);
    MultiplesKept(base / p, 0, p);
    Range((base / p) * p, (base / p) * p + p - 1, tag)
  }

  /** A block covers exactly the addresses that agree with its base above the host bits. */
  lemma BlockIsPrefix(base: nat, host: nat, tag: string, key: nat)
    ensures Covers(Block(base, host, tag), key) <==> key / Pow2(host) == base / Pow2(host)
  {
    var p := Pow2(host);
    var q, k := base / p, key / p;
    assert key == k * p + key % p;
    if k < q {
      MultiplesApart(q, k, p);
    } else if k > q {
      MultiplesApart(k, q, p);
    }
  }

  // ------------------------------------------------------- sorting, merging

  /** Placing a range after every range that starts no later, as a stable sort by start leaves it. */
  function Inserted(v: seq<Range>, r: Range): (w: seq<Range>)
    ensures |w| == |v| + 1
  {
    if v == [] || v[|v| - 1].start <= r.start then v + [r]
    else Inserted(v[..|v| - 1], r) + [v[|v| - 1]]
  }

  /** The ranges in order of start, equal starts in order of arrival. */
  function Sorted(v: seq<Range>): seq<Range> {
    if v == [] then [] else Inserted(Sorted(v[..|v| - 1]), v[|v| - 1])
  }

  /** One step of the merge: only overlapping neighbours with the same tag become one. */
  function Join(out: seq<Range>, r: Range): seq<Range> {
    if out != [] && r.start <= out[|out| - 1].end && out[|out| - 1].tag == r.tag then
      out[..|out| - 1] + [out[|out| - 1].(end := Max(out[|out| - 1].end, r.end))]
    else out + [r]
  }

  function Merged(v: seq<Range>): seq<Range> {
    if v == [] then [] else Join(Merged(v[..|v| - 1]), v[|v| - 1])
  }

  /** The covering range nearest the end: what the backward scan stops at. */
  function LastCovering(v: seq<Range>, key: nat): Option<Range> {
    if v == [] then None
    else if Covers(v[|v| - 1], key) then Some(v[|v| - 1])
    else LastCovering(v[..|v| - 1], key)
  }

  /** A linear scan of the feed: of the covering ranges, the one that starts last, and of those the one fed last. */
  function Scan(feed: seq<Range>, key: nat): Option<Range> {
    if feed == [] then None
    else
      var best := Scan(feed[..|feed| - 1], key);
      var r := feed[|feed| - 1];
      if Covers(r, key) && (best.None? || best.value.start <= r.start) then Some(r) else best
  }

  function TagOf(found: Option<Range>): Option<string> {
    if found.Some? then Some(found.value.tag) else None
  }

  lemma {:induction false} InsertedKeepsAll(v: seq<Range>, r: Range)
    ensures multiset(Inserted(v, r)) == multiset(v) + multiset{r}
  {
    if v != [] && v[|v| - 1].start > r.start {
      InsertedKeepsAll(v[..|v| - 1], r);
      assert v == v[..|v| - 1] + [v[|v| - 1]];
    }
  }

  lemma {:induction false} InsertedKeepsOrder(v: seq<Range>, r: Range)
    requires Ordered(v)
    ensures Ordered(Inserted(v, r))
    ensures Inserted(v, r)[|v|].start == if v == [] then r.start else Max(v[|v| - 1].start, r.start)
  {
    if v != [] && v[|v| - 1].start > r.start {
      InsertedKeepsOrder(v[..|v| - 1], r);
    }
  }

  /** Sorting yields the same ranges in order. */
  lemma {:induction false} SortedIsOrdered(v: seq<Range>)
    ensures Ordered(Sorted(v)) && multiset(Sorted(v)) == multiset(v)
  {
    if v != [] {
      hide Ordered, Inserted;
      var front, last := v[..|v| - 1], v[|v| - 1];
      SortedIsOrdered(front);
      assert v == front + [last];
      hide Sorted;
      InsertedKeepsOrder(Sorted(front), last);
      InsertedKeepsAll(Sorted(front), last);
    }
  }

  /**
   * Inserting a range changes what the backward scan finds only if it covers the address and starts last of those
   * that do.
   */
  lemma {:induction false} InsertedLastCovering(v: seq<Range>, r: Range, key: nat)
    requires Ordered(v)
    ensures var best := LastCovering(v, key);
            LastCovering(Inserted(v, r), key) ==
            if Covers(r, key) && (best.None? || best.value.start <= r.start) then Some(r) else best
  {
    if v == [] || v[|v| - 1].start <= r.start {
      LastCoveringIsIn(v, key);
      assert (v + [r])[..|v|] == v;
    } else {
      var front, last := v[..|v| - 1], v[|v| - 1];
      InsertedLastCovering(front, r, key);
      var w := Inserted(front, r) + [last];
      assert w[..|w| - 1] == Inserted(front, r);
    }
  }

  lemma {:induction false} LastCoveringIsIn(v: seq<Range>, key: nat)
    ensures var best := LastCovering(v, key);
            if best.Some? then best.value in v && Covers(best.value, key)
            else forall r :: r in v ==> !Covers(r, key)
  {
    if v != [] {
      LastCoveringIsIn(v[..|v| - 1], key);
      assert v == v[..|v| - 1] + [v[|v| - 1]];
    }
  }

  lemma {:induction false} SortedLastCovering(feed: seq<Range>, key: nat)
    ensures LastCovering(Sorted(feed), key) == Scan(feed, key)
  {
    if feed != [] {
      var front := feed[..|feed| - 1];
      SortedLastCovering(front, key);
      SortedIsOrdered(front);
      InsertedLastCovering(Sorted(front), feed[|feed| - 1], key);
    }
  }

  lemma JoinLastCovering(out: seq<Range>, r: Range, key: nat)
    requires Ordered(out) && (out != [] ==> out[|out| - 1].start <= r.start)
    ensures var m := Join(out, r);
            && Ordered(m) && m != [] && m[|m| - 1].start <= r.start
            && TagOf(LastCovering(m, key)) == if Covers(r, key) then Some(r.tag) else TagOf(LastCovering(out, key))
  {
    var m := Join(out, r);
    if |m| == |out| {
      assert m[..|m| - 1] == out[..|out| - 1];
    } else {
      assert m[..|m| - 1] == out;
    }
  }

  /** Merging keeps the order, and keeps the tag that the backward scan reports for every address. */
  lemma {:induction false} MergedLastCovering(v: seq<Range>, key: nat)
    requires Ordered(v)
    ensures var m := Merged(v);
            && Ordered(m)
            && (v != [] ==> m != [] && m[|m| - 1].start <= v[|v| - 1].start)
            && TagOf(LastCovering(m, key)) == TagOf(LastCovering(v, key))
  {
    if v != [] {
      var front, r := v[..|v| - 1], v[|v| - 1];
      hide Join, Covers;
      MergedLastCovering(front, key);
      JoinLastCovering(Merged(front), r, key);
    }
  }

  /**
   * Masking, sorting, tag-aware merging, the binary search and the backward scan together
   * report exactly what one pass over the feed would.
   */
  lemma LookupIsScan(feed: seq<Range>, key: nat)
    ensures TagOf(LastCovering(Merged(Sorted(feed)), key)) == TagOf(Scan(feed, key))
  {
    SortedIsOrdered(feed);
    MergedLastCovering(Sorted(feed), key);
    SortedLastCovering(feed, key);
  }

  /**
   * The pass over the feed finds a range exactly when some range covers the address, and never one that starts
   * earlier than another that does.
   */
  lemma {:induction false} ScanFindsLatestStart(feed: seq<Range>, key: nat)
    ensures var best := Scan(feed, key);
            if best.None? then forall r :: r in feed ==> !Covers(r, key)
            else && best.value in feed && Covers(best.value, key)
                 && forall r :: r in feed && Covers(r, key) ==> r.start <= best.value.start
  {
    if feed != [] {
      var front := feed[..|feed| - 1];
      ScanFindsLatestStart(front, key);
      assert feed == front + [feed[|feed| - 1]];
    }
  }

  // ------------------------------------------------------------ nested blocks

  lemma {:induction false} Pow2Divides(m: nat, n: nat)
    requires m <= n
    ensures Pow2(n) == Pow2(m) * Pow2(n - m)
  {
    if m < n {
      Pow2Divides(m, n - 1);
    }
  }

  lemma MaskedAddress(base: nat, host: nat, tag: string, key: nat)
    requires Covers(Block(base, host, tag), key)
    ensures Block(base, host, tag).start == (key / Pow2(host)) * Pow2(host)
  {
    BlockIsPrefix(base, host, tag, key);
  }

  lemma Regroup(q: int, p: nat, m: nat)
    ensures q * (p * m) == (q * m) * p
  {
  }

  /** Dividing by the larger number and multiplying back never overshoots, and the next multiple never falls short. */
  lemma QuotientNests(key: nat, p: nat, m: nat)
    requires p > 0 && m > 0 && p * m > 0
    ensures (key / (p * m)) * m <= key / p < (key / (p * m) + 1) * m
  {
    var q, k := key / (p * m), key / p;
    assert q * (p * m) <= key < q * (p * m) + p * m && k * p <= key < k * p + p;
    Regroup(q, p, m);
    Regroup(q + 1, p, m);
    assert (q + 1) * (p * m) == q * (p * m) + p * m;
    if k < q * m {
      MultiplesApart(q * m, k, p);
    } else if k >= (q + 1) * m {
      MultiplesKept(k, (q + 1) * m, p);
    }
  }

  lemma FloorsNest(key: nat, p: nat, m: nat)
    requires p > 0 && m > 0
    ensures var big := (key / (p * m)) * (p * m);
            var small := (key / p) * p;
            big <= small && small + p <= big + p * m
  {
    MultiplesKept(p, 1, m);
    QuotientNests(key, p, m);
    var q, k := key / (p * m), key / p;
    Regroup(q, p, m);
    Regroup(q + 1, p, m);
    MultiplesKept(k, q * m, p);
    MultiplesKept((q + 1) * m, k + 1, p);
    assert (k + 1) * p == k * p + p && (q + 1) * (p * m) == q * (p * m) + p * m;
  }

  /** Two CIDR blocks that share an address are nested, so the one that starts later is the more specific. */
  lemma LaterStartIsNarrower(a: nat, i: nat, s: string, b: nat, j: nat, t: string, key: nat)
    requires Covers(Block(a, i, s), key) && Covers(Block(b, j, t), key)
    requires Block(a, i, s).start < Block(b, j, t).start
    ensures j < i && Block(b, j, t).end <= Block(a, i, s).end
  {
    MaskedAddress(a, i, s, key);
    MaskedAddress(b, j, t, key);
    if i <= j {
      Pow2Divides(i, j);
      FloorsNest(key, Pow2(i), Pow2(j - i));
    } else {
      Pow2Divides(j, i);
      FloorsNest(key, Pow2(j), Pow2(i - j));
    }
  }

  // --------------------------------------------------- is one candidate enough?

  /** The last range starting at or below the address: where the binary search lands, counted from one. */
  function Landing(v: seq<Range>, key: nat): (n: nat)
    ensures n <= |v|
    ensures n > 0 ==> v[n - 1].start <= key
    ensures forall k :: n <= k < |v| ==> v[k].start > key
  {
    if v == [] || v[|v| - 1].start <= key then |v| else Landing(v[..|v| - 1], key)
  }

  /** The answer of that range alone. */
  function Candidate(v: seq<Range>, key: nat): Option<Range> {
    var n := Landing(v, key);
    if n > 0 && Covers(v[n - 1], key) then Some(v[n - 1]) else None
  }

  /**
   * Right behind range `m` lies an address that no later range starts at or below, but that an earlier range reaches.
   */
  predicate Exposed(v: seq<Range>, i: nat, m: nat)
    requires i < m < |v|
  {
    v[m].end < v[i].end && (m + 1 < |v| ==> v[m + 1].start > v[m].end + 1)
  }

  ghost predicate NothingExposed(v: seq<Range>) {
    forall i, m :: 0 <= i < m < |v| ==> !Exposed(v, i, m)
  }

  lemma {:induction false} LastCoveringIs(v: seq<Range>, key: nat, n: nat)
    requires n < |v| && Covers(v[n], key) && forall k :: n < k < |v| ==> !Covers(v[k], key)
    ensures LastCovering(v, key) == Some(v[n])
  {
    if n < |v| - 1 {
      LastCoveringIs(v[..|v| - 1], key, n);
    }
  }

  lemma NotExposed(v: seq<Range>, i: nat, m: nat)
    requires NothingExposed(v) && i < m < |v|
    ensures !Exposed(v, i, m)
  {
  }

  lemma CandidateSuffices(v: seq<Range>, key: nat)
    requires Ordered(v) && NothingExposed(v)
    ensures Candidate(v, key) == LastCovering(v, key)
  {
    LastCoveringIsIn(v, key);
    var n := Landing(v, key);
    if n > 0 && Covers(v[n - 1], key) {
      LastCoveringIs(v, key, n - 1);
    } else if r :| r in v && Covers(r, key) {
      var i :| 0 <= i < |v| && v[i] == r;
      assert i < n - 1;
      NotExposed(v, i, n - 1);
    }
  }

  lemma ExposedIsMissed(v: seq<Range>, i: nat, m: nat)
    requires Ordered(v) && i < m < |v| && v[m].start <= v[m].end && Exposed(v, i, m)
    ensures var key := v[m].end + 1; Candidate(v, key) == None && LastCovering(v, key).Some?
  {
    var key := v[m].end + 1;
    assert Landing(v, key) == m + 1 by {
      if m + 1 < |v| {
        assert forall k :: m + 1 <= k < |v| ==> v[m + 1].start <= v[k].start;
      }
    }
    LastCoveringIsIn(v, key);
    assert v[i] in v && Covers(v[i], key);
  }

  /**
   * The comment on `lookup` calls the last range that starts at or below the address the only candidate. On ranges in
   * order it answers for every address as the backward scan does if and only if no range is exposed: wherever one ends
   * before an earlier one does, the next must start by the address after its end.
   */
  lemma OneCandidateSufficesIff(v: seq<Range>)
    requires Ordered(v) && forall k :: 0 <= k < |v| ==> v[k].start <= v[k].end
    ensures (forall key: nat :: TagOf(Candidate(v, key)) == TagOf(LastCovering(v, key))) <==> NothingExposed(v)
  {
    if NothingExposed(v) {
      forall key: nat
        ensures Candidate(v, key) == LastCovering(v, key)
      {
        CandidateSuffices(v, key);
      }
    } else {
      var i, m :| 0 <= i < m < |v| && Exposed(v, i, m);
      ExposedIsMissed(v, i, m);
    }
  }

  lemma MergedStep(v: seq<Range>, i: nat)
    requires i <= |v|
    ensures Merged(v[..0]) == []
    ensures i < |v| ==> Merged(v[..i + 1]) == Join(Merged(v[..i]), v[i])
  {
    assert i < |v| ==> v[..i + 1][..i] == v[..i];
  }

  lemma TwoRanges(a: Range, b: Range)
    requires a.start <= b.start && a.tag != b.tag
    ensures Merged(Sorted([a, b])) == [a, b]
  {
    assert [a, b][..1] == [a] && [a][..0] == [];
    assert Sorted([a]) == Inserted([], a) && Sorted([a, b]) == Inserted([a], b);
    MergedStep([a, b], 0);
    MergedStep([a, b], 1);
    assert [a, b][..0] == [] && [a, b][..2] == [a, b];
  }

  /** It fails on a feed of two blocks with different tags, one inside the other. */
  lemma LastStartIsNotTheOnlyCandidate()
    ensures var v := Merged(Sorted([Range(0, 255, "outer"), Range(5, 5, "inner")]));
            TagOf(Candidate(v, 6)) == None && TagOf(LastCovering(v, 6)) == Some("outer")
  {
    hide Merged, Sorted, Candidate, LastCovering;
    var a, b := Range(0, 255, "outer"), Range(5, 5, "inner");
    assert a.tag[0] != b.tag[0];
    TwoRanges(a, b);
    assert Exposed([a, b], 0, 1);
    ExposedIsMissed([a, b], 0, 1);
    LastCoveringIs([a, b], 6, 0);
  }

  // ---------------------------------------------------------------- the set

  /** One line of a feed, its text already taken apart: an address, an optional prefix length, and why it is listed. */
  datatype Entry = Entry(addr: IpAddr, prefix: Option<nat>, tag: string)

  predicate Acceptable(e: Entry) {
    e.prefix.None? || e.prefix.value <= Width(e.addr)
  }

  function RangeOf(e: Entry): Range
    requires Acceptable(e)
  {
    var bits := if e.prefix.Some? then e.prefix.value else Width(e.addr);
    Block(Number(e.addr.octets), Width(e.addr) - bits, e.tag)
  }

  /** The ranges a feed gives for one family, in order. */
  function RangesOf(feed: seq<Entry>, v4: bool): seq<Range>
    requires forall i :: 0 <= i < |feed| ==> Acceptable(feed[i])
  {
    if feed == [] then []
    else
      var last := feed[|feed| - 1];
      RangesOf(feed[..|feed| - 1], v4) + (if last.addr.V4? == v4 then [RangeOf(last)] else [])
  }

  class IpSet {
    var v4: seq<Range>
    var v6: seq<Range>

    constructor ()
      ensures v4 == [] && v6 == []
    {
      v4, v6 := [], [];
    }

    /** Refuses a prefix longer than the address and changes nothing then. */
    method Push(e: Entry) returns (ok: bool)
      modifies this
      ensures ok == Acceptable(e)
      ensures v4 == old(v4) + (if ok && e.addr.V4? then [RangeOf(e)] else [])
      ensures v6 == old(v6) + (if ok && e.addr.V6? then [RangeOf(e)] else [])
    {
      var width := Width(e.addr);
      var bits := if e.prefix.Some? then e.prefix.value else width;
      if bits > width { return false; }
      var r := Block(Number(e.addr.octets), width - bits, e.tag);
      if e.addr.V4? {
        v4 := v4 + [r];
      } else {
        v6 := v6 + [r];
      }
      return true;
    }

    /** The merging loop over a sorted list. */
    static method Merge(v: seq<Range>) returns (out: seq<Range>)
      ensures out == Merged(v)
    {
      hide Merged;
      out := [];
      MergedStep(v, 0);
      for i := 0 to |v|
        invariant out == Merged(v[..i])
      {
        MergedStep(v, i);
        var r := v[i];
        if out != [] && r.start <= out[|out| - 1].end && out[|out| - 1].tag == r.tag {
          if r.end > out[|out| - 1].end {
            out := out[|out| - 1 := out[|out| - 1].(end := r.end)];
          }
        } else {
          out := out + [r];
        }
      }
      assert v[..|v|] == v;
    }

    method Finish()
      modifies this
      ensures v4 == Merged(Sorted(old(v4))) && v6 == Merged(Sorted(old(v6)))
    {
      v4 := Merge(Sorted(v4));
      v6 := Merge(Sorted(v6));
    }

    /** `partition_point` by start, then the backward scan. */
    static method Find(v: seq<Range>, key: nat) returns (found: Option<string>)
      requires Ordered(v)
      ensures found == TagOf(LastCovering(v, key))
    {
      var lo, hi := 0, |v|;
      while lo < hi
        invariant 0 <= lo <= hi <= |v|
        invariant forall k :: 0 <= k < lo ==> v[k].start <= key
        invariant forall k :: hi <= k < |v| ==> v[k].start > key
      {
        var mid := (lo + hi) / 2;
        if v[mid].start <= key { lo := mid + 1; } else { hi := mid; }
      }
      UncoveredTail(v, lo, key);
      while lo > 0
        invariant 0 <= lo <= |v|
        invariant forall k :: 0 <= k < lo ==> v[k].start <= key
        invariant LastCovering(v[..lo], key) == LastCovering(v, key)
      {
        assert v[..lo][..lo - 1] == v[..lo - 1];
        lo := lo - 1;
        if key <= v[lo].end { return Some(v[lo].tag); }
      }
      return None;
    }

    method Lookup(addr: IpAddr) returns (found: Option<string>)
      requires Ordered(v4) && Ordered(v6)
      ensures found == TagOf(LastCovering(if addr.V4? then v4 else v6, Number(addr.octets)))
    {
      if addr.V4? {
        found := Find(v4, Number(addr.octets));
      } else {
        found := Find(v6, Number(addr.octets));
      }
    }
  }

  lemma {:induction false} UncoveredTail(v: seq<Range>, n: nat, key: nat)
    requires n <= |v| && forall k :: n <= k < |v| ==> v[k].start > key
    ensures LastCovering(v[..n], key) == LastCovering(v, key)
    decreases |v| - n
  {
    if n < |v| {
      UncoveredTail(v, n + 1, key);
      assert v[..n + 1][..n] == v[..n];
    } else {
      assert v[..n] == v;
    }
  }

  /** Loads a feed, stopping at the first bad line, and then answers one lookup by the linear scan of that feed. */
  method LoadAndLookup(feed: seq<Entry>, addr: IpAddr) returns (loaded: bool, found: Option<string>)
    ensures loaded <==> forall i :: 0 <= i < |feed| ==> Acceptable(feed[i])
    ensures loaded ==> found == TagOf(Scan(RangesOf(feed, addr.V4?), Number(addr.octets)))
  {
    var ips := new IpSet();
    for i := 0 to |feed|
      invariant forall k :: 0 <= k < i ==> Acceptable(feed[k])
      invariant ips.v4 == RangesOf(feed[..i], true) && ips.v6 == RangesOf(feed[..i], false)
    {
      var ok := ips.Push(feed[i]);
      if !ok { return false, None; }
      assert feed[..i + 1][..i] == feed[..i];
    }
    assert feed[..|feed|] == feed;
    ips.Finish();
    SortedIsOrdered(RangesOf(feed, true));
    SortedIsOrdered(RangesOf(feed, false));
    MergedLastCovering(Sorted(RangesOf(feed, true)), Number(addr.octets));
    MergedLastCovering(Sorted(RangesOf(feed, false)), Number(addr.octets));
    found := ips.Lookup(addr);
    loaded := true;
    LookupIsScan(RangesOf(feed, addr.V4?), Number(addr.octets));
  }
}
