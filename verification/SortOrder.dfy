/**
 * The order in which observations are replayed (src/behavior.rs, `Observation::sort_key`), field by field: time, kind,
 * source, destination, port, the two counters, and the service or name.
 */
module SortOrder {
  import opened Base
  import opened Observations
  import opened Reordering

  // ----- Lexicographic order, by the first difference -----

  /** The first place where two runs differ has the lesser on this side. */
  ghost predicate FirstLess(a: seq<int>, b: seq<int>) {
    exists i :: 0 <= i < |a| && i < |b| && a[..i] == b[..i] && a[i] < b[i]
  }

  lemma FirstLessUnfolds(a: seq<int>, b: seq<int>)
    requires a != [] && b != []
    ensures FirstLess(a, b) <==> a[0] < b[0] || (a[0] == b[0] && FirstLess(a[1..], b[1..]))
  {
    if a[0] < b[0] {
      assert a[..0] == b[..0];
    }
    if a[0] == b[0] && FirstLess(a[1..], b[1..]) {
      var i :| 0 <= i < |a[1..]| && i < |b[1..]| && a[1..][..i] == b[1..][..i] && a[1..][i] < b[1..][i];
      assert a[..i + 1] == [a[0]] + a[1..][..i] && b[..i + 1] == [b[0]] + b[1..][..i];
      assert a[i + 1] < b[i + 1];
    }
    if FirstLess(a, b) && a[0] >= b[0] {
      var i :| 0 <= i < |a| && i < |b| && a[..i] == b[..i] && a[i] < b[i];
      assert a[0] == a[..i][0] && b[0] == b[..i][0];
      assert a[1..][..i - 1] == a[..i][1..] && b[1..][..i - 1] == b[..i][1..];
      assert a[1..][i - 1] < b[1..][i - 1];
    }
  }

  lemma {:induction false} LexLeIs(a: seq<int>, b: seq<int>)
    ensures LexLe(a, b) <==> a <= b || FirstLess(a, b)
  {
    if a != [] && b != [] {
      LexLeIs(a[1..], b[1..]);
      FirstLessUnfolds(a, b);
      hide FirstLess;
      assert a == [a[0]] + a[1..] && b == [b[0]] + b[1..];
    }
  }

  lemma NoneLess(b: seq<int>)
    ensures !FirstLess([], b) && !FirstLess(b, [])
  {
  }

  /** A part of fixed length is decided before what follows it. */
  lemma {:induction false} PartFirst(a: seq<int>, b: seq<int>, x: seq<int>, y: seq<int>)
    requires |a| == |b|
    ensures LexLe(a + x, b + y) <==> FirstLess(a, b) || (a == b && LexLe(x, y))
  {
    if a == [] {
      assert a + x == x && b + y == y;
      NoneLess(b);
    } else {
      assert (a + x)[1..] == a[1..] + x && (b + y)[1..] == b[1..] + y;
      assert a == [a[0]] + a[1..] && b == [b[0]] + b[1..];
      PartFirst(a[1..], b[1..], x, y);
      FirstLessUnfolds(a, b);
      hide FirstLess;
    }
  }

  lemma OneFirst(m: int, n: int, x: seq<int>, y: seq<int>)
    ensures LexLe([m] + x, [n] + y) <==> m < n || (m == n && LexLe(x, y))
  {
    PartFirst([m], [n], x, y);
    FirstLessUnfolds([m], [n]);
    NoneLess([]);
    hide FirstLess, LexLe;
    assert [m][1..] == [] && [n][1..] == [];
  }

  // ----- The fields -----

  /** IPv4 before IPv6, and then by the first octet that differs. */
  ghost predicate AddressBefore(a: IpAddr, b: IpAddr) {
    (a.V4? && b.V6?) || (a.V4? == b.V4? && FirstLess(a.octets, b.octets))
  }

  lemma {:induction false} PaddingIsEqual(a: seq<int>, b: seq<int>, zeros: seq<int>)
    requires |a| == |b|
    ensures FirstLess(a + zeros, b + zeros) <==> FirstLess(a, b)
  {
    if FirstLess(a, b) {
      var i :| 0 <= i < |a| && i < |b| && a[..i] == b[..i] && a[i] < b[i];
      assert (a + zeros)[..i] == a[..i] && (b + zeros)[..i] == b[..i];
    }
    if FirstLess(a + zeros, b + zeros) {
      var i :| 0 <= i < |a + zeros| && (a + zeros)[..i] == (b + zeros)[..i] && (a + zeros)[i] < (b + zeros)[i];
      assert i < |a|;
      assert (a + zeros)[..i] == a[..i] && (b + zeros)[..i] == b[..i];
    }
  }

  lemma AddressKeyLess(a: IpAddr, b: IpAddr)
    ensures FirstLess(AddressKey(a), AddressKey(b)) <==> AddressBefore(a, b)
  {
    var x := if a.V4? then a.octets + seq(12, _ => 0) else a.octets;
    var y := if b.V4? then b.octets + seq(12, _ => 0) else b.octets;
    assert AddressKey(a) == [if a.V4? then 4 else 6] + x && AddressKey(b) == [if b.V4? then 4 else 6] + y;
    FirstLessUnfolds(AddressKey(a), AddressKey(b));
    assert AddressKey(a)[1..] == x && AddressKey(b)[1..] == y;
    if a.V4? && b.V4? {
      PaddingIsEqual(a.octets, b.octets, seq(12, _ => 0));
    }
  }

  /** Sign-ins, refused sign-ins, finished connections, name queries, volumes, bytes moved so far. */
  function Rank(o: Observation): int {
    if o.AuthAttempt? then 0
    else if o.AuthFailure? then 1
    else if o.Flow? then 2
    else if o.DnsQuery? then 3
    else if o.Volume? then 4
    else 5
  }

  function PortOf(o: Observation): int {
    if o.Volume? || o.DnsQuery? then 0 else o.dstPort
  }

  function SentOf(o: Observation): int {
    if o.Flow? || o.Traffic? then o.bytesOut else if o.Volume? then o.packets else 0
  }

  /** The bytes received, doubled in a finished connection to make room for whether it was answered. */
  function ReceivedOf(o: Observation): int {
    if o.Flow? then 2 * o.bytesIn + (if o.answered then 1 else 0) else if o.Traffic? then o.bytesIn else 0
  }

  function NameOf(o: Observation): seq<int> {
    if o.AuthAttempt? || o.AuthFailure? then o.service else if o.DnsQuery? then o.name else []
  }

  /** A lesser field decides, and an equal one leaves it to the rest. */
  predicate Decides(less: bool, same: bool, rest: bool) {
    less || (same && rest)
  }

  ghost predicate NumbersThenName(o: Observation, p: Observation) {
    Decides(PortOf(o) < PortOf(p), PortOf(o) == PortOf(p),
      Decides(SentOf(o) < SentOf(p), SentOf(o) == SentOf(p),
        Decides(ReceivedOf(o) < ReceivedOf(p), ReceivedOf(o) == ReceivedOf(p),
          NameOf(o) <= NameOf(p) || FirstLess(NameOf(o), NameOf(p)))))
  }

  ghost predicate Before(o: Observation, p: Observation) {
    Decides(o.ts < p.ts, o.ts == p.ts,
      Decides(Rank(o) < Rank(p), Rank(o) == Rank(p),
        Decides(AddressBefore(o.src, p.src), o.src == p.src,
          Decides(AddressBefore(Destination(o), Destination(p)), Destination(o) == Destination(p),
            NumbersThenName(o, p)))))
  }

  lemma NumbersAre(o: Observation)
    requires Modest(o)
    ensures Numbers(o) == [PortOf(o), SentOf(o), ReceivedOf(o)] && Text(o) == NameOf(o) && Kind(o) == Rank(o)
    ensures Destination(o) == if o.Volume? then V4([0, 0, 0, 0]) else o.dst
  {
  }

  lemma ThreeThen(a: int, b: int, c: int, x: seq<int>)
    ensures [a, b, c] + x == [a] + ([b] + ([c] + x))
  {
  }

  lemma NumbersDecide(o: Observation, p: Observation)
    requires Modest(o) && Modest(p)
    ensures LexLe(Numbers(o) + Text(o), Numbers(p) + Text(p)) <==> NumbersThenName(o, p)
  {
    NumbersAre(o);
    NumbersAre(p);
    hide Numbers, Text, PortOf, SentOf, ReceivedOf, NameOf, LexLe, FirstLess, Modest;
    var a, b, c, x := PortOf(o), SentOf(o), ReceivedOf(o), NameOf(o);
    var a', b', c', y := PortOf(p), SentOf(p), ReceivedOf(p), NameOf(p);
    ThreeThen(a, b, c, x);
    ThreeThen(a', b', c', y);
    OneFirst(a, a', [b] + ([c] + x), [b'] + ([c'] + y));
    OneFirst(b, b', [c] + x, [c'] + y);
    OneFirst(c, c', x, y);
    LexLeIs(x, y);
  }

  /** The comparison is by those fields in that order, for counters below 2^63. */
  lemma LeIff(o: Observation, p: Observation)
    requires Modest(o) && Modest(p)
    ensures Le(o, p) <==> Before(o, p)
  {
    NumbersDecide(o, p);
    NumbersAre(o);
    NumbersAre(p);
    AddressKeyLess(o.src, p.src);
    AddressKeyLess(Destination(o), Destination(p));
    KeysEqual(o.src, p.src);
    KeysEqual(Destination(o), Destination(p));
    var s, d, n := AddressKey(o.src), AddressKey(Destination(o)), Numbers(o) + Text(o);
    var s', d', n' := AddressKey(p.src), AddressKey(Destination(p)), Numbers(p) + Text(p);
    KeyParts(o);
    KeyParts(p);
    hide SortKey, AddressKey, Numbers, Text, NumbersThenName, AddressBefore, FirstLess, LexLe, Kind, Rank, Modest;
    OneFirst(o.ts, p.ts, [Kind(o)] + (s + (d + n)), [Kind(p)] + (s' + (d' + n')));
    OneFirst(Kind(o), Kind(p), s + (d + n), s' + (d' + n'));
    PartFirst(s, s', d + n, d' + n');
    PartFirst(d, d', n, n');
  }

  lemma KeyParts(o: Observation)
    ensures SortKey(o) ==
      [o.ts] + ([Kind(o)] + (AddressKey(o.src) + (AddressKey(Destination(o)) + (Numbers(o) + Text(o)))))
  {
    hide AddressKey, Numbers, Text, Kind, Destination;
  }

  lemma KeysEqual(a: IpAddr, b: IpAddr)
    ensures AddressKey(a) == AddressKey(b) <==> a == b
  {
    if AddressKey(a) == AddressKey(b) {
      AddressKeyInjective(a, b);
    }
  }
}
