/** What a listed block covers (src/intel.rs, `IpSet`), said of the bits of the addresses. */
module AddressBits {
  import opened Base
  import opened Observations
  import opened IpSets

  /** The bits of some octets from the most significant of the first: what each of eight is worth in its octet. */
  function WorthOf(i: nat): nat {
    [128, 64, 32, 16, 8, 4, 2, 1][i % 8]
  }

  predicate Bit(octets: seq<byte>, i: nat)
    requires i < 8 * |octets|
  {
    (octets[i / 8] / WorthOf(i)) % 2 == 1
  }

  predicate Agree(a: seq<byte>, b: seq<byte>, n: nat)
    requires |a| == |b| && n <= 8 * |a|
  {
    forall i: nat :: i < n ==> Bit(a, i) == Bit(b, i)
  }

  // ------------------------------------------------------- numbers and bits

  lemma {:induction false} PowersAdd(m: nat, n: nat)
    ensures Pow2(m + n) == Pow2(m) * Pow2(n)
  {
    if m > 0 {
      PowersAdd(m - 1, n);
    }
  }

  lemma EightBits()
    ensures Pow2(8) == 256
  {
    assert Pow2(4) == 16;
    PowersAdd(4, 4);
  }

  lemma {:induction false} NumberFits(octets: seq<byte>)
    ensures 0 <= Number(octets) < Pow2(8 * |octets|)
  {
    if octets != [] {
      var front := octets[..|octets| - 1];
      NumberFits(front);
      EightBits();
      PowersAdd(8, 8 * |front|);
      assert Number(octets) < Number(front) * 256 + 256;
      MultiplesKept(Pow2(8 * |front|), Number(front) + 1, 256);
    }
  }

  lemma DivideTwice(n: nat, p: nat, q: nat)
    requires p > 0 && q > 0
    ensures p * q > 0 && n / (p * q) == (n / p) / q
  {
    var a := n / p;
    var b := a / q;
    assert n == p * a + n % p && a == q * b + a % q;
    var r := p * (a % q) + n % p;
    assert p * (q * b) == (p * q) * b;
    assert n == b * (p * q) + r;
    MultiplesKept(q - 1, a % q, p);
    assert (q - 1) * p == p * q - p;
    QuotientIsUnique(n, p * q, b, r);
  }

  lemma Halved(n: nat, m: nat)
    ensures n / Pow2(m + 1) == (n / Pow2(m)) / 2
  {
    DivideTwice(n, Pow2(m), 2);
  }

  lemma HigherOctets(high: nat, last: byte, m: nat)
    ensures (high * 256 + last) / Pow2(8 + m) == high / Pow2(m)
  {
    EightBits();
    PowersAdd(8, m);
    DivideTwice(high * 256 + last, 256, Pow2(m));
    QuotientIsUnique(high * 256 + last, 256, high, last);
  }

  lemma BitInFront(octets: seq<byte>, i: nat)
    requires octets != [] && i < 8 * (|octets| - 1)
    ensures Bit(octets, i) <==> Bit(octets[..|octets| - 1], i)
  {
    assert octets[..|octets| - 1][i / 8] == octets[i / 8];
  }

  lemma BitInLast(octets: seq<byte>, i: nat)
    requires octets != [] && 8 * (|octets| - 1) <= i < 8 * |octets|
    ensures 8 * |octets| - 1 - i == 7 - i % 8 && WorthOf(i) == WorthOf(i % 8)
    ensures Bit(octets, i) <==> (octets[|octets| - 1] / WorthOf(i % 8)) % 2 == 1
  {
    assert i / 8 == |octets| - 1;
  }

  /** A bit of the whole number is the bit of its octet. */
  lemma {:induction false} BitOfNumber(octets: seq<byte>, i: nat)
    requires i < 8 * |octets|
    ensures (Number(octets) / Pow2(8 * |octets| - 1 - i)) % 2 == 1 <==> Bit(octets, i)
    decreases |octets|
  {
    hide Pow2, Bit, WorthOf;
    var front, last := octets[..|octets| - 1], octets[|octets| - 1];
    assert Number(octets) == Number(front) * 256 + last;
    hide Number;
    if i < 8 * |front| {
      BitOfNumber(front, i);
      BitInFront(octets, i);
      var m := 8 * |front| - 1 - i;
      HigherOctets(Number(front), last, m);
      assert 8 * |octets| - 1 - i == 8 + m;
    } else {
      BitInLast(octets, i);
      LastOctet(Number(front), last, i % 8);
    }
  }

  lemma PowerIsWorth(j: nat)
    requires j < 8
    ensures Pow2(7 - j) == WorthOf(j)
  {
    assert Pow2(0) == 1 && Pow2(1) == 2 && Pow2(2) == 4 && Pow2(3) == 8 && Pow2(4) == 16;
    assert Pow2(5) == 2 * Pow2(4) && Pow2(6) == 2 * Pow2(5) && Pow2(7) == 2 * Pow2(6);
  }

  lemma WorthDivides(j: nat)
    requires j < 8
    ensures (256 / WorthOf(j)) * WorthOf(j) == 256 && (256 / WorthOf(j)) % 2 == 0 && WorthOf(j) > 0
  {
  }

  lemma LastOctet(high: nat, last: byte, j: nat)
    requires j < 8
    ensures ((high * 256 + last) / Pow2(7 - j)) % 2 == (last / WorthOf(j)) % 2
  {
    hide Pow2, WorthOf;
    PowerIsWorth(j);
    WorthDivides(j);
    var w := WorthOf(j);
    SplitByWorth(high, last, w, 256 / w);
    EvenOff(high, 256 / w, last / w);
  }

  lemma Regrouped(a: int, b: int, c: int)
    ensures (a * b) * c == a * (b * c)
  {
  }

  lemma Spread(a: int, b: int, c: int)
    ensures (a + b) * c == a * c + b * c
  {
  }

  lemma SplitByWorth(high: nat, last: nat, w: nat, c: nat)
    requires w > 0 && c * w == 256
    ensures (high * 256 + last) / w == high * c + last / w
  {
    var k, q, r := high * c, last / w, last % w;
    Regrouped(high, c, w);
    assert k * w == high * 256;
    Spread(k, q, w);
    assert last == q * w + r;
    QuotientIsUnique(high * 256 + last, w, k + q, r);
  }

  lemma EvenOff(a: nat, c: nat, b: nat)
    requires c % 2 == 0
    ensures (a * c + b) % 2 == b % 2
  {
    var h := c / 2;
    assert a * c == (a * h) * 2;
    QuotientIsUnique(a * c + b, 2, a * h + b / 2, b % 2);
  }

  lemma NothingLeft(octets: seq<byte>)
    ensures Number(octets) / Pow2(8 * |octets|) == 0
  {
    NumberFits(octets);
    QuotientIsUnique(Number(octets), Pow2(8 * |octets|), 0, Number(octets));
  }

  /** One more leading bit. */
  lemma OneBitMore(octets: seq<byte>, n: nat)
    requires n < 8 * |octets|
    ensures var q, r := Number(octets) / Pow2(8 * |octets| - n - 1), Number(octets) / Pow2(8 * |octets| - n);
      r == q / 2 && (q % 2 == 1 <==> Bit(octets, n))
  {
    hide Bit, Number, Pow2;
    Halved(Number(octets), 8 * |octets| - n - 1);
    BitOfNumber(octets, n);
  }

  lemma AgreeMore(a: seq<byte>, b: seq<byte>, n: nat)
    requires |a| == |b| && n < 8 * |a|
    ensures Agree(a, b, n + 1) <==> Agree(a, b, n) && Bit(a, n) == Bit(b, n)
  {
    hide Bit;
  }

  /** Numbers agree above their low bits exactly when the octets agree in the leading ones. */
  lemma {:induction false} LeadingBits(a: seq<byte>, b: seq<byte>, n: nat)
    requires |a| == |b| && n <= 8 * |a|
    ensures Number(a) / Pow2(8 * |a| - n) == Number(b) / Pow2(8 * |b| - n) <==> Agree(a, b, n)
  {
    hide Bit, Number, Pow2, Agree;
    if n == 0 {
      NothingLeft(a);
      NothingLeft(b);
      assert Agree(a, b, 0) by {
        AgreeInNone(a, b);
      }
    } else {
      LeadingBits(a, b, n - 1);
      OneBitMore(a, n - 1);
      OneBitMore(b, n - 1);
      AgreeMore(a, b, n - 1);
      SameByHalves(Number(a) / Pow2(8 * |a| - n), Number(b) / Pow2(8 * |b| - n));
    }
  }

  lemma AgreeInNone(a: seq<byte>, b: seq<byte>)
    requires |a| == |b|
    ensures Agree(a, b, 0)
  {
  }

  lemma SameByHalves(x: int, y: int)
    ensures x == y <==> x / 2 == y / 2 && (x % 2 == 1 <==> y % 2 == 1)
  {
  }

  // ------------------------------------------------------------- the entries

  /** The bits that count: as many as the prefix says, or all of them. */
  function PrefixOf(e: Entry): nat {
    if e.prefix.Some? then e.prefix.value else if e.addr.V4? then 32 else 128
  }

  /**
   * A listed block covers an address of its family exactly when the two agree in the leading bits that its prefix
   * counts; without a prefix it covers the one address.
   */
  lemma CoversIff(e: Entry, addr: IpAddr)
    requires Acceptable(e) && addr.V4? == e.addr.V4?
    ensures |e.addr.octets| == |addr.octets| && PrefixOf(e) <= 8 * |addr.octets|
    ensures Covers(RangeOf(e), Number(addr.octets)) <==> Agree(e.addr.octets, addr.octets, PrefixOf(e))
    ensures e.prefix.None? ==> (Covers(RangeOf(e), Number(addr.octets)) <==> addr == e.addr)
  {
    var w := 8 * |addr.octets|;
    BlockIsPrefix(Number(e.addr.octets), w - PrefixOf(e), e.tag, Number(addr.octets));
    hide Number, Pow2, Block, Agree;
    LeadingBits(e.addr.octets, addr.octets, PrefixOf(e));
    if e.prefix.None? {
      AllBits(e.addr.octets, addr.octets);
    }
  }

  lemma {:induction false} NumbersDiffer(a: seq<byte>, b: seq<byte>)
    requires |a| == |b| && Number(a) == Number(b)
    ensures a == b
  {
    if a != [] {
      var n := |a| - 1;
      QuotientIsUnique(Number(a), 256, Number(a[..n]), a[n]);
      QuotientIsUnique(Number(b), 256, Number(b[..n]), b[n]);
      NumbersDiffer(a[..n], b[..n]);
      assert a == a[..n] + [a[n]] && b == b[..n] + [b[n]];
    }
  }

  lemma AllBits(a: seq<byte>, b: seq<byte>)
    requires |a| == |b|
    ensures Agree(a, b, 8 * |a|) <==> a == b
  {
    LeadingBits(a, b, 8 * |a|);
    if Agree(a, b, 8 * |a|) {
      assert Pow2(0) == 1;
      NumbersDiffer(a, b);
    }
  }

  // ------------------------------------------------------------- the answer

  ghost predicate Listed(feed: seq<Entry>, addr: IpAddr)
    requires forall i :: 0 <= i < |feed| ==> Acceptable(feed[i])
  {
    exists i :: 0 <= i < |feed| && feed[i].addr.V4? == addr.V4? &&
                PrefixOf(feed[i]) <= 8 * |addr.octets| && |feed[i].addr.octets| == |addr.octets| &&
                Agree(feed[i].addr.octets, addr.octets, PrefixOf(feed[i]))
  }

  ghost predicate Covered(feed: seq<Entry>, addr: IpAddr)
    requires forall i :: 0 <= i < |feed| ==> Acceptable(feed[i])
  {
    exists i :: 0 <= i < |feed| && feed[i].addr.V4? == addr.V4? && Covers(RangeOf(feed[i]), Number(addr.octets))
  }

  lemma CoveredMore(front: seq<Entry>, last: Entry, addr: IpAddr)
    requires Acceptable(last) && forall i :: 0 <= i < |front| ==> Acceptable(front[i])
    ensures (forall i :: 0 <= i < |front + [last]| ==> Acceptable((front + [last])[i])) &&
      (Covered(front + [last], addr) <==>
       Covered(front, addr) || (last.addr.V4? == addr.V4? && Covers(RangeOf(last), Number(addr.octets))))
  {
    hide Number, Covers, RangeOf, Acceptable;
    var all := front + [last];
    assert all[|front|] == last && forall i :: 0 <= i < |front| ==> all[i] == front[i];
    if i :| 0 <= i < |front| && front[i].addr.V4? == addr.V4? && Covers(RangeOf(front[i]), Number(addr.octets)) {
      assert all[i] == front[i];
    }
  }

  lemma ScanMore(ranges: seq<Range>, r: Range, key: nat)
    ensures Scan(ranges + [r], key).Some? <==> Scan(ranges, key).Some? || Covers(r, key)
  {
    assert (ranges + [r])[..|ranges|] == ranges;
  }

  lemma {:induction false} ScanIsSome(feed: seq<Entry>, addr: IpAddr)
    requires forall i :: 0 <= i < |feed| ==> Acceptable(feed[i])
    ensures Scan(RangesOf(feed, addr.V4?), Number(addr.octets)).Some? <==> Covered(feed, addr)
  {
    hide Number, Covers, RangeOf, Acceptable;
    if feed != [] {
      var front, last := feed[..|feed| - 1], feed[|feed| - 1];
      ScanIsSome(front, addr);
      var ranges := RangesOf(front, addr.V4?);
      assert ranges + [] == ranges && feed == front + [last];
      ScanMore(ranges, RangeOf(last), Number(addr.octets));
      CoveredMore(front, last, addr);
    }
  }

  /** An address is reported exactly when some entry of its family agrees with it in the bits that entry counts. */
  lemma ReportedIff(feed: seq<Entry>, addr: IpAddr)
    requires forall i :: 0 <= i < |feed| ==> Acceptable(feed[i])
    ensures TagOf(Scan(RangesOf(feed, addr.V4?), Number(addr.octets))).Some? <==> Listed(feed, addr)
  {
    ScanIsSome(feed, addr);
    hide Number, Covers, RangeOf, Agree, Scan, RangesOf;
    forall i | 0 <= i < |feed| && feed[i].addr.V4? == addr.V4?
      ensures |feed[i].addr.octets| == |addr.octets| && PrefixOf(feed[i]) <= 8 * |addr.octets|
      ensures Covers(RangeOf(feed[i]), Number(addr.octets)) <==>
        Agree(feed[i].addr.octets, addr.octets, PrefixOf(feed[i]))
    {
      CoversIff(feed[i], addr);
    }
  }
}
