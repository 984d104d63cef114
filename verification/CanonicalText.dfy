/**
 * The one text an IPv6 address is printed as (src/packet.rs, `format_ipv6`), described as section 4 of RFC 5952 does:
 * groups in lower case without leading zeros, and a double colon for the first longest run of two or more zero groups.
 */
module CanonicalText {
  import opened Base
  import opened Ipv6Text

  // ------------------------------------------------------------- one group

  predicate LowerHex(c: char) {
    '0' <= c <= '9' || 'a' <= c <= 'f'
  }

  function Worth(c: char): int {
    if '0' <= c <= '9' then c as int - 48 else c as int - 87
  }

  /** The number a text of lower-case digits writes. */
  function Value(s: string): int {
    if s == [] then 0 else Value(s[..|s| - 1]) * 16 + Worth(s[|s| - 1])
  }

  /** One to four lower-case digits, the first of several not a zero. */
  predicate Shortest(s: string, g: Group) {
    && 1 <= |s| <= 4 && (forall i :: 0 <= i < |s| ==> LowerHex(s[i]))
    && (|s| > 1 ==> s[0] != '0') && Value(s) == g
  }

  lemma HexDigitIs(n: int)
    requires 0 <= n < 16
    ensures LowerHex(HexDigit(n)) && Worth(HexDigit(n)) == n && (HexDigit(n) == '0' ==> n == 0)
    ensures Worth('0') == 0
  {
  }

  lemma DigitIsHex(c: char)
    requires LowerHex(c)
    ensures 0 <= Worth(c) < 16 && c == HexDigit(Worth(c)) && (Worth(c) == 0 ==> c == '0')
  {
  }

  lemma HexGrows(n: nat)
    requires n >= 16
    ensures Hex(n) == Hex(n / 16) + [HexDigit(n % 16)] && n == (n / 16) * 16 + n % 16
  {
  }

  /** What is printed for a group is its shortest lower-case numeral. */
  lemma {:induction false} HexIsShortest(n: nat)
    ensures var s := Hex(n);
      && 1 <= |s| && (forall i :: 0 <= i < |s| ==> LowerHex(s[i])) && Value(s) == n
      && (|s| > 1 ==> s[0] != '0') && (n < 0x10 ==> |s| == 1) && (n < 0x100 ==> |s| <= 2) && (n < 0x1000 ==> |s| <= 3)
      && (n < 0x1_0000 ==> |s| <= 4) && (s[0] == '0' ==> n == 0)
    decreases n
  {
    hide HexDigit, LowerHex, Worth;
    if n < 16 {
      HexDigitIs(n);
      assert Hex(n)[..0] == [] && Value([]) == 0;
    } else {
      HexIsShortest(n / 16);
      HexGrows(n);
      HexDigitIs(n % 16);
      assert Hex(n)[..|Hex(n)| - 1] == Hex(n / 16);
    }
  }

  lemma {:induction false} ValueFits(s: string)
    requires forall i :: 0 <= i < |s| ==> LowerHex(s[i])
    ensures Value(s) >= 0 && (s != [] && s[0] != '0' ==> Value(s) >= 1)
  {
    hide LowerHex, Worth;
    if s != [] {
      DigitIsHex(s[|s| - 1]);
      ValueFits(s[..|s| - 1]);
    }
  }

  /** And that numeral is the only one. */
  lemma {:induction false} ShortestIsHex(s: string)
    requires s != [] && (forall i :: 0 <= i < |s| ==> LowerHex(s[i])) && (|s| > 1 ==> s[0] != '0')
    ensures Value(s) >= 0 && s == Hex(Value(s))
  {
    hide HexDigit, LowerHex, Worth;
    var front, last := s[..|s| - 1], s[|s| - 1];
    assert s == front + [last];
    DigitIsHex(last);
    if front == [] {
      assert Value(s) == Worth(last);
    } else {
      ShortestIsHex(front);
      ValueFits(front);
      QuotientIsUnique(Value(s), 16, Value(front), Worth(last));
    }
  }

  // ------------------------------------------------------------- the text

  ghost predicate AllShortest(pieces: seq<string>, gs: seq<Group>) {
    |pieces| == |gs| && forall i :: 0 <= i < |gs| ==> Shortest(pieces[i], gs[i])
  }

  lemma PiecesAreHex(pieces: seq<string>, gs: seq<Group>)
    ensures AllShortest(pieces, gs) <==> pieces == HexAll(gs)
  {
    hide Shortest, Hex;
    forall i | 0 <= i < |gs|
      ensures Shortest(HexAll(gs)[i], gs[i])
    {
      HexFits(gs[i]);
    }
    if AllShortest(pieces, gs) {
      forall i | 0 <= i < |gs|
        ensures pieces[i] == HexAll(gs)[i]
      {
        OnlyHexFits(pieces[i], gs[i]);
      }
    }
  }

  lemma HexFits(g: Group)
    ensures Shortest(Hex(g), g)
  {
    HexIsShortest(g);
    hide Hex, LowerHex;
  }

  lemma OnlyHexFits(s: string, g: Group)
    requires Shortest(s, g)
    ensures s == Hex(g)
  {
    ShortestIsHex(s);
  }

  /** The groups an address is written in: two octets each, the first the more significant. */
  ghost predicate AreGroups(a: Ipv6, gs: Groups) {
    forall i :: 0 <= i < 8 ==> gs[i] == BigEndian16(a[2 * i], a[2 * i + 1])
  }

  predicate HasPair(gs: Groups) {
    exists k :: 0 <= k < 7 && gs[k] == 0 == gs[k + 1]
  }

  /** A run of zero groups no shorter than any other, and before any other as long. */
  ghost predicate FirstLongest(gs: Groups, start: int, len: int) {
    && len >= 2 && ZeroRun(gs, start, len)
    && forall i, n :: n > 0 && ZeroRun(gs, i, n) ==> n < len || (n == len && start <= i)
  }

  ghost predicate WithoutRun(gs: Groups, s: string) {
    exists pieces: seq<string> :: AllShortest(pieces, gs) && s == Join(pieces)
  }

  ghost predicate AroundRun(gs: Groups, start: int, len: int, s: string)
    requires ZeroRun(gs, start, len)
  {
    exists before: seq<string>, after: seq<string> ::
      AllShortest(before, gs[..start]) && AllShortest(after, gs[start + len..]) &&
      s == Join(before) + "::" + Join(after)
  }

  ghost predicate Compressed(gs: Groups, s: string) {
    exists start, len :: FirstLongest(gs, start, len) && AroundRun(gs, start, len, s)
  }

  lemma AroundRunIff(gs: Groups, start: int, len: int, s: string)
    requires ZeroRun(gs, start, len) && len >= 2
    ensures AroundRun(gs, start, len, s) <==> s == TextOf(gs, start, len)
  {
    hide AllShortest, HexAll, Join;
    forall pieces: seq<string>
      ensures AllShortest(pieces, gs[..start]) <==> pieces == HexAll(gs[..start])
    {
      PiecesAreHex(pieces, gs[..start]);
    }
    var rest := gs[start + len..];
    forall pieces: seq<string>
      ensures AllShortest(pieces, rest) <==> pieces == HexAll(rest)
    {
      PiecesAreHex(pieces, rest);
    }
    assert AllShortest(HexAll(gs[..start]), gs[..start]) && AllShortest(HexAll(rest), rest);
  }

  lemma PairIffLong(gs: Groups, start: int, len: int)
    requires LeftmostLongest(gs, 8, start, len)
    ensures HasPair(gs) <==> len >= 2
    ensures len >= 2 ==> FirstLongest(gs, start, len)
  {
    if HasPair(gs) {
      var k :| 0 <= k < 7 && gs[k] == 0 == gs[k + 1];
      assert ZeroRun(gs, k, 2);
    }
    if len >= 2 {
      assert gs[start] == 0 == gs[start + 1];
    }
  }

  lemma FirstLongestIsLeftmost(gs: Groups, start: int, len: int)
    requires FirstLongest(gs, start, len)
    ensures LeftmostLongest(gs, 8, start, len) && HasPair(gs)
  {
    assert gs[start] == 0 == gs[start + 1];
  }

  lemma {:induction false} SomeLongest(gs: Groups, upTo: nat) returns (start: nat, len: nat)
    requires upTo <= 8
    ensures LeftmostLongest(gs, upTo, start, len)
  {
    if upTo == 0 {
      start, len := 0, 0;
    } else {
      start, len := SomeLongest(gs, upTo - 1);
      var n := RunEndingAt(gs, upTo);
      if n > len {
        start, len := upTo - n, n;
      }
    }
  }

  lemma {:induction false} RunEndingAt(gs: Groups, end: nat) returns (n: nat)
    requires end <= 8
    ensures n <= end && ZeroRun(gs, end - n, n)
    ensures forall i, m :: m > 0 && ZeroRun(gs, i, m) && i + m == end ==> m <= n
  {
    n := 0;
    if end > 0 && gs[end - 1] == 0 {
      var shorter := RunEndingAt(gs, end - 1);
      n := shorter + 1;
      forall i, m | m > 0 && ZeroRun(gs, i, m) && i + m == end
        ensures m <= n
      {
        if m > 1 {
          assert ZeroRun(gs, i, m - 1);
        }
      }
    }
  }

  /**
   * The canonical text is what section 4 of RFC 5952 asks for, and nothing else is: every group in lower case without
   * leading zeros, a double colon for the first longest run of zero groups if there are two zeros together, and no
   * double colon otherwise.
   */
  lemma TextIff(a: Ipv6, gs: Groups, s: string)
    requires AreGroups(a, gs)
    ensures IsText(a, s) <==> if HasPair(gs) then Compressed(gs, s) else WithoutRun(gs, s)
  {
    assert gs == GroupsOf(a);
    hide GroupsOf, HasPair, LeftmostLongest, FirstLongest, AllShortest, ZeroRun, TextOf, AroundRun;
    var start, len := SomeLongest(gs, 8);
    LongestIsRun(gs, start, len);
    PairIffLong(gs, start, len);
    if len < 2 {
      forall i, n | LeftmostLongest(gs, 8, i, n)
        ensures ZeroRun(gs, i, n) && n < 2 && TextOf(gs, i, n) == Join(HexAll(gs))
      {
        PairIffLong(gs, i, n);
        LongestIsRun(gs, i, n);
        ShortRun(gs, i, n);
      }
      ShortRun(gs, start, len);
      forall pieces: seq<string>
        ensures AllShortest(pieces, gs) <==> pieces == HexAll(gs)
      {
        PiecesAreHex(pieces, gs);
      }
      assert AllShortest(HexAll(gs), gs);
    } else {
      forall i, n
        ensures LeftmostLongest(gs, 8, i, n) <==> FirstLongest(gs, i, n)
        ensures FirstLongest(gs, i, n) ==>
          n >= 2 && ZeroRun(gs, i, n) && (AroundRun(gs, i, n, s) <==> s == TextOf(gs, i, n))
      {
        LongRun(gs, i, n, s);
      }
    }
  }

  lemma LongestIsRun(gs: Groups, start: int, len: int)
    requires LeftmostLongest(gs, 8, start, len)
    ensures ZeroRun(gs, start, len)
  {
  }

  lemma ShortRun(gs: Groups, start: int, len: int)
    requires ZeroRun(gs, start, len) && len < 2
    ensures TextOf(gs, start, len) == Join(HexAll(gs))
  {
  }

  lemma LongRun(gs: Groups, i: int, n: int, s: string)
    requires HasPair(gs)
    ensures LeftmostLongest(gs, 8, i, n) <==> FirstLongest(gs, i, n)
    ensures FirstLongest(gs, i, n) ==>
      n >= 2 && ZeroRun(gs, i, n) && (AroundRun(gs, i, n, s) <==> s == TextOf(gs, i, n))
  {
    if LeftmostLongest(gs, 8, i, n) {
      PairIffLong(gs, i, n);
    }
    if FirstLongest(gs, i, n) {
      FirstLongestIsLeftmost(gs, i, n);
      AroundRunIff(gs, i, n, s);
    }
  }
}
