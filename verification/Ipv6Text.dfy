/** IPv6 addresses as text (src/packet.rs, `format_ipv6` and `parse_ipv6_literal`). */
module Ipv6Text {
  import opened Base

  type Group = g: int | 0 <= g < 0x1_0000

  type Groups = gs: seq<Group> | |gs| == 8 witness [0, 0, 0, 0, 0, 0, 0, 0]

  type Ipv6 = a: seq<byte> | |a| == 16 witness [0, 0, 0, 0, 0, 0, 0, 0, 0, 0, 0, 0, 0, 0, 0, 0]

  function GroupsOf(a: Ipv6): Groups {
    seq(8, i requires 0 <= i < 8 => BigEndian16(a[2 * i], a[2 * i + 1]))
  }

  function OctetsOf(gs: Groups): Ipv6 {
    seq(16, i requires 0 <= i < 16 => if i % 2 == 0 then gs[i / 2] / 0x100 else gs[i / 2] % 0x100)
  }

  // ----------------------------------------------------------- one group

  function HexDigit(n: int): char
    requires 0 <= n < 16
  {
    "0123456789abcdef"[n]
  }

  /** `{:x}`: lower case, no leading zeros. */
  function Hex(n: nat): string {
    if n < 16 then [HexDigit(n)] else Hex(n / 16) + [HexDigit(n % 16)]
  }

  function DigitValue(c: char): Option<int> {
    if '0' <= c <= '9' then Some(c as int - '0' as int)
    else if 'a' <= c <= 'f' then Some(c as int - 'a' as int + 10)
    else if 'A' <= c <= 'F' then Some(c as int - 'A' as int + 10)
    else None
  }

  /** The digits read onto a value, failing on any other character and as soon as 16 bits overflow. */
  function Accumulate(value: Group, digits: string): Option<Group>
    decreases |digits|
  {
    if digits == [] then Some(value)
    else
      match DigitValue(digits[0])
      case None => None
      case Some(d) =>
        var next := value * 16 + d;
        if next < 0x1_0000 then Accumulate(next, digits[1..]) else None
  }

  /** `u16::from_str_radix(s, 16)`: at least one digit, and a leading plus sign is allowed. */
  function ParseGroup(s: string): Option<Group> {
    var digits := if s != [] && s[0] == '+' then s[1..] else s;
    if digits == [] then None else Accumulate(0, digits)
  }

  lemma {:induction false} AccumulateAppends(value: Group, digits: string, last: int)
    requires 0 <= last < 16
    requires Accumulate(value, digits).Some? && Accumulate(value, digits).value * 16 + last < 0x1_0000
    ensures Accumulate(value, digits + [HexDigit(last)]) == Some(Accumulate(value, digits).value * 16 + last)
    decreases |digits|
  {
    var all := digits + [HexDigit(last)];
    if digits == [] {
      assert all == [HexDigit(last)] && all[1..] == [];
    } else {
      assert all[1..] == digits[1..] + [HexDigit(last)];
      AccumulateAppends(value * 16 + DigitValue(digits[0]).value, digits[1..], last);
    }
  }

  predicate PlainGroup(s: string) {
    s != [] && ':' !in s
  }

  lemma HexDigitParses(n: int)
    requires 0 <= n < 16
    ensures DigitValue(HexDigit(n)) == Some(n)
    ensures HexDigit(n) != ':' && HexDigit(n) != '+'
  {
  }

  lemma {:induction false} HexParses(g: Group)
    ensures PlainGroup(Hex(g)) && Hex(g)[0] != '+'
    ensures Accumulate(0, Hex(g)) == Some(g)
    ensures ParseGroup(Hex(g)) == Some(g)
    decreases g
  {
    hide HexDigit, DigitValue;
    HexDigitParses(g % 16);
    if g >= 16 {
      HexParses(g / 16);
      AccumulateAppends(0, Hex(g / 16), g % 16);
    } else {
      assert Hex(g)[1..] == [];
    }
  }

  // ------------------------------------------------------- lists of groups

  function HexAll(gs: seq<Group>): seq<string> {
    seq(|gs|, i requires 0 <= i < |gs| => Hex(gs[i]))
  }

  function Join(parts: seq<string>): string {
    if parts == [] then "" else if |parts| == 1 then parts[0] else parts[0] + ":" + Join(parts[1..])
  }

  /** Index of the first colon, or the length when there is none. */
  function FirstColon(s: string): (i: nat)
    ensures i <= |s|
    ensures i < |s| ==> s[i] == ':'
    ensures ':' !in s[..i]
  {
    if s == [] || s[0] == ':' then 0 else 1 + FirstColon(s[1..])
  }

  /** `split(':')`: one more piece than there are colons. */
  function Split(s: string): seq<string>
    decreases |s|
  {
    var i := FirstColon(s);
    if i == |s| then [s] else [s[..i]] + Split(s[i + 1..])
  }

  function ParseAll(parts: seq<string>): Option<seq<Group>> {
    if parts == [] then Some([])
    else
      match ParseGroup(parts[0])
      case None => None
      case Some(g) =>
        match ParseAll(parts[1..])
        case None => None
        case Some(rest) => Some([g] + rest)
  }

  function ParseGroups(part: string): Option<seq<Group>> {
    if part == "" then Some([]) else ParseAll(Split(part))
  }

  lemma {:induction false} FirstColonAfter(a: string, b: string)
    requires ':' !in a
    ensures FirstColon(a + ":" + b) == |a|
    ensures FirstColon(a) == |a|
  {
    if a != [] {
      assert (a + ":" + b)[1..] == a[1..] + ":" + b;
      FirstColonAfter(a[1..], b);
    }
  }

  predicate AllPlain(parts: seq<string>) {
    forall i :: 0 <= i < |parts| ==> PlainGroup(parts[i])
  }

  lemma PlainHasNoColons(parts: seq<string>)
    requires AllPlain(parts)
    ensures NoColons(parts)
  {
    forall i | 0 <= i < |parts|
      ensures ':' !in parts[i]
    {
      assert PlainGroup(parts[i]);
    }
  }

  predicate NoColons(parts: seq<string>) {
    forall i :: 0 <= i < |parts| ==> ':' !in parts[i]
  }

  lemma {:induction false} SplitOfJoin(parts: seq<string>)
    requires parts != [] && NoColons(parts)
    ensures Split(Join(parts)) == parts
  {
    assert ':' !in parts[0];
    if |parts| == 1 {
      FirstColonAfter(parts[0], "");
    } else {
      var rest := Join(parts[1..]);
      FirstColonAfter(parts[0], rest);
      var s := parts[0] + ":" + rest;
      assert s[..|parts[0]|] == parts[0] && s[|parts[0]| + 1..] == rest;
      SplitOfJoin(parts[1..]);
    }
  }

  lemma {:induction false} JoinOfSplit(s: string)
    ensures Split(s) != [] && NoColons(Split(s)) && Join(Split(s)) == s
    decreases |s|
  {
    var i := FirstColon(s);
    if i < |s| {
      hide FirstColon, Join, NoColons;
      JoinOfSplit(s[i + 1..]);
      JoinFirst(s[..i], Split(s[i + 1..]));
      CutAtColon(s, i);
    } else {
      hide FirstColon;
    }
  }

  lemma JoinFirst(part: string, parts: seq<string>)
    requires parts != [] && ':' !in part && NoColons(parts)
    ensures Join([part] + parts) == part + ":" + Join(parts) && NoColons([part] + parts)
  {
    assert ([part] + parts)[1..] == parts;
  }

  lemma CutAtColon(s: string, i: nat)
    requires i < |s| && s[i] == ':'
    ensures s[..i] + ":" + s[i + 1..] == s
  {
  }

  lemma {:induction false} ParseAllOfHex(gs: seq<Group>)
    ensures AllPlain(HexAll(gs))
    ensures ParseAll(HexAll(gs)) == Some(gs)
  {
    if gs != [] {
      HexParses(gs[0]);
      assert HexAll(gs)[1..] == HexAll(gs[1..]);
      ParseAllOfHex(gs[1..]);
      assert [gs[0]] + gs[1..] == gs;
    }
  }

  /** What the printer writes for a list of groups is read back as that list. */
  lemma ParseGroupsOfHex(gs: seq<Group>)
    ensures ParseGroups(Join(HexAll(gs))) == Some(gs)
  {
    ParseAllOfHex(gs);
    if gs != [] {
      JoinIsPlain(HexAll(gs));
      PlainHasNoColons(HexAll(gs));
      SplitOfJoin(HexAll(gs));
    }
  }

  // ---------------------------------------------------------- double colons

  predicate DoubleColonAt(s: string, i: nat) {
    i + 1 < |s| && s[i] == ':' && s[i + 1] == ':'
  }

  /** Index of the first double colon, or the length when there is none. */
  function FirstDoubleColon(s: string): (i: nat)
    ensures i <= |s|
    ensures i < |s| ==> DoubleColonAt(s, i)
    ensures forall j :: 0 <= j < i ==> !DoubleColonAt(s, j)
  {
    if s == [] || DoubleColonAt(s, 0) then 0
    else
      var rest := 1 + FirstDoubleColon(s[1..]);
      assert forall j :: 0 < j < rest ==> (DoubleColonAt(s, j) <==> DoubleColonAt(s[1..], j - 1));
      rest
  }

  lemma FirstDoubleColonIs(s: string, i: nat)
    requires i == |s| || DoubleColonAt(s, i)
    requires i <= |s| && forall j :: 0 <= j < i ==> !DoubleColonAt(s, j)
    ensures FirstDoubleColon(s) == i
  {
    assert DoubleColonAt(s, FirstDoubleColon(s)) || FirstDoubleColon(s) == |s|;
  }

  /** Joined groups start and end with something other than a colon, and hold no double colon. */
  lemma {:induction false} JoinIsPlain(parts: seq<string>)
    requires parts != [] && AllPlain(parts)
    ensures var s := Join(parts); s != [] && s[0] != ':' && s[|s| - 1] != ':' && forall j: nat :: !DoubleColonAt(s, j)
  {
    assert PlainGroup(parts[0]);
    var s := Join(parts);
    if |parts| > 1 {
      JoinIsPlain(parts[1..]);
      var rest := Join(parts[1..]);
      var n := |parts[0]|;
      assert s == parts[0] + ":" + rest;
      forall j: nat
        ensures !DoubleColonAt(s, j)
      {
        if n < j {
          assert DoubleColonAt(s, j) == DoubleColonAt(rest, j - n - 1);
        }
      }
    }
  }

  lemma SplitAtDoubleColon(head: string, tail: string)
    requires head == "" || (head[|head| - 1] != ':' && forall j: nat :: !DoubleColonAt(head, j))
    ensures var s := head + "::" + tail;
            FirstDoubleColon(s) == |head| && s[..|head|] == head && s[|head| + 2..] == tail
  {
    var s := head + "::" + tail;
    forall j: nat | j < |head|
      ensures !DoubleColonAt(s, j)
    {
      if j + 1 < |head| {
        assert DoubleColonAt(s, j) == DoubleColonAt(head, j);
      }
    }
    FirstDoubleColonIs(s, |head|);
  }

  // ------------------------------------------------------------- zero runs

  predicate ZeroRun(gs: seq<Group>, start: int, len: int) {
    0 <= start && 0 <= len && start + len <= |gs| && forall k :: start <= k < start + len ==> gs[k] == 0
  }

  /** Among the runs of zero groups that end by `upTo`, this one is longest, and leftmost among the longest. */
  ghost predicate LeftmostLongest(gs: seq<Group>, upTo: int, start: int, len: int) {
    && ZeroRun(gs, start, len)
    && start + len <= upTo
    && forall i, n :: n > 0 && ZeroRun(gs, i, n) && i + n <= upTo ==> n < len || (n == len && start <= i)
  }

  /** The text with the run written as a double colon, or in full when there is no run worth writing. */
  function TextOf(gs: Groups, start: int, len: int): string
    requires ZeroRun(gs, start, len)
  {
    if len < 2 then Join(HexAll(gs))
    else Join(HexAll(gs[..start])) + "::" + Join(HexAll(gs[start + len..]))
  }

  /** The canonical text of an address: exactly its leftmost longest run of at least two zero groups is compressed. */
  ghost predicate IsText(a: Ipv6, s: string) {
    exists start, len :: LeftmostLongest(GroupsOf(a), 8, start, len) && s == TextOf(GroupsOf(a), start, len)
  }

  /** An address has one canonical text. */
  lemma TextIsUnique(a: Ipv6, s: string, t: string)
    requires IsText(a, s) && IsText(a, t)
    ensures s == t
  {
    var gs := GroupsOf(a);
    var i, n :| LeftmostLongest(gs, 8, i, n) && s == TextOf(gs, i, n);
    var j, m :| LeftmostLongest(gs, 8, j, m) && t == TextOf(gs, j, m);
    if n > 0 && m > 0 {
      assert n == m && i == j;
    }
  }

  // ---------------------------------------------------------------- parsing

  /** The eight groups given by what stands on either side of a double colon, or by a text without one. */
  function Placed(head: seq<Group>, tail: Option<seq<Group>>): Option<Groups> {
    match tail
    case Some(t) =>
      if |head| + |t| > 8 then None
      else Some(head + seq(8 - |head| - |t|, _ => 0) + t)
    case None => if |head| != 8 then None else Some(head)
  }

  function Parsed(s: string): Option<Ipv6> {
    var i := FirstDoubleColon(s);
    var head := ParseGroups(s[..i]);
    var tail := if i < |s| then ParseGroups(s[i + 2..]) else Some([]);
    if head.None? || tail.None? then None
    else
      match Placed(head.value, if i < |s| then tail else None)
      case None => None
      case Some(gs) => Some(OctetsOf(gs))
  }

  lemma OctetsOfGroups(a: Ipv6)
    ensures OctetsOf(GroupsOf(a)) == a
  {
    hide GroupsOf, OctetsOf;
    forall i | 0 <= i < 16
      ensures OctetsOf(GroupsOf(a))[i] == a[i]
    {
      OctetOfGroup(a, i);
    }
  }

  lemma OctetOfGroup(a: Ipv6, i: nat)
    requires i < 16
    ensures OctetsOf(GroupsOf(a))[i] == a[i]
  {
    hide BigEndian16;
    var k := i / 2;
    BytesOf16(a[2 * k], a[2 * k + 1]);
    assert GroupsOf(a)[k] == BigEndian16(a[2 * k], a[2 * k + 1]);
  }

  lemma BytesOf16(high: byte, low: byte)
    ensures BigEndian16(high, low) / 0x100 == high && BigEndian16(high, low) % 0x100 == low
  {
  }

  lemma FullTextParses(a: Ipv6)
    ensures Parsed(Join(HexAll(GroupsOf(a)))) == Some(a)
  {
    var gs := GroupsOf(a);
    var s := Join(HexAll(gs));
    ParseAllOfHex(gs);
    JoinIsPlain(HexAll(gs));
    FirstDoubleColonIs(s, |s|);
    assert s[..|s|] == s;
    ParseGroupsOfHex(gs);
    OctetsOfGroups(a);
  }

  lemma PlacedAroundRun(gs: Groups, start: int, len: int)
    requires ZeroRun(gs, start, len)
    ensures Placed(gs[..start], Some(gs[start + len..])) == Some(gs)
  {
    assert gs[..start] + seq(8 - start - (8 - start - len), _ => 0) + gs[start + len..] == gs;
  }

  lemma CompressedTextParses(a: Ipv6, start: int, len: int)
    requires ZeroRun(GroupsOf(a), start, len)
    ensures Parsed(Join(HexAll(GroupsOf(a)[..start])) + "::" + Join(HexAll(GroupsOf(a)[start + len..]))) == Some(a)
  {
    var gs := GroupsOf(a);
    var head, tail := Join(HexAll(gs[..start])), Join(HexAll(gs[start + len..]));
    var s := head + "::" + tail;
    ParseAllOfHex(gs[..start]);
    if start > 0 {
      JoinIsPlain(HexAll(gs[..start]));
    }
    SplitAtDoubleColon(head, tail);
    hide HexAll, Join, ParseGroups, FirstDoubleColon, Placed, OctetsOf, GroupsOf, ZeroRun;
    assert s[..|head|] == head && s[|head| + 2..] == tail;
    ParseGroupsOfHex(gs[..start]);
    ParseGroupsOfHex(gs[start + len..]);
    PlacedAroundRun(gs, start, len);
    OctetsOfGroups(a);
  }

  /** Every address is read back from its canonical text. */
  lemma TextRoundTrips(a: Ipv6, s: string)
    requires IsText(a, s)
    ensures Parsed(s) == Some(a)
  {
    var start, len :| LeftmostLongest(GroupsOf(a), 8, start, len) && s == TextOf(GroupsOf(a), start, len);
    if len < 2 {
      FullTextParses(a);
    } else {
      CompressedTextParses(a, start, len);
    }
  }

  /** So two addresses never share a canonical text. */
  lemma TextsDiffer(a: Ipv6, b: Ipv6, s: string)
    requires IsText(a, s) && IsText(b, s)
    ensures a == b
  {
    TextRoundTrips(a, s);
    TextRoundTrips(b, s);
  }

  // ---------------------------------------------------------------- the grammar

  predicate AllHex(digits: string) {
    forall i :: 0 <= i < |digits| ==> DigitValue(digits[i]).Some?
  }

  /** The number a string of hexadecimal digits writes, read on from a value. */
  function HexFrom(value: nat, digits: string): nat
    requires AllHex(digits)
    decreases |digits|
  {
    if digits == [] then value else HexFrom(value * 16 + DigitValue(digits[0]).value, digits[1..])
  }

  /** One group: a numeral of that value, in either case and with any leading zeros, perhaps after a plus sign. */
  ghost predicate IsGroup(s: string, g: Group) {
    exists digits :: (s == digits || s == "+" + digits) && digits != "" && AllHex(digits) && HexFrom(0, digits) == g
  }

  /** Groups with a single colon between neighbours; nothing at all for no groups. */
  ghost predicate IsGroups(part: string, gs: seq<Group>) {
    exists pieces: seq<string> ::
      |pieces| == |gs| && part == Join(pieces) && forall i :: 0 <= i < |gs| ==> IsGroup(pieces[i], gs[i])
  }

  ghost predicate Fills(before: seq<Group>, after: seq<Group>, gs: Groups) {
    |before| + |after| <= 8 && gs == before + seq(8 - |before| - |after|, _ => 0) + after
  }

  /** Two texts whose groups stand at either end of the eight, with zeros between. */
  ghost predicate Around(head: string, tail: string, gs: Groups) {
    exists before: seq<Group>, after: seq<Group> :: IsGroups(head, before) && IsGroups(tail, after) &&
      Fills(before, after, gs)
  }

  /** A literal: eight groups, or at most eight around one double colon that stands for the zeros missing. */
  ghost predicate IsLiteral(s: string, gs: Groups) {
    IsGroups(s, gs) || exists head: string, tail: string :: s == head + "::" + tail && Around(head, tail, gs)
  }

  lemma {:induction false} HexFromGrows(value: nat, digits: string)
    requires AllHex(digits)
    ensures HexFrom(value, digits) >= value
    decreases |digits|
  {
    if digits != [] {
      HexFromGrows(value * 16 + DigitValue(digits[0]).value, digits[1..]);
    }
  }

  lemma {:induction false} AccumulateIff(value: Group, digits: string, g: Group)
    ensures Accumulate(value, digits) == Some(g) <==> AllHex(digits) && HexFrom(value, digits) == g
    decreases |digits|
  {
    if digits != [] && DigitValue(digits[0]).Some? {
      var next := value * 16 + DigitValue(digits[0]).value;
      assert AllHex(digits) <==> AllHex(digits[1..]) by { TailHex(digits); }
      if next < 0x1_0000 {
        AccumulateIff(next, digits[1..], g);
      } else if AllHex(digits[1..]) {
        HexFromGrows(next, digits[1..]);
      }
    }
  }

  lemma TailHex(digits: string)
    requires digits != [] && DigitValue(digits[0]).Some?
    ensures AllHex(digits) <==> AllHex(digits[1..])
  {
    if AllHex(digits[1..]) {
      forall i | 0 <= i < |digits|
        ensures DigitValue(digits[i]).Some?
      {
        assert i > 0 ==> digits[i] == digits[1..][i - 1];
      }
    }
  }

  lemma ParseGroupIff(s: string, g: Group)
    ensures ParseGroup(s) == Some(g) <==> IsGroup(s, g)
  {
    hide Accumulate, HexFrom;
    var digits := if s != [] && s[0] == '+' then s[1..] else s;
    AccumulateIff(0, digits, g);
    assert s == digits || s == "+" + digits;
    if IsGroup(s, g) {
      var d :| (s == d || s == "+" + d) && d != "" && AllHex(d) && HexFrom(0, d) == g;
      assert DigitValue(d[0]).Some?;
      assert d == digits;
    }
  }

  lemma {:induction false} ParseAllIff(parts: seq<string>, gs: seq<Group>)
    ensures ParseAll(parts) == Some(gs) <==>
            |parts| == |gs| && forall i :: 0 <= i < |gs| ==> IsGroup(parts[i], gs[i])
  {
    hide ParseGroup, IsGroup;
    if parts != [] {
      if gs != [] {
        ParseGroupIff(parts[0], gs[0]);
        ParseAllIff(parts[1..], gs[1..]);
        assert gs == [gs[0]] + gs[1..];
        HeadAndTail(parts, gs);
      }
    }
  }

  lemma HeadAndTail(parts: seq<string>, gs: seq<Group>)
    requires parts != [] && gs != []
    ensures (|parts| == |gs| && forall i :: 0 <= i < |gs| ==> IsGroup(parts[i], gs[i])) <==>
            (IsGroup(parts[0], gs[0]) && |parts[1..]| == |gs[1..]| &&
             forall i :: 0 <= i < |gs[1..]| ==> IsGroup(parts[1..][i], gs[1..][i]))
  {
    hide IsGroup;
    if IsGroup(parts[0], gs[0]) && |parts[1..]| == |gs[1..]| &&
       forall i :: 0 <= i < |gs[1..]| ==> IsGroup(parts[1..][i], gs[1..][i]) {
      forall i | 0 <= i < |gs|
        ensures IsGroup(parts[i], gs[i])
      {
        assert i > 0 ==> parts[i] == parts[1..][i - 1] && gs[i] == gs[1..][i - 1];
      }
    }
  }

  /** A group is not empty and has no colon in it. */
  lemma GroupIsPlain(s: string, g: Group)
    requires IsGroup(s, g)
    ensures PlainGroup(s)
  {
    var digits :| (s == digits || s == "+" + digits) && digits != "" && AllHex(digits) && HexFrom(0, digits) == g;
    forall i | 0 <= i < |digits|
      ensures digits[i] != ':'
    {
    }
  }

  lemma GroupsArePlain(part: string, gs: seq<Group>)
    requires IsGroups(part, gs)
    ensures part == "" <==> gs == []
    ensures part == "" || (part[|part| - 1] != ':' && forall j: nat :: !DoubleColonAt(part, j))
  {
    hide IsGroup;
    var pieces :| |pieces| == |gs| && part == Join(pieces) && forall i :: 0 <= i < |gs| ==> IsGroup(pieces[i], gs[i]);
    forall i | 0 <= i < |pieces|
      ensures PlainGroup(pieces[i])
    {
      GroupIsPlain(pieces[i], gs[i]);
    }
    if pieces != [] {
      JoinIsPlain(pieces);
    }
  }

  lemma ParseGroupsIff(part: string, gs: seq<Group>)
    ensures ParseGroups(part) == Some(gs) <==> IsGroups(part, gs)
  {
    hide IsGroup;
    if part == "" {
      if gs == [] {
        assert Join([]) == part;
      } else if IsGroups(part, gs) {
        GroupsArePlain(part, gs);
      }
    } else {
      JoinOfSplit(part);
      ParseAllIff(Split(part), gs);
      if IsGroups(part, gs) {
        PiecesAreSplit(part, gs);
      }
    }
  }

  lemma PiecesAreSplit(part: string, gs: seq<Group>)
    requires part != "" && IsGroups(part, gs)
    ensures |Split(part)| == |gs| && forall i :: 0 <= i < |gs| ==> IsGroup(Split(part)[i], gs[i])
  {
    hide IsGroup;
    var pieces :| |pieces| == |gs| && part == Join(pieces) && forall i :: 0 <= i < |gs| ==> IsGroup(pieces[i], gs[i]);
    forall i | 0 <= i < |pieces|
      ensures ':' !in pieces[i]
    {
      GroupIsPlain(pieces[i], gs[i]);
    }
    SplitOfJoin(pieces);
  }

  lemma GroupsOfOctets(gs: Groups)
    ensures GroupsOf(OctetsOf(gs)) == gs
  {
    forall k | 0 <= k < 8
      ensures GroupsOf(OctetsOf(gs))[k] == gs[k]
    {
      var i, j := 2 * k, 2 * k + 1;
      assert i / 2 == k && i % 2 == 0 && j / 2 == k && j % 2 == 1;
      var a := OctetsOf(gs);
      assert a[i] == gs[k] / 0x100 && a[j] == gs[k] % 0x100;
      hide OctetsOf;
      assert GroupsOf(a)[k] == BigEndian16(a[i], a[j]);
    }
  }

  /** The double colon of a literal is the first one in it. */
  lemma AroundSplits(head: string, tail: string, gs: Groups)
    requires Around(head, tail, gs)
    ensures var s := head + "::" + tail;
            FirstDoubleColon(s) == |head| < |s| && s[..|head|] == head && s[|head| + 2..] == tail
  {
    hide IsGroups, Fills;
    var before: seq<Group>, after: seq<Group> :| IsGroups(head, before) && IsGroups(tail, after) &&
      Fills(before, after, gs);
    GroupsArePlain(head, before);
    SplitAtDoubleColon(head, tail);
  }

  lemma GroupsHaveNone(s: string, gs: seq<Group>)
    requires IsGroups(s, gs)
    ensures FirstDoubleColon(s) == |s|
  {
    hide IsGroups;
    GroupsArePlain(s, gs);
    FirstDoubleColonIs(s, |s|);
  }

  lemma PlainLiteral(s: string, gs: Groups)
    requires FirstDoubleColon(s) == |s|
    ensures IsLiteral(s, gs) <==> IsGroups(s, gs)
  {
    hide IsGroups, Around, FirstDoubleColon;
    if head: string, tail: string :| s == head + "::" + tail && Around(head, tail, gs) {
      AroundSplits(head, tail, gs);
    }
  }

  lemma LiteralAround(head: string, tail: string, gs: Groups)
    requires Around(head, tail, gs)
    ensures IsLiteral(head + "::" + tail, gs)
  {
    hide IsGroups, Around;
  }

  lemma LiteralSplits(s: string, gs: Groups)
    requires IsLiteral(s, gs) && FirstDoubleColon(s) < |s|
    ensures Around(s[..FirstDoubleColon(s)], s[FirstDoubleColon(s) + 2..], gs)
  {
    hide IsGroups, Around, FirstDoubleColon, DoubleColonAt;
    if IsGroups(s, gs) {
      GroupsHaveNone(s, gs);
    } else {
      var head: string, tail: string :| s == head + "::" + tail && Around(head, tail, gs);
      AroundSplits(head, tail, gs);
    }
  }

  lemma RejoinAtDoubleColon(s: string, i: nat)
    requires DoubleColonAt(s, i)
    ensures s == s[..i] + "::" + s[i + 2..]
  {
    assert s[i..i + 2] == "::";
    assert s == s[..i] + s[i..i + 2] + s[i + 2..];
  }

  lemma CompressedLiteral(s: string, gs: Groups)
    requires FirstDoubleColon(s) < |s|
    ensures IsLiteral(s, gs) <==> Around(s[..FirstDoubleColon(s)], s[FirstDoubleColon(s) + 2..], gs)
  {
    hide IsLiteral, Around, FirstDoubleColon;
    var i := FirstDoubleColon(s);
    RejoinAtDoubleColon(s, i);
    if Around(s[..i], s[i + 2..], gs) {
      LiteralAround(s[..i], s[i + 2..], gs);
    }
    if IsLiteral(s, gs) {
      LiteralSplits(s, gs);
    }
  }

  lemma PlacedIff(before: seq<Group>, after: seq<Group>, gs: Groups)
    ensures Placed(before, Some(after)) == Some(gs) <==> Fills(before, after, gs)
  {
  }

  lemma OctetsIff(gs: Groups, a: Ipv6)
    ensures OctetsOf(gs) == a <==> gs == GroupsOf(a)
  {
    OctetsOfGroups(a);
    GroupsOfOctets(gs);
  }

  /** The eight groups from two texts on either side of a double colon are found exactly when the grammar has them. */
  lemma AroundIff(head: string, tail: string, gs: Groups)
    ensures Around(head, tail, gs) <==>
            && ParseGroups(head).Some? && ParseGroups(tail).Some?
            && Placed(ParseGroups(head).value, ParseGroups(tail)) == Some(gs)
  {
    hide IsGroups, ParseGroups, Placed, Fills;
    if ParseGroups(head).Some? && ParseGroups(tail).Some? {
      ParseGroupsIff(head, ParseGroups(head).value);
      ParseGroupsIff(tail, ParseGroups(tail).value);
      PlacedIff(ParseGroups(head).value, ParseGroups(tail).value, gs);
    }
    if before: seq<Group>, after: seq<Group> :|
      IsGroups(head, before) && IsGroups(tail, after) && Fills(before, after, gs) {
      ParseGroupsIff(head, before);
      ParseGroupsIff(tail, after);
      PlacedIff(before, after, gs);
    }
  }

  /** What the parser accepts, and as what, is exactly the grammar. */
  lemma ParsedIff(s: string, a: Ipv6)
    ensures Parsed(s) == Some(a) <==> IsLiteral(s, GroupsOf(a))
  {
    hide IsGroups, ParseGroups, GroupsOf, OctetsOf, IsLiteral, Around;
    var i, gs := FirstDoubleColon(s), GroupsOf(a);
    var head := ParseGroups(s[..i]);
    if i == |s| {
      assert s[..i] == s;
      PlainLiteral(s, gs);
      ParseGroupsIff(s, gs);
      if head.Some? && |head.value| == 8 {
        OctetsIff(head.value, a);
      }
    } else {
      var tail := ParseGroups(s[i + 2..]);
      CompressedLiteral(s, gs);
      AroundIff(s[..i], s[i + 2..], gs);
      hide Placed;
      if head.Some? && tail.Some? && Placed(head.value, tail).Some? {
        OctetsIff(Placed(head.value, tail).value, a);
      }
    }
  }

  // ---------------------------------------------------------------- methods

  method ReadGroups(a: Ipv6) returns (groups: array<Group>)
    ensures fresh(groups) && groups[..] == GroupsOf(a)
  {
    groups := new Group[8](_ => 0);
    for i := 0 to 8
      invariant forall k :: 0 <= k < i ==> groups[k] == GroupsOf(a)[k]
    {
      groups[i] := BigEndian16(a[i * 2], a[i * 2 + 1]);
    }
  }

  /** The scan for the run to compress; `len` is zero when no group is zero. */
  method FindLongestRun(groups: array<Group>) returns (start: nat, len: nat)
    requires groups.Length == 8
    ensures LeftmostLongest(groups[..], 8, start, len)
  {
    start, len := 0, 0;
    var i := 0;
    while i < 8
      invariant 0 <= i <= 8
      invariant i == 0 || i == 8 || groups[i - 1] != 0 || groups[i] != 0
      invariant LeftmostLongest(groups[..], i, start, len)
    {
      if groups[i] == 0 {
        var from := i;
        while i < 8 && groups[i] == 0
          invariant from <= i <= 8
          invariant ZeroRun(groups[..], from, i - from)
        {
          i := i + 1;
        }
        if i - from > len {
          start, len := from, i - from;
        }
      } else {
        i := i + 1;
      }
    }
  }

  method JoinHex(groups: array<Group>, lo: nat, hi: nat) returns (s: string)
    requires lo <= hi <= groups.Length
    ensures s == Join(HexAll(groups[lo..hi]))
  {
    s := "";
    var i := hi;
    while i > lo
      invariant lo <= i <= hi
      invariant s == Join(HexAll(groups[i..hi]))
    {
      i := i - 1;
      assert HexAll(groups[i..hi])[1..] == HexAll(groups[i + 1..hi]);
      s := if i + 1 == hi then Hex(groups[i]) else Hex(groups[i]) + ":" + s;
    }
  }

  /** The printer writes the canonical text. */
  method FormatIpv6(a: Ipv6) returns (s: string)
    ensures IsText(a, s)
  {
    var groups := ReadGroups(a);
    var start, len := FindLongestRun(groups);
    if len < 2 {
      s := JoinHex(groups, 0, 8);
      assert groups[0..8] == groups[..];
    } else {
      var head := JoinHex(groups, 0, start);
      var tail := JoinHex(groups, start + len, 8);
      s := head + "::" + tail;
      assert groups[0..start] == GroupsOf(a)[..start] && groups[start + len..8] == GroupsOf(a)[start + len..];
    }
    assert s == TextOf(GroupsOf(a), start, len);
  }

  /** Fills the eight groups from both ends. */
  method Place(head: seq<Group>, tail: Option<seq<Group>>) returns (placed: Option<Groups>)
    ensures placed == Placed(head, tail)
  {
    var groups := new Group[8](_ => 0);
    match tail {
      case Some(t) =>
        if |head| + |t| > 8 { return None; }
        for k := 0 to |head|
          invariant forall j :: 0 <= j < 8 ==> groups[j] == if j < k then head[j] else 0
        {
          groups[k] := head[k];
        }
        var tailStart := 8 - |t|;
        for k := 0 to |t|
          invariant forall j :: 0 <= j < 8 ==>
                      groups[j] == if j < |head| then head[j]
                                   else if tailStart <= j < tailStart + k then t[j - tailStart] else 0
        {
          groups[tailStart + k] := t[k];
        }
        assert groups[..] == head + seq(8 - |head| - |t|, _ => 0) + t;
      case None =>
        if |head| != 8 { return None; }
        for k := 0 to 8
          invariant groups[..k] == head[..k]
        {
          groups[k] := head[k];
        }
        assert groups[..] == head;
    }
    placed := Some(groups[..]);
  }

  method WriteOctets(gs: Groups) returns (a: Ipv6)
    ensures a == OctetsOf(gs)
  {
    var out := new byte[16](_ => 0);
    for k := 0 to 8
      invariant forall j :: 0 <= j < 2 * k ==> out[j] == OctetsOf(gs)[j]
    {
      out[k * 2] := gs[k] / 0x100;
      out[k * 2 + 1] := gs[k] % 0x100;
    }
    a := out[..];
  }

  /** The parser accepts exactly the literals of the grammar, and gives the address they write. */
  method ParseIpv6Literal(s: string) returns (parsed: Option<Ipv6>)
    ensures parsed == Parsed(s)
    ensures forall a: Ipv6 :: parsed == Some(a) <==> IsLiteral(s, GroupsOf(a))
  {
    hide IsLiteral, GroupsOf, OctetsOf, Placed;
    forall a: Ipv6
      ensures Parsed(s) == Some(a) <==> IsLiteral(s, GroupsOf(a))
    {
      ParsedIff(s, a);
    }
    var i := FirstDoubleColon(s);
    var head := ParseGroups(s[..i]);
    if head.None? { return None; }
    var tail := None;
    if i < |s| {
      tail := ParseGroups(s[i + 2..]);
      if tail.None? { return None; }
    }
    var groups := Place(head.value, tail);
    if groups.None? { return None; }
    var out := WriteOctets(groups.value);
    parsed := Some(out);
  }

  /** Printing an address and parsing the text gives the address back. */
  method FormatThenParse(a: Ipv6) returns (parsed: Option<Ipv6>)
    ensures parsed == Some(a)
  {
    var s := FormatIpv6(a);
    TextRoundTrips(a, s);
    parsed := ParseIpv6Literal(s);
  }
}
