/**
 * IPv6 fragmentation (section 4.5 of RFC 8200) from wire to wire: the unfragmentable chain of extension headers, the
 * fragment header behind it, and what the decoder rebuilds.
 */
module Ipv6Wire {
  import opened Base
  import opened Fragments
  import opened FragmentTheorems
  import opened IpWire

  /** An extension header: its kind, and everything behind its first two bytes. */
  datatype Extension = Extension(kind: byte, rest: seq<byte>)
  {
    predicate Valid() {
      && IsExtension(kind)
      && if kind == AUTHENTICATION then (|rest| + 2) % 4 == 0 && 8 <= |rest| + 2 <= 1028
         else (|rest| + 2) % 8 == 0 && 8 <= |rest| + 2 <= 2048
    }

    /**
     * The length byte: of an authentication header in 4-byte units less two, of the others in 8-byte units less one.
     */
    function Units(): byte
      requires Valid()
    {
      if kind == AUTHENTICATION then (|rest| + 2) / 4 - 2 else (|rest| + 2) / 8 - 1
    }
  }

  predicate ValidChain(chain: seq<Extension>) {
    forall i :: 0 <= i < |chain| ==> chain[i].Valid()
  }

  /** What the header before a chain names as next, `last` being what follows the chain. */
  function FirstKind(chain: seq<Extension>, last: byte): byte {
    if chain == [] then last else chain[0].kind
  }

  function ChainBytes(chain: seq<Extension>, last: byte): seq<byte>
    requires ValidChain(chain)
  {
    if chain == [] then []
    else [FirstKind(chain[1..], last), chain[0].Units()] + chain[0].rest + ChainBytes(chain[1..], last)
  }

  /** A fixed header naming what follows it and how many bytes do. */
  function FixedHeader(fixed: seq<byte>, next: byte, length: nat): (h: seq<byte>)
    requires |fixed| == 40 && length <= 0xFFFF
    ensures |h| == 40
  {
    Put16(fixed, 4, length)[6 := next]
  }

  /** A fragment header: inner protocol, offset and flag, identification. */
  function FragmentExtension(inner: byte, offset: nat, more: bool, id: u32): (h: seq<byte>)
    requires offset % 8 == 0 && offset <= 0xFFF8
    ensures |h| == 8
  {
    var field := offset + if more then 1 else 0;
    [inner, 0, field / 0x100, field % 0x100, id / 0x100_0000, (id / 0x1_0000) % 0x100, (id / 0x100) % 0x100, id % 0x100]
  }

  /**
   * A datagram to send: its fixed header (the length and next-header fields are the sender's to fill in), the chain
   * that goes with every fragment, the protocol and bytes of the part that is cut up, and the identification.
   */
  datatype Datagram = Datagram(fixed: seq<byte>, chain: seq<Extension>, inner: byte, payload: seq<byte>, id: u32)
  {
    predicate Valid() {
      PlausibleIpv6(fixed) && |fixed| == 40 && ValidChain(chain)
    }

    /** The datagram sent whole. */
    function Whole(): seq<byte>
      requires Valid() && |ChainBytes(chain, inner)| + |payload| <= 0xFFFF
    {
      var bytes := ChainBytes(chain, inner);
      FixedHeader(fixed, FirstKind(chain, inner), |bytes| + |payload|) + bytes + payload
    }

    /** What precedes the fragment header of a fragment of `n` bytes. */
    function Unfragmentable(n: nat): seq<byte>
      requires Valid() && |ChainBytes(chain, FRAGMENT)| + 8 + n <= 0xFFFF
    {
      var bytes := ChainBytes(chain, FRAGMENT);
      FixedHeader(fixed, FirstKind(chain, FRAGMENT), |bytes| + 8 + n) + bytes
    }

    function Key(): FragKey
      requires Valid()
    {
      FragKey(fixed[8..24], fixed[24..40], id, inner)
    }
  }

  predicate Fits16(d: Datagram, n: nat)
    requires d.Valid()
  {
    |ChainBytes(d.chain, FRAGMENT)| + 8 + n <= 0xFFFF
  }

  function WireFragment6(d: Datagram, offset: nat, end: nat, more: bool): seq<byte>
    requires d.Valid() && offset <= end <= |d.payload| && offset % 8 == 0 && offset <= 0xFFF8 && Fits16(d, end - offset)
  {
    d.Unfragmentable(end - offset) + FragmentExtension(d.inner, offset, more, d.id) + d.payload[offset..end]
  }

  // ----- The walk along the chain -----

  /** The bytes of a chain do not depend on what follows it, but for one. */
  lemma {:induction false} ChainLength(chain: seq<Extension>, a: byte, b: byte)
    requires ValidChain(chain)
    ensures |ChainBytes(chain, a)| == |ChainBytes(chain, b)|
  {
    if chain != [] {
      ChainLength(chain[1..], a, b);
    }
  }

  lemma UnitsGiveLength(e: Extension)
    requires e.Valid()
    ensures ExtensionLength(e.kind, e.Units()) == |e.rest| + 2
  {
  }

  /** One extension header further. */
  lemma WalkStep(ip: seq<byte>, end: nat, pos: nat, hops: nat, e: Extension)
    requires e.Valid() && hops <= 8 && pos + |e.rest| + 2 <= end <= |ip| && ip[pos + 1] == e.Units()
    ensures Walked(ip, end, e.kind, pos, hops) == Walked(ip, end, ip[pos], pos + |e.rest| + 2, hops + 1)
  {
    UnitsGiveLength(e);
    hide FragmentAt;
  }

  lemma WalkEnds(ip: seq<byte>, end: nat, next: byte, pos: nat, hops: nat)
    requires pos + 8 <= end <= |ip|
    ensures hops > 8 ==> Walked(ip, end, next, pos, hops) == None
    ensures hops <= 8 && next == FRAGMENT ==> Walked(ip, end, next, pos, hops) == FragmentAt(ip, pos, end)
  {
    hide FragmentAt;
  }

  lemma NoChain(last: byte)
    ensures ChainBytes([], last) == []
  {
  }

  lemma ChainUnfolds(chain: seq<Extension>, last: byte)
    requires ValidChain(chain) && chain != []
    ensures ChainBytes(chain, last) ==
      [FirstKind(chain[1..], last), chain[0].Units()] + (chain[0].rest + ChainBytes(chain[1..], last))
  {
  }

  lemma SliceOfSlice(ip: seq<byte>, pos: nat, n: nat, from: nat, m: nat)
    requires pos + n <= |ip| && from + m == n && n >= 2
    ensures ip[pos] == ip[pos..pos + n][0] && ip[pos + 1] == ip[pos..pos + n][1]
    ensures ip[pos + from..pos + from + m] == ip[pos..pos + n][from..]
  {
  }

  /** Where in a packet the first header of a chain and the rest of it stand. */
  lemma ChainSplits(ip: seq<byte>, pos: nat, chain: seq<Extension>, last: byte)
    requires ValidChain(chain) && chain != []
    requires pos + |ChainBytes(chain, last)| <= |ip|
    requires ip[pos..pos + |ChainBytes(chain, last)|] == ChainBytes(chain, last)
    ensures var length, rest := |chain[0].rest| + 2, ChainBytes(chain[1..], last);
      && |ChainBytes(chain, last)| == length + |rest|
      && ip[pos] == FirstKind(chain[1..], last) && ip[pos + 1] == chain[0].Units()
      && ip[pos + length..pos + length + |rest|] == rest
  {
    hide ChainBytes, FirstKind, Extension.Units, Extension.Valid;
    ChainUnfolds(chain, last);
    var bytes, rest := ChainBytes(chain, last), ChainBytes(chain[1..], last);
    var length := |chain[0].rest| + 2;
    assert bytes[length..] == rest;
    SliceOfSlice(ip, pos, |bytes|, length, |rest|);
  }

  /**
   * Standing at a chain that leads to a fragment header, the walk reaches it if and only if no more than eight headers
   * come before it in all.
   */
  lemma {:induction false} WalkReaches(ip: seq<byte>, end: nat, pos: nat, hops: nat, chain: seq<Extension>)
    requires ValidChain(chain)
    requires pos + |ChainBytes(chain, FRAGMENT)| + 8 <= end <= |ip|
    requires ip[pos..pos + |ChainBytes(chain, FRAGMENT)|] == ChainBytes(chain, FRAGMENT)
    ensures Walked(ip, end, FirstKind(chain, FRAGMENT), pos, hops) ==
      if hops + |chain| <= 8 then FragmentAt(ip, pos + |ChainBytes(chain, FRAGMENT)|, end) else None
    decreases |chain|
  {
    hide FragmentAt, Walked, ChainBytes;
    if hops > 8 || chain == [] {
      WalkEnds(ip, end, FirstKind(chain, FRAGMENT), pos, hops);
      assert chain == [] ==> ChainBytes(chain, FRAGMENT) == [] by {
        NoChain(FRAGMENT);
      }
    } else {
      ChainSplits(ip, pos, chain, FRAGMENT);
      WalkStep(ip, end, pos, hops, chain[0]);
      WalkReaches(ip, end, pos + |chain[0].rest| + 2, hops + 1, chain[1..]);
    }
  }

  // ----- One fragment -----

  lemma FixedHeaderFields(fixed: seq<byte>, next: byte, length: nat)
    requires |fixed| == 40 && length <= 0xFFFF
    ensures var h := FixedHeader(fixed, next, length);
      && BigEndian16(h[4], h[5]) == length && h[6] == next
      && forall i :: 0 <= i < 40 && i != 4 && i != 5 && i != 6 ==> h[i] == fixed[i]
  {
    Put16Reads(fixed, 4, length);
  }

  lemma UnfragmentableFields(d: Datagram, n: nat)
    requires d.Valid() && Fits16(d, n)
    ensures var h, bytes := d.Unfragmentable(n), ChainBytes(d.chain, FRAGMENT);
      && |h| == 40 + |bytes| && PlausibleIpv6(h)
      && BigEndian16(h[4], h[5]) == |bytes| + 8 + n && h[6] == FirstKind(d.chain, FRAGMENT)
      && (forall i :: 0 <= i < 40 && i != 4 && i != 5 && i != 6 ==> h[i] == d.fixed[i])
      && h[40..] == bytes
  {
    hide FixedHeader, ChainBytes, BigEndian16;
    FixedHeaderFields(d.fixed, FirstKind(d.chain, FRAGMENT), |ChainBytes(d.chain, FRAGMENT)| + 8 + n);
  }

  lemma IdBytes(id: u32)
    ensures BigEndian32(id / 0x100_0000, (id / 0x1_0000) % 0x100, (id / 0x100) % 0x100, id % 0x100) == id
  {
    var a, b := id / 0x100_0000, (id / 0x1_0000) % 0x100;
    assert id / 0x1_0000 == a * 0x100 + b;
    assert id / 0x100 == (id / 0x1_0000) * 0x100 + (id / 0x100) % 0x100;
  }

  lemma FragmentExtensionField(inner: byte, offset: nat, more: bool, id: u32)
    requires offset % 8 == 0 && offset <= 0xFFF8
    ensures var h := FragmentExtension(inner, offset, more, id);
      && h[0] == inner && BigEndian16(h[2], h[3]) == offset + (if more then 1 else 0)
      && h[4] == id / 0x100_0000 && h[5] == (id / 0x1_0000) % 0x100 && h[6] == (id / 0x100) % 0x100 &&
        h[7] == id % 0x100
  {
  }

  /** The fragment header alone is read back. */
  lemma FragmentAtReads(ip: seq<byte>, pos: nat, end: nat, inner: byte, offset: nat, more: bool, id: u32)
    requires pos + 8 <= end <= |ip| && offset % 8 == 0 && offset <= 0xFFF8 && (more || offset > 0)
    requires ip[pos..pos + 8] == FragmentExtension(inner, offset, more, id)
    ensures FragmentAt(ip, pos, end) == Some(Ipv6Fragment(id, offset, more, inner, pos, ip[pos + 8..end]))
  {
    hide BigEndian32, BigEndian16, FragmentExtension;
    IdBytes(id);
    FragmentExtensionField(inner, offset, more, id);
    EightBytes(ip, pos, FragmentExtension(inner, offset, more, id));
    FieldParts(offset, more);
  }

  lemma EightBytes(ip: seq<byte>, pos: nat, h: seq<byte>)
    requires pos + 8 <= |ip| && ip[pos..pos + 8] == h
    ensures ip[pos] == h[0] && ip[pos + 2] == h[2] && ip[pos + 3] == h[3]
    ensures ip[pos + 4] == h[4] && ip[pos + 5] == h[5] && ip[pos + 6] == h[6] && ip[pos + 7] == h[7]
  {
  }

  lemma FieldParts(offset: nat, more: bool)
    requires offset % 8 == 0
    ensures var field := offset + (if more then 1 else 0);
      (field / 8) * 8 == offset && (field % 2 == 1 <==> more)
  {
  }

  /**
   * A packet made of a chain, a fragment header and data, with anything behind it, is walked to its fragment header.
   */
  lemma {:induction false} ParsesConcat(d: Datagram, n: nat, f: seq<byte>, data: seq<byte>, padding: seq<byte>)
    requires d.Valid() && Fits16(d, n) && |f| == 8 && |data| == n
    ensures var h := d.Unfragmentable(n);
      var ip := h + f + data + padding;
      && ip[|h|..|h| + 8] == f && ip[|h| + 8..|h| + 8 + n] == data && ip[..|h|] == h
      && ParsedIpv6Fragment(ip) == if |d.chain| <= 8 then FragmentAt(ip, |h|, |h| + 8 + n) else None
  {
    hide ChainBytes, Walked, FragmentAt, BigEndian16, Datagram.Unfragmentable;
    UnfragmentableFields(d, n);
    var h, bytes := d.Unfragmentable(n), ChainBytes(d.chain, FRAGMENT);
    var ip := h + f + data + padding;
    assert ip == h + (f + data + padding);
    assert forall i :: 0 <= i < 40 ==> ip[i] == h[i];
    assert Ipv6End(ip) == |h| + 8 + n;
    assert ip[40..40 + |bytes|] == h[40..];
    WalkReaches(ip, |h| + 8 + n, 40, 0, d.chain);
  }

  function Piece6(d: Datagram, offset: nat, end: nat, more: bool): Fragment
    requires d.Valid() && offset <= end <= |d.payload| && Fits16(d, end - offset)
  {
    Fragment(d.Key(), offset, more, d.payload[offset..end], d.Unfragmentable(end - offset), Some(d.inner))
  }

  /**
   * A fragment on the wire, link padding behind it or not, parses to its own place, flag, key, headers and bytes if and
   * only if at most eight extension headers come before its fragment header; past that it is not taken for a fragment.
   */
  lemma {:induction false} WireFragment6Parses(d: Datagram, offset: nat, end: nat, more: bool, padding: seq<byte>)
    requires d.Valid() && offset <= end <= |d.payload| && offset % 8 == 0 && offset <= 0xFFF8 && Fits16(d, end - offset)
    requires more || offset > 0
    ensures DecodeFragment(ETHER_IPV6, WireFragment6(d, offset, end, more) + padding) ==
      if |d.chain| <= 8 then Some(Piece6(d, offset, end, more)) else None
  {
    hide ParsedIpv6Fragment, Datagram.Unfragmentable, FragmentExtension, FragmentAt, BigEndian16, ChainBytes;
    var n := end - offset;
    var h, f, data := d.Unfragmentable(n), FragmentExtension(d.inner, offset, more, d.id), d.payload[offset..end];
    UnfragmentableFields(d, n);
    ParsesConcat(d, n, f, data, padding);
    var ip := h + f + data + padding;
    FragmentAtReads(ip, |h|, |h| + 8 + n, d.inner, offset, more, d.id);
    assert ip[8..24] == d.fixed[8..24] && ip[24..40] == d.fixed[24..40];
  }

  /** A datagram that is its own only fragment is not held back: it is not taken for a fragment. */
  lemma AtomicFragmentPasses(d: Datagram, padding: seq<byte>)
    requires d.Valid() && Fits16(d, |d.payload|)
    ensures DecodeFragment(ETHER_IPV6, WireFragment6(d, 0, |d.payload|, false) + padding) == None
  {
    hide ParsedIpv6Fragment, Datagram.Unfragmentable, FragmentExtension, FragmentAt, BigEndian16;
    var n := |d.payload|;
    var h, f := d.Unfragmentable(n), FragmentExtension(d.inner, 0, false, d.id);
    ParsesConcat(d, n, f, d.payload[0..n], padding);
    var ip := h + f + d.payload[0..n] + padding;
    FragmentExtensionField(d.inner, 0, false, d.id);
    AtomicReads(ip, |h|, |h| + 8 + n, f);
  }

  lemma AtomicReads(ip: seq<byte>, pos: nat, end: nat, f: seq<byte>)
    requires pos + 8 <= end <= |ip| && |f| == 8 && ip[pos..pos + 8] == f && BigEndian16(f[2], f[3]) == 0
    ensures FragmentAt(ip, pos, end) == None
  {
    assert ip[pos + 2] == ip[pos..pos + 8][2] && ip[pos + 3] == ip[pos..pos + 8][3];
  }

  // ----- The datagram that comes back -----

  /** The fixed header with the next header and the length of a payload alone, and the payload. */
  function Unchained(d: Datagram): seq<byte>
    requires d.Valid() && |d.payload| <= 0xFFFF
  {
    FixedHeader(d.fixed, d.inner, |d.payload|) + d.payload
  }

  /** Whatever fragment's headers are used, what is rebuilt is the datagram without its chain. */
  lemma RebuiltIsUnchained(d: Datagram, n: nat)
    requires d.Valid() && Fits16(d, n) && |d.payload| <= 0xFFFF
    ensures RebuildDatagram(d.Unfragmentable(n), Some(d.inner), d.payload) == Unchained(d)
    ensures d.chain == [] ==> d.Whole() == Unchained(d)
  {
    hide ChainBytes, BigEndian16, Datagram.Unfragmentable;
    UnfragmentableFields(d, n);
    var h := d.Unfragmentable(n);
    assert Put16(h[..40], 4, |d.payload|)[6 := d.inner] == FixedHeader(d.fixed, d.inner, |d.payload|);
    if d.chain == [] {
      NoChain(d.inner);
      assert FixedHeader(d.fixed, d.inner, |d.payload|) + [] == FixedHeader(d.fixed, d.inner, |d.payload|);
    }
  }

  /** A datagram cut into at least two pieces, on 8-byte boundaries, each small enough to be sent. */
  ghost predicate Fragmented6(d: Datagram, cuts: seq<nat>, order: seq<nat>) {
    && d.Valid() && |d.chain| <= 8 && |d.payload| <= 0xFFFF
    && |cuts| >= 3 && IsPartition(cuts, d.payload) && IsPermutation(order, Pieces(cuts))
    && forall i :: 0 <= i < Pieces(cuts) ==>
         cuts[i] % 8 == 0 && cuts[i] <= 0xFFF8 && cuts[i] <= cuts[i + 1] && Fits16(d, cuts[i + 1] - cuts[i])
  }

  ghost function SendingOf6(d: Datagram, cuts: seq<nat>, order: seq<nat>, start: int): (s: Sending)
    requires Fragmented6(d, cuts, order)
    ensures s.Valid()
  {
    UnfragmentableFields(d, cuts[1] - cuts[0]);
    Sending(d.Key(), d.payload, cuts, order, d.Unfragmentable(cuts[1] - cuts[0]), Some(d.inner), start)
  }

  ghost function WirePiece6(d: Datagram, cuts: seq<nat>, order: seq<nat>, i: nat): seq<byte>
    requires Fragmented6(d, cuts, order) && i < Pieces(cuts)
  {
    CutInside(d, cuts, order, i);
    WireFragment6(d, cuts[i], cuts[i + 1], i + 1 < Pieces(cuts))
  }

  lemma CutInside(d: Datagram, cuts: seq<nat>, order: seq<nat>, i: nat)
    requires Fragmented6(d, cuts, order) && i < Pieces(cuts)
    ensures cuts[i] < cuts[i + 1] <= |d.payload| && (i == 0 <==> cuts[i] == 0)
  {
    hide Fits16, IsPermutation;
    assert i > 0 ==> cuts[0] < cuts[i];
  }

  ghost function WirePieces6(d: Datagram, cuts: seq<nat>, order: seq<nat>): seq<seq<byte>>
    requires Fragmented6(d, cuts, order)
  {
    seq(|order|, k requires 0 <= k < |order| => WirePiece6(d, cuts, order, order[k]))
  }

  lemma {:induction false} Piece6IsSent(d: Datagram, cuts: seq<nat>, order: seq<nat>, start: int, k: nat)
    requires Fragmented6(d, cuts, order) && k < |order|
    ensures var i := order[k];
      && cuts[i] < cuts[i + 1] <= |d.payload|
      && SendingOf6(d, cuts, order, start).Sends(k, Piece6(d, cuts[i], cuts[i + 1], i + 1 < Pieces(cuts)))
  {
    hide Datagram.Unfragmentable, Datagram.Key, Fits16;
    CutInside(d, cuts, order, order[k]);
  }

  lemma {:induction false} WirePiece6IsSent(d: Datagram, cuts: seq<nat>, order: seq<nat>, start: int, k: nat,
      padding: seq<byte>)
    requires Fragmented6(d, cuts, order) && k < |order|
    ensures ReadAs(SendingOf6(d, cuts, order, start), ETHER_IPV6, k, WirePiece6(d, cuts, order, order[k]) + padding)
  {
    hide WireFragment6, DecodeFragment, Piece6, Sending.Sends, SendingOf6;
    var i := order[k];
    CutInside(d, cuts, order, i);
    Piece6IsSent(d, cuts, order, start, k);
    WireFragment6Parses(d, cuts[i], cuts[i + 1], i + 1 < Pieces(cuts), padding);
  }

  lemma {:induction false} WirePieces6AreCarried(d: Datagram, cuts: seq<nat>, order: seq<nat>, start: int)
    requires Fragmented6(d, cuts, order)
    ensures Carried(SendingOf6(d, cuts, order, start), ETHER_IPV6, WirePieces6(d, cuts, order))
  {
    hide ReadAs, WirePiece6, Fragmented6;
    var s, wires := SendingOf6(d, cuts, order, start), WirePieces6(d, cuts, order);
    forall k: nat, captured: seq<byte> | k < |wires| && wires[k] <= captured
      ensures ReadAs(s, ETHER_IPV6, k, captured)
    {
      WirePiece6IsSent(d, cuts, order, start, k, captured[|wires[k]|..]);
      assert captured == wires[k] + captured[|wires[k]|..];
    }
  }

  lemma Sending6Fields(d: Datagram, cuts: seq<nat>, order: seq<nat>, start: int)
    requires Fragmented6(d, cuts, order)
    ensures var s := SendingOf6(d, cuts, order, start);
      && s.Valid() && s.key == d.Key() && s.cuts == cuts && s.order == order
      && RebuildDatagram(s.header, s.nextHeader, s.payload) == Unchained(d)
  {
    hide RebuildDatagram, Unchained, Datagram.Unfragmentable;
    RebuiltIsUnchained(d, cuts[1] - cuts[0]);
  }

  /**
   * From wire to wire. An IPv6 datagram behind at most eight extension headers, cut on 8-byte boundaries, its fragments
   * captured in any order among any other frames and with any link padding: the decoder hands back, once, at the last
   * fragment, its fixed header and its payload without the chain between them, which is the datagram itself when there
   * was no chain.
   */
  lemma {:induction false} Ipv6SurvivesFragmentation(
    limits: Limits, d: Defrag, g: Datagram, cuts: seq<nat>, order: seq<nat>, start: int, frames: seq<Frame>)
    requires Fragmented6(g, cuts, order) && SendingOf6(g, cuts, order, start).Fits(limits)
    requires TableSound(d) && g.Key() !in d.table
    requires Captured(limits, d, SendingOf6(g, cuts, order, start), ETHER_IPV6, WirePieces6(g, cuts, order), 0, frames)
    ensures Yields(limits, d, g.Key(), DecodedAll(frames)) == Silence(Pieces(cuts), Unchained(g))
    ensures g.chain == [] ==> g.Whole() == Unchained(g)
  {
    hide Captured, Carried, Yields, WirePieces6, SendingOf6, TableSound, RebuildDatagram, DecodedAll, Unchained;
    hide Datagram.Key, IsPartition, IsPermutation, Datagram.Whole;
    RebuiltIsUnchained(g, cuts[1] - cuts[0]);
    Sending6Fields(g, cuts, order, start);
    WirePieces6AreCarried(g, cuts, order, start);
    CapturedIsRebuilt(limits, d, SendingOf6(g, cuts, order, start), ETHER_IPV6, WirePieces6(g, cuts, order), frames);
  }
}
