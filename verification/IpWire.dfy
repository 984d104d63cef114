/**
 * The IP headers around reassembly: recognising an IPv4 fragment, finding a datagram's payload,
 * and the full circle from a datagram through its fragments on the wire and back.
 */
module IpWire {
  import opened Base
  import opened Fragments
  import opened FragmentTheorems

  const ETHER_IPV4: int := 0x0800
  const ETHER_IPV6: int := 0x86DD

  datatype Ipv4Fragment = Ipv4Fragment(id: int, offset: nat, more: bool, protocol: byte, header: seq<byte>,
      payload: seq<byte>)

  /** Header length in bytes, as the low nibble of the first byte declares it. */
  function HeaderLength(ip: seq<byte>): nat
    requires |ip| > 0
  {
    (ip[0] % 16) * 4
  }

  predicate PlausibleIpv4(ip: seq<byte>) {
    |ip| >= 20 && ip[0] / 16 == 4 && 20 <= HeaderLength(ip) <= |ip|
  }

  /** The declared total length, or everything there is when the declaration makes no sense. */
  function TotalLength(ip: seq<byte>): nat
    requires PlausibleIpv4(ip)
  {
    var declared := BigEndian16(ip[2], ip[3]);
    if declared > |ip| || declared < HeaderLength(ip) then |ip| else declared
  }

  function ParseIpv4Fragment(ip: seq<byte>): Option<Ipv4Fragment> {
    if !PlausibleIpv4(ip) then None
    else
      var field := BigEndian16(ip[6], ip[7]);
      var offset := (field % 0x2000) * 8;
      var more := (field / 0x2000) % 2 == 1;
      if !more && offset == 0 then None
      else
        var ihl := HeaderLength(ip);
        Some(Ipv4Fragment(BigEndian16(ip[4], ip[5]), offset, more, ip[9], ip[..ihl], ip[ihl..TotalLength(ip)]))
  }

  datatype Ipv6Fragment = Ipv6Fragment(id: u32, offset: nat, more: bool, nextHeader: byte, unfragmentable: nat,
      payload: seq<byte>)

  const HOP_BY_HOP: byte := 0
  const ROUTING: byte := 43
  const FRAGMENT: byte := 44
  const AUTHENTICATION: byte := 51
  const DESTINATION_OPTIONS: byte := 60

  /** The extension headers that may stand before a fragment header. */
  predicate IsExtension(kind: byte) {
    kind == HOP_BY_HOP || kind == ROUTING || kind == DESTINATION_OPTIONS || kind == AUTHENTICATION
  }

  /** The length in bytes that an extension header's second byte declares. */
  function ExtensionLength(kind: byte, units: int): (n: int)
    ensures units >= 0 ==> n >= 8
  {
    if kind == AUTHENTICATION then (units + 2) * 4 else (units + 1) * 8
  }

  function BigEndian32(a: int, b: int, c: int, d: int): int {
    ((a * 0x100 + b) * 0x100 + c) * 0x100 + d
  }

  predicate PlausibleIpv6(ip: seq<byte>) {
    |ip| >= 40 && ip[0] / 16 == 6
  }

  /** Where the declared payload ends, or the end of the capture when it was cut short. */
  function Ipv6End(ip: seq<byte>): (end: nat)
    requires PlausibleIpv6(ip)
    ensures 40 <= end <= |ip|
  {
    var declared := 40 + BigEndian16(ip[4], ip[5]);
    if declared > |ip| then |ip| else declared
  }

  /** What a fragment header at `pos` says, unless the datagram is whole after all. */
  function FragmentAt(ip: seq<byte>, pos: nat, end: nat): Option<Ipv6Fragment>
    requires pos + 8 <= end <= |ip|
  {
    var field := BigEndian16(ip[pos + 2], ip[pos + 3]);
    var offset := (field / 8) * 8;
    var more := field % 2 == 1;
    if !more && offset == 0 then None
    else
      Some(Ipv6Fragment(BigEndian32(ip[pos + 4], ip[pos + 5], ip[pos + 6], ip[pos + 7]), offset, more, ip[pos], pos,
                        ip[pos + 8..end]))
  }

  /** The walk along the chain of extension headers, at most nine headers long. */
  function Walked(ip: seq<byte>, end: nat, next: byte, pos: nat, hops: nat): Option<Ipv6Fragment>
    requires pos <= end <= |ip|
    decreases 9 - hops
  {
    if hops > 8 then None
    else if next == FRAGMENT then
      if pos + 8 > end then None else FragmentAt(ip, pos, end)
    else if !IsExtension(next) || pos + 2 > end then None
    else
      var length := ExtensionLength(next, ip[pos + 1]);
      if pos + length > end then None else Walked(ip, end, ip[pos], pos + length, hops + 1)
  }

  function ParsedIpv6Fragment(ip: seq<byte>): Option<Ipv6Fragment> {
    if !PlausibleIpv6(ip) then None else Walked(ip, Ipv6End(ip), ip[6], 40, 0)
  }

  method ParseIpv6Fragment(ip: seq<byte>) returns (r: Option<Ipv6Fragment>)
    ensures r == ParsedIpv6Fragment(ip)
  {
    hide FragmentAt, BigEndian16, ExtensionLength, IsExtension;
    if !PlausibleIpv6(ip) {
      return None;
    }
    var end := Ipv6End(ip);
    var next, pos, hops := ip[6], 40, 0;
    while hops <= 8
      invariant 40 <= pos <= end && 0 <= hops <= 9
      invariant ParsedIpv6Fragment(ip) == Walked(ip, end, next, pos, hops)
      decreases 9 - hops
    {
      if next == FRAGMENT {
        if pos + 8 > end {
          return None;
        }
        return FragmentAt(ip, pos, end);
      }
      if !IsExtension(next) || pos + 2 > end {
        return None;
      }
      var length := ExtensionLength(next, ip[pos + 1]);
      if pos + length > end {
        return None;
      }
      next, pos, hops := ip[pos], pos + length, hops + 1;
    }
    return None;
  }

  /** The protocol an IP datagram carries, and its payload. */
  function IpPayload(etherType: int, ip: seq<byte>): Option<(byte, seq<byte>)> {
    if etherType == ETHER_IPV4 then
      if !PlausibleIpv4(ip) then None
      else Some((ip[9], ip[HeaderLength(ip)..TotalLength(ip)]))
    else if etherType == ETHER_IPV6 then
      if !PlausibleIpv6(ip) then None else Some((ip[6], ip[40..Ipv6End(ip)]))
    else None
  }

  function Ipv4Key(ip: seq<byte>): FragKey
    requires |ip| >= 20
  {
    FragKey(ip[12..16], ip[16..20], BigEndian16(ip[4], ip[5]), ip[9])
  }

  function Ipv6Key(ip: seq<byte>, f: Ipv6Fragment): FragKey
    requires |ip| >= 40
  {
    FragKey(ip[8..24], ip[24..40], f.id, f.nextHeader)
  }

  /** What the decoder offers to the reassembler for an IP packet, if it is a fragment. */
  function DecodeFragment(etherType: int, ip: seq<byte>): Option<Fragment> {
    if etherType == ETHER_IPV4 then
      match ParseIpv4Fragment(ip)
      case None => None
      case Some(f) => Some(Fragment(Ipv4Key(ip), f.offset, f.more, f.payload, f.header, None))
    else if etherType == ETHER_IPV6 then
      match ParsedIpv6Fragment(ip)
      case None => None
      case Some(f) =>
        Some(Fragment(Ipv6Key(ip, f), f.offset, f.more, f.payload, Prefix(ip, f.unfragmentable), Some(f.nextHeader)))
    else None
  }

  /** What is taken for an IP datagram: its version, and a header that is all there. */
  lemma PayloadIff(etherType: int, ip: seq<byte>)
    ensures IpPayload(etherType, ip).Some? <==>
      || (etherType == 0x0800 && |ip| >= 20 && 0x45 <= ip[0] <= 0x4f && 4 * (ip[0] - 0x40) <= |ip|)
      || (etherType == 0x86DD && |ip| >= 40 && 0x60 <= ip[0] <= 0x6f)
    ensures DecodeFragment(etherType, ip).Some? ==> IpPayload(etherType, ip).Some?
  {
    hide BigEndian16, Walked;
  }

  /** Fragments are put together exactly when source, destination, identification and protocol are the same. */
  lemma SameIpv4KeyIff(a: seq<byte>, b: seq<byte>)
    requires |a| >= 20 && |b| >= 20
    ensures Ipv4Key(a) == Ipv4Key(b) <==>
      a[12..16] == b[12..16] && a[16..20] == b[16..20] && a[4] == b[4] && a[5] == b[5] && a[9] == b[9]
  {
  }

  /** The same for IPv6, the protocol being what the fragment header names; and the families never mix. */
  lemma SameIpv6KeyIff(a: seq<byte>, f: Ipv6Fragment, b: seq<byte>, g: Ipv6Fragment, c: seq<byte>)
    requires |a| >= 40 && |b| >= 40 && |c| >= 20
    ensures Ipv6Key(a, f) == Ipv6Key(b, g) <==>
      a[8..24] == b[8..24] && a[24..40] == b[24..40] && f.id == g.id && f.nextHeader == g.nextHeader
    ensures Ipv6Key(a, f) != Ipv4Key(c)
  {
    assert |Ipv6Key(a, f).src| != |Ipv4Key(c).src|;
  }

  /** An IPv4 header on its own, as it comes off a fragment. */
  predicate Ipv4Header(header: seq<byte>) {
    PlausibleIpv4(header) && HeaderLength(header) == |header|
  }

  lemma Put16Reads(s: seq<byte>, at: nat, n: nat)
    requires at + 2 <= |s| && n < 0x1_0000
    ensures BigEndian16(Put16(s, at, n)[at], Put16(s, at, n)[at + 1]) == n
    ensures |Put16(s, at, n)| == |s|
    ensures forall i :: 0 <= i < |s| && i != at && i != at + 1 ==> Put16(s, at, n)[i] == s[i]
  {
  }

  /**
   * A rebuilt IPv4 datagram is the first fragment's header, patched in its length and fragment fields alone, and then
   * the payload. It is never a fragment again, and it carries exactly the reassembled payload if and only if header and
   * payload together fit the 16-bit total length. Past that the length field is clamped, and what is read back is the
   * payload cut short.
   */
  lemma RebuiltIpv4(header: seq<byte>, payload: seq<byte>)
    requires Ipv4Header(header)
    ensures var ip := RebuildDatagram(header, None, payload);
      && |ip| == |header| + |payload| && ip[|header|..] == payload
      && (forall i :: 0 <= i < |header| && i != 2 && i != 3 && i != 6 && i != 7 ==> ip[i] == header[i])
      && ParseIpv4Fragment(ip) == None
      && (IpPayload(ETHER_IPV4, ip) == Some((header[9], payload)) <==> |header| + |payload| <= 0xFFFF)
      && (|header| + |payload| > 0xFFFF ==>
            IpPayload(ETHER_IPV4, ip) == Some((header[9], payload[..0xFFFF - |header|])))
  {
    var total := Min(|header| + |payload|, 0xFFFF);
    var patched := Put16(header, 2, total)[6 := 0][7 := 0];
    Put16Reads(header, 2, total);
    var ip := RebuildDatagram(header, None, payload);
    assert ip == patched + payload;
    assert ip[0] == header[0] && ip[9] == header[9] && BigEndian16(ip[2], ip[3]) == total;
    assert TotalLength(ip) == total;
    if |header| + |payload| <= 0xFFFF {
      assert ip[|header|..total] == payload;
    } else {
      assert ip[|header|..total] == payload[..0xFFFF - |header|];
    }
  }

  /**
   * The same for IPv6: of the first fragment's headers the fixed 40 bytes, all but the payload length and the next
   * header as they were, and then the payload; the length field counts the payload alone.
   */
  lemma RebuiltIpv6(header: seq<byte>, next: byte, payload: seq<byte>)
    requires PlausibleIpv6(header)
    ensures var ip := RebuildDatagram(header, Some(next), payload);
      && |ip| == 40 + |payload| && ip[40..] == payload
      && (forall i :: 0 <= i < 40 && i != 4 && i != 5 && i != 6 ==> ip[i] == header[i])
      && ip[6] == next
      && (IpPayload(ETHER_IPV6, ip) == Some((next, payload)) <==> |payload| <= 0xFFFF)
      && (|payload| > 0xFFFF ==> IpPayload(ETHER_IPV6, ip) == Some((next, payload[..0xFFFF])))
  {
    var declared := Min(|payload|, 0xFFFF);
    var patched := Put16(header[..40], 4, declared)[6 := next];
    Put16Reads(header[..40], 4, declared);
    var ip := RebuildDatagram(header, Some(next), payload);
    assert ip == patched + payload && |ip| == 40 + |payload|;
    assert ip[0] == header[0] && ip[6] == next && BigEndian16(ip[4], ip[5]) == declared;
    assert Ipv6End(ip) == 40 + declared;
    assert ip[40..40 + declared] == payload[..declared];
    assert |payload[..declared]| == declared;
    assert |payload| <= 0xFFFF ==> payload[..declared] == payload;
  }

  /**
   * Bytes a link adds behind a datagram whose length field is right are not part of it; one whose field declares more
   * than was captured, or less than its own header, is taken as far as it goes.
   */
  lemma PaddingIsTrimmed(ip: seq<byte>, padding: seq<byte>)
    requires PlausibleIpv4(ip)
    ensures BigEndian16(ip[2], ip[3]) == |ip| ==>
      && ParseIpv4Fragment(ip + padding) == ParseIpv4Fragment(ip)
      && IpPayload(ETHER_IPV4, ip + padding) == Some((ip[9], ip[HeaderLength(ip)..]))
    ensures BigEndian16(ip[2], ip[3]) > |ip| || BigEndian16(ip[2], ip[3]) < HeaderLength(ip) ==>
      IpPayload(ETHER_IPV4, ip) == Some((ip[9], ip[HeaderLength(ip)..]))
  {
    var longer := ip + padding;
    assert forall i :: 0 <= i < 20 ==> longer[i] == ip[i];
    hide BigEndian16;
    assert PlausibleIpv4(longer) && HeaderLength(longer) == HeaderLength(ip);
    assert ip[HeaderLength(ip)..|ip|] == ip[HeaderLength(ip)..];
    if BigEndian16(ip[2], ip[3]) == |ip| {
      assert TotalLength(longer) == |ip| == TotalLength(ip);
      assert longer[HeaderLength(ip)..|ip|] == ip[HeaderLength(ip)..];
      assert longer[..HeaderLength(ip)] == ip[..HeaderLength(ip)];
    }
  }

  /** The same for IPv6, whose length field leaves the fixed header out. */
  lemma Ipv6PaddingIsTrimmed(ip: seq<byte>, padding: seq<byte>)
    requires PlausibleIpv6(ip)
    ensures BigEndian16(ip[4], ip[5]) == |ip| - 40 ==> IpPayload(ETHER_IPV6, ip + padding) == Some((ip[6], ip[40..]))
    ensures BigEndian16(ip[4], ip[5]) > |ip| - 40 ==> IpPayload(ETHER_IPV6, ip) == Some((ip[6], ip[40..]))
  {
    var longer := ip + padding;
    assert forall i :: 0 <= i < 40 ==> longer[i] == ip[i];
    assert longer[40..|ip|] == ip[40..] && ip[40..|ip|] == ip[40..];
  }

  // ----- Frames on the wire -----

  /** What is captured: the type of what it carries, and its bytes. */
  datatype Frame = Frame(now: int, etherType: int, ip: seq<byte>)

  function Decoded(f: Frame): (e: Event)
    ensures e.Patchable()
  {
    Event(f.now, DecodeFragment(f.etherType, f.ip))
  }

  function DecodedAll(frames: seq<Frame>): (events: seq<Event>)
    ensures |events| == |frames| && forall i :: 0 <= i < |events| ==> events[i].Patchable()
  {
    seq(|frames|, i requires 0 <= i < |frames| => Decoded(frames[i]))
  }

  /** A captured packet that the decoder reads as the `k`th fragment of a sending. */
  ghost predicate ReadAs(s: Sending, etherType: int, k: nat, ip: seq<byte>)
    requires s.Valid() && k < |s.order|
  {
    var f := DecodeFragment(etherType, ip);
    f.Some? && s.Sends(k, f.value)
  }

  /** The pieces on the wire, in order of arrival, each read as its fragment whatever padding a link adds to it. */
  ghost predicate Carried(s: Sending, etherType: int, wires: seq<seq<byte>>)
    requires s.Valid()
  {
    && |wires| == |s.order|
    && forall k: nat, ip: seq<byte> :: k < |wires| && wires[k] <= ip ==> ReadAs(s, etherType, k, ip)
  }

  /**
   * A capture in which the wire pieces of one datagram arrive in the given order, from the `k`th on, among any other
   * frames; there is room when the first arrives, and none is late.
   */
  ghost predicate Captured(limits: Limits, d: Defrag, s: Sending, etherType: int, wires: seq<seq<byte>>, k: nat,
      frames: seq<Frame>)
    requires s.Valid() && |wires| == |s.order| && k <= |wires| && TableSound(d)
    decreases |frames|
  {
    if frames == [] then k == |wires|
    else
      var f := frames[0];
      var next := Process(limits, d, Decoded(f)).state;
      && (0 < k < |wires| ==> f.now < s.start + limits.timeoutSecs)
      && if Decoded(f).Concerns(s.key) then
           && k < |wires| && f.etherType == etherType && wires[k] <= f.ip
           && (k == 0 ==> f.now == s.start && |Swept(limits, d, f.now).table| < limits.maxDatagrams)
           && Captured(limits, next, s, etherType, wires, k + 1, frames[1..])
         else
           Captured(limits, next, s, etherType, wires, k, frames[1..])
  }

  lemma {:induction false} CapturedIsScript(limits: Limits, d: Defrag, s: Sending, etherType: int,
      wires: seq<seq<byte>>, k: nat, frames: seq<Frame>)
    requires s.Valid() && Carried(s, etherType, wires) && k <= |wires| && TableSound(d)
    requires Captured(limits, d, s, etherType, wires, k, frames)
    ensures Script(limits, d, s, k, DecodedAll(frames))
    decreases |frames|
  {
    hide Process, Swept, DecodeFragment, Sending.Sends, Sending.Valid, TableSound;
    if frames != [] {
      var e := Decoded(frames[0]);
      assert DecodedAll(frames)[0] == e && DecodedAll(frames)[1..] == DecodedAll(frames[1..]);
      hide DecodedAll;
      var more := if e.Concerns(s.key) then 1 else 0;
      if more == 1 {
        assert ReadAs(s, etherType, k, frames[0].ip);
      }
      CapturedIsScript(limits, Process(limits, d, e).state, s, etherType, wires, k + more, frames[1..]);
    }
  }

  /** What is captured in pieces comes back once, at the last of them, behind the header of the first piece sent. */
  lemma {:induction false} CapturedIsRebuilt(limits: Limits, d: Defrag, s: Sending, etherType: int,
      wires: seq<seq<byte>>, frames: seq<Frame>)
    requires s.Valid() && s.Fits(limits) && Carried(s, etherType, wires) && TableSound(d) && s.key !in d.table
    requires Captured(limits, d, s, etherType, wires, 0, frames)
    ensures Yields(limits, d, s.key, DecodedAll(frames)) ==
      Silence(Pieces(s.cuts), RebuildDatagram(s.header, s.nextHeader, s.payload))
  {
    hide Carried, Captured, Script, Yields, TableSound, DecodedAll, IsPartition, RebuildDatagram;
    CapturedIsScript(limits, d, s, etherType, wires, 0, frames);
    PartitionReassembles(limits, d, s, 0, DecodedAll(frames));
  }

  // ----- From a datagram to its fragments and back -----

  /** A complete datagram whose length field is right and whose fragment fields are clear. */
  predicate WholeIpv4(ip: seq<byte>) {
    && PlausibleIpv4(ip) && |ip| <= 0xFFFF && |ip| > HeaderLength(ip)
    && BigEndian16(ip[2], ip[3]) == |ip|
    && ip[6] == 0 && ip[7] == 0
  }

  function Payload(ip: seq<byte>): seq<byte>
    requires PlausibleIpv4(ip)
  {
    ip[HeaderLength(ip)..]
  }

  /** The header a router puts on one fragment: its own length, its place, and whether more follow. */
  function FragmentHeader(ip: seq<byte>, offset: nat, end: nat, more: bool): seq<byte>
    requires WholeIpv4(ip) && offset <= end <= |Payload(ip)|
  {
    var header := ip[..HeaderLength(ip)];
    Put16(Put16(header, 2, |header| + (end - offset)), 6, (if more then 0x2000 else 0) + offset / 8)
  }

  function WireFragment(ip: seq<byte>, offset: nat, end: nat, more: bool): seq<byte>
    requires WholeIpv4(ip) && offset <= end <= |Payload(ip)|
  {
    FragmentHeader(ip, offset, end, more) + Payload(ip)[offset..end]
  }

  lemma FragmentHeaderFields(ip: seq<byte>, offset: nat, end: nat, more: bool)
    requires WholeIpv4(ip) && offset <= end <= |Payload(ip)|
    ensures var h := FragmentHeader(ip, offset, end, more);
      && |h| == HeaderLength(ip)
      && BigEndian16(h[2], h[3]) == |h| + (end - offset)
      && BigEndian16(h[6], h[7]) == (if more then 0x2000 else 0) + offset / 8
      && forall i :: 0 <= i < |h| && i != 2 && i != 3 && i != 6 && i != 7 ==> h[i] == ip[i]
  {
    var header := ip[..HeaderLength(ip)];
    Put16Reads(header, 2, |header| + (end - offset));
    Put16Reads(Put16(header, 2, |header| + (end - offset)), 6, (if more then 0x2000 else 0) + offset / 8);
  }

  /** A fragment is read back as header and payload, its place taken from the fragment field. */
  lemma {:induction false} ParseConcat(h: seq<byte>, data: seq<byte>, offset: nat, more: bool, padding: seq<byte>)
    requires Ipv4Header(h) && BigEndian16(h[2], h[3]) == |h| + |data|
    requires BigEndian16(h[6], h[7]) == (if more then 0x2000 else 0) + offset / 8
    requires offset % 8 == 0 && offset / 8 < 0x2000 && (more || offset > 0)
    ensures ParseIpv4Fragment(h + data + padding) ==
      Some(Ipv4Fragment(BigEndian16(h[4], h[5]), offset, more, h[9], h, data))
  {
    var ip := h + data;
    assert forall i :: 0 <= i < |h| ==> ip[i] == h[i];
    hide BigEndian16;
    PaddingIsTrimmed(ip, padding);
    assert TotalLength(ip) == |ip|;
    assert ip[..|h|] == h && ip[|h|..|ip|] == data;
  }

  lemma {:induction false} SameKey(ip: seq<byte>, h: seq<byte>, rest: seq<byte>)
    requires |ip| >= 20 && |h| >= 20
    requires forall i :: 0 <= i < 20 && i != 2 && i != 3 && i != 6 && i != 7 ==> h[i] == ip[i]
    ensures Ipv4Key(h + rest) == Ipv4Key(ip)
  {
    assert (h + rest)[12..16] == ip[12..16] && (h + rest)[16..20] == ip[16..20];
  }

  /** A fragment on the wire parses to its own place, flag, key and bytes, with link padding behind it or without. */
  lemma {:induction false} WireFragmentParses(ip: seq<byte>, offset: nat, end: nat, more: bool, padding: seq<byte>)
    requires WholeIpv4(ip) && offset <= end <= |Payload(ip)| && offset % 8 == 0 && (more || offset > 0)
    ensures DecodeFragment(ETHER_IPV4, WireFragment(ip, offset, end, more) + padding) == Some(Fragment(
      Ipv4Key(ip), offset, more, Payload(ip)[offset..end], FragmentHeader(ip, offset, end, more), None))
  {
    var h := FragmentHeader(ip, offset, end, more);
    var data := Payload(ip)[offset..end];
    FragmentHeaderFields(ip, offset, end, more);
    assert Ipv4Header(h) && offset / 8 < 0x2000;
    hide FragmentHeader, ParseIpv4Fragment, Ipv4Key, BigEndian16;
    ParseConcat(h, data, offset, more, padding);
    SameKey(ip, h, data + padding);
    assert h + data + padding == h + (data + padding);
  }

  /** A big-endian number has one spelling in two bytes. */
  lemma Put16Bytes(s: seq<byte>, at: nat, high: byte, low: byte)
    requires at + 2 <= |s|
    ensures Put16(s, at, BigEndian16(high, low)) == s[at := high][at + 1 := low]
  {
  }

  lemma {:induction false} RestoreHeader(h: seq<byte>, original: seq<byte>)
    requires |h| == |original| >= 8 && original[6] == 0 && original[7] == 0
    requires forall i :: 0 <= i < |h| && i != 2 && i != 3 && i != 6 && i != 7 ==> h[i] == original[i]
    ensures h[2 := original[2]][3 := original[3]][6 := 0][7 := 0] == original
  {
  }

  /** Putting the payload back behind the first fragment's header restores the datagram exactly. */
  lemma {:induction false} RebuiltIsOriginal(ip: seq<byte>, end: nat, more: bool)
    requires WholeIpv4(ip) && end <= |Payload(ip)|
    ensures RebuildDatagram(FragmentHeader(ip, 0, end, more), None, Payload(ip)) == ip
  {
    hide FragmentHeader, Put16, BigEndian16, RebuildDatagram;
    FragmentHeaderFields(ip, 0, end, more);
    HeaderIsRestored(FragmentHeader(ip, 0, end, more), ip[..HeaderLength(ip)], Payload(ip));
    assert ip == ip[..HeaderLength(ip)] + Payload(ip);
  }

  lemma HeaderIsRestored(h: seq<byte>, original: seq<byte>, payload: seq<byte>)
    requires |h| == |original| >= 8 && original[6] == 0 && original[7] == 0
    requires BigEndian16(original[2], original[3]) == |h| + |payload|
    requires forall i :: 0 <= i < |h| && i != 2 && i != 3 && i != 6 && i != 7 ==> h[i] == original[i]
    ensures RebuildDatagram(h, None, payload) == original + payload
  {
    hide Put16, BigEndian16;
    Put16Bytes(h, 2, original[2], original[3]);
    RestoreHeader(h, original);
  }

  /** A datagram cut into at least two pieces, on 8-byte boundaries, arriving in some order. */
  ghost predicate Fragmented(ip: seq<byte>, cuts: seq<nat>, order: seq<nat>) {
    && WholeIpv4(ip) && |cuts| >= 3 && IsPartition(cuts, Payload(ip)) && IsPermutation(order, Pieces(cuts))
    && forall i :: 0 <= i < Pieces(cuts) ==> cuts[i] % 8 == 0
  }

  ghost function SendingOf(ip: seq<byte>, cuts: seq<nat>, order: seq<nat>, start: int): (s: Sending)
    requires Fragmented(ip, cuts, order)
    ensures s.Valid()
  {
    FragmentHeaderFields(ip, 0, cuts[1], true);
    Sending(Ipv4Key(ip), Payload(ip), cuts, order, FragmentHeader(ip, 0, cuts[1], true), None, start)
  }

  /** The `i`th piece as it travels. */
  ghost function WirePiece(ip: seq<byte>, cuts: seq<nat>, order: seq<nat>, i: nat): seq<byte>
    requires Fragmented(ip, cuts, order) && i < Pieces(cuts)
  {
    WireFragment(ip, cuts[i], cuts[i + 1], i + 1 < Pieces(cuts))
  }

  ghost function WirePieces(ip: seq<byte>, cuts: seq<nat>, order: seq<nat>): seq<seq<byte>>
    requires Fragmented(ip, cuts, order)
  {
    seq(|order|, k requires 0 <= k < |order| => WirePiece(ip, cuts, order, order[k]))
  }

  /** The `i`th piece as the decoder hands it over. */
  ghost function PieceFragment(ip: seq<byte>, cuts: seq<nat>, order: seq<nat>, i: nat): Fragment
    requires Fragmented(ip, cuts, order) && i < Pieces(cuts)
  {
    var more := i + 1 < Pieces(cuts);
    Fragment(Ipv4Key(ip), cuts[i], more, Payload(ip)[cuts[i]..cuts[i + 1]],
      FragmentHeader(ip, cuts[i], cuts[i + 1], more), None)
  }

  lemma {:induction false} PieceFragmentIsSent(ip: seq<byte>, cuts: seq<nat>, order: seq<nat>, start: int, k: nat)
    requires Fragmented(ip, cuts, order) && k < |order|
    ensures SendingOf(ip, cuts, order, start).Sends(k, PieceFragment(ip, cuts, order, order[k]))
  {
    var i := order[k];
    assert cuts[i] < cuts[i + 1] <= |Payload(ip)| && (i == 0 <==> cuts[i] == 0);
    FragmentHeaderFields(ip, cuts[i], cuts[i + 1], i + 1 < Pieces(cuts));
    hide FragmentHeader, Ipv4Key;
  }

  lemma {:induction false} PieceParses(ip: seq<byte>, cuts: seq<nat>, order: seq<nat>, i: nat, padding: seq<byte>)
    requires Fragmented(ip, cuts, order) && i < Pieces(cuts)
    ensures DecodeFragment(ETHER_IPV4, WirePiece(ip, cuts, order, i) + padding) ==
      Some(PieceFragment(ip, cuts, order, i))
  {
    assert cuts[i] < cuts[i + 1] <= |Payload(ip)| && cuts[i] % 8 == 0 && (i == 0 <==> cuts[i] == 0);
    hide WireFragment, FragmentHeader, DecodeFragment, Ipv4Key, Fragmented, WholeIpv4;
    WireFragmentParses(ip, cuts[i], cuts[i + 1], i + 1 < Pieces(cuts), padding);
  }

  /** The wire form of each piece, decoded, is what the sending sends. */
  lemma {:induction false} WirePieceIsSent(ip: seq<byte>, cuts: seq<nat>, order: seq<nat>, start: int, k: nat,
      padding: seq<byte>)
    requires Fragmented(ip, cuts, order) && k < |order|
    ensures ReadAs(SendingOf(ip, cuts, order, start), ETHER_IPV4, k, WirePiece(ip, cuts, order, order[k]) + padding)
  {
    hide WirePiece, DecodeFragment, PieceFragment, Sending.Sends, SendingOf, WholeIpv4;
    PieceFragmentIsSent(ip, cuts, order, start, k);
    PieceParses(ip, cuts, order, order[k], padding);
    SendingFields(ip, cuts, order, start);
  }

  lemma {:induction false} WirePiecesAreCarried(ip: seq<byte>, cuts: seq<nat>, order: seq<nat>, start: int)
    requires Fragmented(ip, cuts, order)
    ensures Carried(SendingOf(ip, cuts, order, start), ETHER_IPV4, WirePieces(ip, cuts, order))
  {
    hide ReadAs, WirePiece, Fragmented;
    var s, wires := SendingOf(ip, cuts, order, start), WirePieces(ip, cuts, order);
    forall k: nat, captured: seq<byte> | k < |wires| && wires[k] <= captured
      ensures ReadAs(s, ETHER_IPV4, k, captured)
    {
      WirePieceIsSent(ip, cuts, order, start, k, captured[|wires[k]|..]);
      assert captured == wires[k] + captured[|wires[k]|..];
    }
  }

  lemma SendingFields(ip: seq<byte>, cuts: seq<nat>, order: seq<nat>, start: int)
    requires Fragmented(ip, cuts, order)
    ensures var s := SendingOf(ip, cuts, order, start);
      && s.Valid() && s.key == Ipv4Key(ip) && s.cuts == cuts && s.order == order && |ip| >= 20
      && RebuildDatagram(s.header, s.nextHeader, s.payload) == ip
  {
    hide FragmentHeader, RebuildDatagram;
    RebuiltIsOriginal(ip, cuts[1], true);
  }

  /**
   * From wire to wire. A datagram cut on 8-byte boundaries, its fragments captured in any order among any other frames
   * and with any link padding: the decoder hands back the very bytes of the original datagram, once, at the last
   * fragment.
   */
  lemma {:induction false} DatagramSurvivesFragmentation(
    limits: Limits, d: Defrag, ip: seq<byte>, cuts: seq<nat>, order: seq<nat>, start: int, frames: seq<Frame>)
    requires Fragmented(ip, cuts, order) && SendingOf(ip, cuts, order, start).Fits(limits)
    requires TableSound(d) && Ipv4Key(ip) !in d.table
    requires Captured(limits, d, SendingOf(ip, cuts, order, start), ETHER_IPV4, WirePieces(ip, cuts, order), 0, frames)
    ensures Yields(limits, d, Ipv4Key(ip), DecodedAll(frames)) == Silence(Pieces(cuts), ip)
  {
    hide Captured, Carried, Yields, WirePieces, SendingOf, Fragmented, TableSound, Ipv4Key, RebuildDatagram, DecodedAll;
    SendingFields(ip, cuts, order, start);
    WirePiecesAreCarried(ip, cuts, order, start);
    CapturedIsRebuilt(limits, d, SendingOf(ip, cuts, order, start), ETHER_IPV4, WirePieces(ip, cuts, order), frames);
  }
}
