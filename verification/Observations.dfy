/** What the workers report to the behavioural aggregator. */
module Observations {
  import opened Base

  datatype Address = V4(octets: seq<byte>) | V6(octets: seq<byte>)
  {
    predicate Valid() { |octets| == if V4? then 4 else 16 }
  }

  type IpAddr = a: Address | a.Valid() witness V4([0, 0, 0, 0])

  type Port = p: int | 0 <= p < 0x1_0000

  const UNSPECIFIED: IpAddr := V4([0, 0, 0, 0])

  datatype Observation =
    | AuthAttempt(ts: int, src: IpAddr, dst: IpAddr, dstPort: Port, service: seq<byte>)
    | AuthFailure(ts: int, src: IpAddr, dst: IpAddr, dstPort: Port, service: seq<byte>)
    | Flow(ts: int, src: IpAddr, dst: IpAddr, dstPort: Port, bytesOut: nat, bytesIn: nat, answered: bool)
    | DnsQuery(ts: int, src: IpAddr, dst: IpAddr, name: seq<byte>)
    | Volume(ts: int, src: IpAddr, packets: nat)
    | Traffic(ts: int, src: IpAddr, dst: IpAddr, dstPort: Port, bytesOut: nat, bytesIn: nat)

  /** Multicast, the all-ones broadcast, or an address ending in 255 on a private range. */
  predicate IsBroadcastLike(dst: IpAddr) {
    var o := dst.octets;
    match dst
    case V4(_) =>
      || 224 <= o[0] < 240
      || o == [255, 255, 255, 255]
      || (o[3] == 255 && (o[0] == 10 || (o[0] == 172 && 16 <= o[1] < 32) || (o[0] == 192 && o[1] == 168)))
    case V6(_) => o[0] == 0xff
  }

  /** Two octets, most significant first. */
  function Halfword(a: int, b: int): int { a * 256 + b }

  /**
   * The same as ranges of numbers: 224.0.0.0 to 239.255.255.255, 255.255.255.255, the addresses ending in 255 of
   * 10.0.0.0/8, 172.16.0.0/12 and 192.168.0.0/16, and ff00::/8.
   */
  lemma BroadcastRanges(dst: IpAddr)
    ensures var o := dst.octets;
      IsBroadcastLike(dst) <==>
      if dst.V4? then
        var n := Halfword(o[0], o[1]) * 0x1_0000 + Halfword(o[2], o[3]);
        || 0xe000_0000 <= n <= 0xefff_ffff
        || n == 0xffff_ffff
        || (n % 256 == 255 && (0x0a00_0000 <= n <= 0x0aff_ffff || 0xac10_0000 <= n <= 0xac1f_ffff
                               || 0xc0a8_0000 <= n <= 0xc0a8_ffff))
      else 0xff00 <= Halfword(o[0], o[1])
  {
    var o := dst.octets;
    if dst.V4? {
      var n := Halfword(o[0], o[1]) * 0x1_0000 + Halfword(o[2], o[3]);
      assert n % 256 == o[3];
      assert o == [o[0], o[1], o[2], o[3]];
    }
  }

  /** The family, then the octets padded to sixteen. */
  function AddressKey(a: IpAddr): (k: seq<int>)
    ensures |k| == 17
  {
    if a.V4? then [4] + a.octets + seq(12, _ => 0) else [6] + a.octets
  }

  lemma AddressKeyInjective(a: IpAddr, b: IpAddr)
    requires AddressKey(a) == AddressKey(b)
    ensures a == b
  {
    var k := AddressKey(a);
    assert k[0] == if a.V4? then 4 else 6;
    assert k[0] == if b.V4? then 4 else 6;
    assert a.octets == k[1..1 + |a.octets|] && b.octets == k[1..1 + |b.octets|];
  }
}
