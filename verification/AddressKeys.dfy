/** The 16-byte keys of pod_map: how pkg/bpf/maps.go builds one from an address, how bpf/qos_tc.c builds
    one from a packet header, on a little-endian machine. */
module AddressKeys {

  import opened Meter

  type bytes4 = s: seq<bv8> | |s| == 4 witness [0, 0, 0, 0]
  type bytes16 = s: seq<bv8> | |s| == 16 witness Zero16()

  function Zero16(): (r: seq<bv8>)
    ensures |r| == 16 && forall i :: 0 <= i < 16 ==> r[i] == 0
  {
    seq(16, _ => 0)
  }

  /** A valid, zone-free netip.Addr. */
  datatype Addr = Addr4(v4: bytes4) | Addr6(v6: bytes16)

  /** struct ip_addr. */
  datatype IpKey = IpKey(d1: bv32, d2: bv32, d3: bv32, d4: bv32)

  /** The network header, as far as it is read; anything else passes untouched. */
  datatype Header = Ip4(src4: bytes4, dst4: bytes4) | Ip6(src6: bytes16, dst6: bytes16) | NotIp

  // ---- pkg/byteorder and encoding/binary ----

  /** Four bytes of a slice, from `at`, in network order. */
  function BigEndian32(b: seq<bv8>, at: nat): bv32
    requires at + 4 <= |b|
  {
    (b[at] as bv32 << 24) | (b[at + 1] as bv32 << 16) | (b[at + 2] as bv32 << 8) | b[at + 3] as bv32
  }

  function BigEndianBytes(u: bv32): bytes4 {
    [((u >> 24) & 0xff) as bv8, ((u >> 16) & 0xff) as bv8, ((u >> 8) & 0xff) as bv8, (u & 0xff) as bv8]
  }

  /** bits.ReverseBytes32: both HostToNetwork32 and NetworkToHost32 on a little-endian machine. */
  function ReverseBytes32(u: bv32): bv32 {
    var x := ((u >> 8) & 0x00ff_00ff) | ((u & 0x00ff_00ff) << 8);
    (x >> 16) | (x << 16)
  }

  // ---- pkg/bpf/maps.go ----

  /** The 16-byte form; an IPv4 address is mapped as in section 2.5.5.2 of RFC 4291. */
  function As16(a: Addr): bytes16 {
    match a
    case Addr4(b) => seq(16, i requires 0 <= i < 16 => if i < 10 then 0 else if i < 12 then 0xff else b[i - 12])
    case Addr6(b) => b
  }

  function Ip2Addr(a: Addr): IpKey {
    var s := As16(a);
    IpKey(ReverseBytes32(BigEndian32(s, 0)), ReverseBytes32(BigEndian32(s, 4)),
          ReverseBytes32(BigEndian32(s, 8)), ReverseBytes32(BigEndian32(s, 12)))
  }

  function Addr2Ip(k: IpKey): Addr {
    Addr6(BigEndianBytes(ReverseBytes32(k.d1)) + BigEndianBytes(ReverseBytes32(k.d2))
          + BigEndianBytes(ReverseBytes32(k.d3)) + BigEndianBytes(ReverseBytes32(k.d4)))
  }

  // ---- bpf/qos_tc.c ----

  /** A 32-bit load from packet memory on a little-endian machine. */
  function Load32(b: seq<bv8>, at: nat): bv32
    requires at + 4 <= |b|
  {
    b[at] as bv32 | (b[at + 1] as bv32 << 8) | (b[at + 2] as bv32 << 16) | (b[at + 3] as bv32 << 24)
  }

  function FourLoads(s: bytes16): IpKey { IpKey(Load32(s, 0), Load32(s, 4), Load32(s, 8), Load32(s, 12)) }

  /** The key of the pod's end of the packet: the destination on ingress, the source on egress. */
  function PacketKey(h: Header, d: Direction): IpKey
    requires !h.NotIp?
  {
    match h
    case Ip4(src, dst) => IpKey(0, 0, 0xffff0000, Load32(if d == Ingress then dst else src, 0))
    case Ip6(src, dst) => FourLoads(if d == Ingress then dst else src)
  }

  function PodEnd(h: Header, d: Direction): Addr
    requires !h.NotIp?
  {
    match h
    case Ip4(src, dst) => Addr4(if d == Ingress then dst else src)
    case Ip6(src, dst) => Addr6(if d == Ingress then dst else src)
  }

  // ---- the keys agree ----

  lemma ReverseIsLoad(b: seq<bv8>, at: nat)
    requires at + 4 <= |b|
    ensures ReverseBytes32(BigEndian32(b, at)) == Load32(b, at)
  {
  }

  lemma BytesOfReverse(b: seq<bv8>, at: nat)
    requires at + 4 <= |b|
    ensures BigEndianBytes(ReverseBytes32(Load32(b, at))) == b[at..at + 4]
  {
    FourBytes(b[at], b[at + 1], b[at + 2], b[at + 3]);
    assert b[at..at + 4] == [b[at], b[at + 1], b[at + 2], b[at + 3]];
  }

  lemma FourBytes(b0: bv8, b1: bv8, b2: bv8, b3: bv8)
    ensures var u := ReverseBytes32(b0 as bv32 | (b1 as bv32 << 8) | (b2 as bv32 << 16) | (b3 as bv32 << 24));
      && ((u >> 24) & 0xff) as bv8 == b0
      && ((u >> 16) & 0xff) as bv8 == b1
      && ((u >> 8) & 0xff) as bv8 == b2
      && (u & 0xff) as bv8 == b3
  {
  }

  lemma KeyIsFourLoads(a: Addr)
    ensures Ip2Addr(a) == FourLoads(As16(a))
  {
    var s := As16(a);
    ReverseIsLoad(s, 0);
    ReverseIsLoad(s, 4);
    ReverseIsLoad(s, 8);
    ReverseIsLoad(s, 12);
  }

  lemma LoadsRejoin(s: bytes16)
    ensures Addr2Ip(FourLoads(s)) == Addr6(s)
  {
    var k := FourLoads(s);
    assert BigEndianBytes(ReverseBytes32(k.d1)) == s[0..4] by { BytesOfReverse(s, 0); }
    assert BigEndianBytes(ReverseBytes32(k.d2)) == s[4..8] by { BytesOfReverse(s, 4); }
    assert BigEndianBytes(ReverseBytes32(k.d3)) == s[8..12] by { BytesOfReverse(s, 8); }
    assert BigEndianBytes(ReverseBytes32(k.d4)) == s[12..16] by { BytesOfReverse(s, 12); }
    Quarters(s);
  }

  lemma Quarters(s: bytes16)
    ensures s == s[0..4] + s[4..8] + s[8..12] + s[12..16]
  {
  }

  /** Listing pod_map gives back the address that was written, in its 16-byte form. */
  lemma AddressRoundTrip(a: Addr)
    ensures Addr2Ip(Ip2Addr(a)) == Addr6(As16(a))
  {
    KeyIsFourLoads(a);
    LoadsRejoin(As16(a));
  }

  /** Two addresses share a key exactly when their 16-byte forms agree. */
  lemma KeysInjective(a: Addr, b: Addr)
    ensures Ip2Addr(a) == Ip2Addr(b) <==> As16(a) == As16(b)
  {
    AddressRoundTrip(a);
    AddressRoundTrip(b);
  }

  /** Addresses of one family share a key only if they are equal, so no pod's packets are taken for
      another's. */
  lemma SameFamilyKeysInjective(a: Addr, b: Addr)
    requires a.Addr4? == b.Addr4? && Ip2Addr(a) == Ip2Addr(b)
    ensures a == b
  {
    KeysInjective(a, b);
    if a.Addr4? {
      forall i | 0 <= i < 4 ensures a.v4[i] == b.v4[i] {
        assert As16(a)[12 + i] == As16(b)[12 + i];
      }
    }
  }

  /** The key the data plane builds from a packet is the key the control plane wrote for the pod's
      address, for both address families and both directions. */
  lemma PlanesAgreeOnKeys(h: Header, d: Direction)
    requires !h.NotIp?
    ensures PacketKey(h, d) == Ip2Addr(PodEnd(h, d))
  {
    KeyIsFourLoads(PodEnd(h, d));
    if h.Ip4? { MappedLoads(PodEnd(h, d).v4); }
  }

  lemma MappedLoads(b: bytes4)
    ensures FourLoads(As16(Addr4(b))) == IpKey(0, 0, 0xffff0000, Load32(b, 0))
  {
    var s := As16(Addr4(b));
    assert s[12] == b[0] && s[13] == b[1] && s[14] == b[2] && s[15] == b[3];
  }
}
