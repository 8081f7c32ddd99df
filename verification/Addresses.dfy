/** Network addresses and their advertised types.  An IP address is the number
    its octets spell in network order, so every range test is a comparison. */
module Addresses {
  import opened Keys
  import opened Wrappers

  const TWO_16: nat := 0x1_0000
  const TWO_24: nat := 0x100_0000
  const TWO_32: nat := 0x1_0000_0000
  const TWO_64: nat := 0x1_0000_0000_0000_0000
  const TWO_118: nat := 0x40_0000_0000_0000_0000_0000_0000_0000
  const TWO_121: nat := 0x200_0000_0000_0000_0000_0000_0000_0000

  datatype Ip = V4(bits: nat) | V6(bits: nat) {
    predicate IsLoopback() {
      if V4? then bits / TWO_24 == 127 else bits == 1
    }

    predicate IsUnspecified() { bits == 0 }

    predicate IsMapped() { V6? && bits / TWO_32 == 0xffff }
  }

  /** An IPv4-mapped IPv6 address (section 2.5.5.2 of RFC 4291) is the IPv4 address it maps. */
  function Canonical(ip: Ip): Ip {
    if ip.IsMapped() then V4(ip.bits % TWO_32) else ip
  }

  /** Loopback, section 3 of RFC 1918, link-local, section 7 of RFC 6598. */
  predicate IsLanV4(bits: nat) {
    || bits / TWO_24 == 127
    || bits / TWO_24 == 10
    || bits / 0x10_0000 == 172 * 16 + 1
    || bits / TWO_16 == 192 * 256 + 168
    || bits / TWO_16 == 169 * 256 + 254
    || bits / 0x40_0000 == 100 * 4 + 1
  }

  /** Loopback, section 3.1 of RFC 4193, section 2.5.6 of RFC 4291. */
  predicate IsLanV6(bits: nat) {
    bits == 1 || bits / TWO_121 == 0x7e || bits / TWO_118 == 0x3fa
  }

  predicate IsLanIp(ip: Ip) {
    var c := Canonical(ip);
    if c.V4? then IsLanV4(c.bits) else IsLanV6(c.bits)
  }

  datatype Socket = Socket(ip: Ip, port: nat)

  function CanonicalSocket(s: Socket): Socket { Socket(Canonical(s.ip), s.port) }

  datatype Transport =
    | Quic(socket: Socket)
    | Tcp(socket: Socket)
    | Udp(socket: Socket)
    | WebRtcDirect(socket: Socket, certificate: nat)
    | NonIp(device: nat)

  datatype MultiAddr = MultiAddr(transport: Transport, owner: Option<Key>) {
    function DialableSocket(): Option<Socket> {
      if transport.Quic? then Some(transport.socket) else None
    }

    predicate IsLocalScope() {
      !transport.NonIp? && IsLanIp(transport.socket.ip)
    }
  }

  datatype AddressType = Relay | Direct | Unverified | Lan {
    function Priority(): nat {
      match this
      case Relay => 0
      case Direct => 1
      case Unverified => 2
      case Lan => 3
    }
  }

  type Typed = (MultiAddr, AddressType)

  /** A local-scope address is never accepted with a stronger tag than `Lan`. */
  function Advertised(address: MultiAddr, kind: AddressType): AddressType {
    if address.IsLocalScope() then Lan else kind
  }

  /** Canonicalisation is idempotent and keeps an address local or not. */
  lemma CanonicalScope(ip: Ip)
    ensures Canonical(Canonical(ip)) == Canonical(ip)
    ensures IsLanIp(Canonical(ip)) == IsLanIp(ip)
  {
  }

  /** The local IPv4 ranges, octet by octet. */
  lemma LanV4Ranges(a: nat, b: nat, c: nat, d: nat)
    requires a < 256 && b < 256 && c < 256 && d < 256
    ensures IsLanV4(((a * 256 + b) * 256 + c) * 256 + d) <==>
            || a == 127 || a == 10 || (a == 172 && 16 <= b <= 31) || (a == 192 && b == 168)
            || (a == 169 && b == 254) || (a == 100 && 64 <= b <= 127)
  {
    var bits := ((a * 256 + b) * 256 + c) * 256 + d;
    var low := c * 256 + d;
    var pair := a * 256 + b;
    assert bits == pair * TWO_16 + low && low < TWO_16;
    assert bits / TWO_16 == pair;
    assert bits / TWO_24 == a by { assert bits == a * TWO_24 + (b * TWO_16 + low); }
    assert bits / 0x10_0000 == pair / 16;
    assert bits / 0x40_0000 == pair / 64;
  }

  /** The local IPv6 ranges, by the first sixteen bits: fc00::/7 and fe80::/10, and loopback. */
  lemma LanV6Ranges(head: nat, tail: nat)
    requires head < TWO_16 && tail < TWO_64 * 0x1_0000_0000_0000
    ensures IsLanV6(head * (TWO_64 * 0x1_0000_0000_0000) + tail) <==>
            || (head == 0 && tail == 1) || 0xfc00 <= head <= 0xfdff || 0xfe80 <= head <= 0xfebf
  {
    var unit := TWO_64 * 0x1_0000_0000_0000;
    var bits := head * unit + tail;
    assert bits / unit == head;
    assert bits / TWO_121 == head / 512;
    assert bits / TWO_118 == head / 64;
  }
}
