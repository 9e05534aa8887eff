/** Bytes, fixed-width integers and the DHCP message structure (src/dhcp.h).

Addresses and other 32-bit fields that the source keeps in network byte order
are modelled by their host value; their memory image is the big-endian one.
 */
module Wire {

  type Byte = x: int | 0 <= x < 0x100
  type U16 = x: int | 0 <= x < 0x1_0000
  type U32 = x: int | 0 <= x < 0x1_0000_0000
  type Bytes = seq<Byte>

  datatype Option<+T> = None | Some(value: T)

  /** The bytes of a 16-bit value in network order. */
  function Be16(v: U16): (b: Bytes)
    ensures |b| == 2
  {
    [v / 0x100, v % 0x100]
  }

  /** The bytes of a 32-bit value in network order. */
  function Be32(v: U32): (b: Bytes)
    ensures |b| == 4
  {
    [v / 0x100_0000, v / 0x1_0000 % 0x100, v / 0x100 % 0x100, v % 0x100]
  }

  /** The value of two network-order bytes. */
  function FromBe16(b: Bytes): (v: U16)
    requires |b| == 2
  {
    (b[0] as int) * 0x100 + b[1]
  }

  /** The value of four network-order bytes. */
  function FromBe32(b: Bytes): (v: U32)
    requires |b| == 4
  {
    (b[0] as int) * 0x100_0000 + (b[1] as int) * 0x1_0000 + (b[2] as int) * 0x100 + b[3]
  }

  lemma Be32RoundTrip(v: U32)
    ensures FromBe32(Be32(v)) == v
  {
    var a, b, c, d := v / 0x100_0000, v / 0x1_0000 % 0x100, v / 0x100 % 0x100, v % 0x100;
    assert v / 0x1_0000 == a * 0x100 + b;
    assert v / 0x100 == (a * 0x100 + b) * 0x100 + c;
    assert v == ((a * 0x100 + b) * 0x100 + c) * 0x100 + d;
  }

  lemma Be16RoundTrip(v: U16)
    ensures FromBe16(Be16(v)) == v
  {
  }

  function Zeros(n: nat): (z: Bytes)
    ensures |z| == n
    ensures forall i :: 0 <= i < n ==> z[i] == 0
  {
    seq(n, _ => 0)
  }

  /** `memcpy` into a buffer. */
  method Copy<T>(dbuf: array<T>, at: nat, data: seq<T>)
    requires at + |data| <= dbuf.Length
    modifies dbuf
    ensures dbuf[..] == old(dbuf[..])[..at] + data + old(dbuf[..])[at + |data|..]
  {
    ghost var was := dbuf[..];
    for k := 0 to |data|
      invariant dbuf[..] == was[..at] + data[..k] + was[at + k..]
    {
      dbuf[at + k] := data[k];
      assert data[..k + 1] == data[..k] + [data[k]];
    }
    assert data[..|data|] == data;
  }

  const OPTIONS_SIZE: nat := 308
  const FILE_SIZE: nat := 128
  const SNAME_SIZE: nat := 64

  /** The fields of `struct dhcpmsg` that the client reads or sets. */
  datatype DhcpMsg = DhcpMsg(
    op: Byte, htype: Byte, hlen: Byte,
    xid: U32, ciaddr: U32, yiaddr: U32, chaddr: Bytes,
    sname: Bytes, file: Bytes, cookie: U32, options: Bytes)
  {
    ghost predicate Sized() {
      |chaddr| == 16 && |sname| == SNAME_SIZE && |file| == FILE_SIZE && |options| == OPTIONS_SIZE
    }
  }

  /** A message whose arrays have the lengths that `struct dhcpmsg` declares. */
  type Packet = p: DhcpMsg | p.Sized() ghost witness ZeroPacket()

  function ZeroPacket(): (p: DhcpMsg)
    ensures p.Sized()
  {
    DhcpMsg(0, 0, 0, 0, 0, 0, Zeros(16), Zeros(SNAME_SIZE), Zeros(FILE_SIZE), 0, Zeros(OPTIONS_SIZE))
  }

  // Option codes (src/options.h).
  const PADDING: Byte := 0x00
  const SUBNET: Byte := 0x01
  const ROUTER: Byte := 0x03
  const DNS: Byte := 0x06
  const HOSTNAME: Byte := 0x0c
  const DOMAIN: Byte := 0x0f
  const MTU: Byte := 0x1a
  const BROADCAST: Byte := 0x1c
  const WINS: Byte := 0x2c
  const REQIP: Byte := 0x32
  const LEASET: Byte := 0x33
  const OVERLOAD: Byte := 0x34
  const MSGTYPE: Byte := 0x35
  const SERVER_ID: Byte := 0x36
  const PARAM_REQ: Byte := 0x37
  const MAX_SIZE: Byte := 0x39
  const VENDOR: Byte := 0x3c
  const CLIENT_ID: Byte := 0x3d
  const END: Byte := 0xff

  /** The size of the buffers that option values are gathered into. */
  const MAX_DOPT_SIZE: nat := 500

  // Message types (src/dhcp.h).
  const DHCPDISCOVER: Byte := 1
  const DHCPOFFER: Byte := 2
  const DHCPREQUEST: Byte := 3
  const DHCPDECLINE: Byte := 4
  const DHCPACK: Byte := 5
  const DHCPNAK: Byte := 6
  const DHCPRELEASE: Byte := 7

  const DHCP_MAGIC: U32 := 0x6382_5363
}
