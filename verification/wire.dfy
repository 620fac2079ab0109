/** The already-parsed view of one datagram read from the tunnel device:
    the IPv4 addresses and protocol number, and the TCP segment when the
    payload is a structurally valid one. */
module Wire {

  type Byte = x: int | 0 <= x < 0x100
  type U16 = x: int | 0 <= x < 0x1_0000

  datatype Option<T> = None | Some(value: T)

  datatype Ipv4Address = Ipv4Address(a: Byte, b: Byte, c: Byte, d: Byte)

  /** The synthetic peer address of the tunnel, 10.7.0.1. */
  const Gateway: Ipv4Address := Ipv4Address(10, 7, 0, 1)

  /** IP protocol number of TCP. */
  const TcpProtocol: Byte := 6

  datatype TcpSegment = TcpSegment(
    srcPort: U16,
    dstPort: U16,
    syn: bool,
    ack: bool,
    fin: bool,
    rst: bool,
    payload: seq<Byte>)

  /** `segment` is `None` when the IPv4 payload does not parse as a TCP
      segment. */
  datatype Datagram = Datagram(
    src: Ipv4Address,
    dst: Ipv4Address,
    protocol: Byte,
    segment: Option<TcpSegment>)
}
