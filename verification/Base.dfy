/** Small vocabulary shared by every component. */
module Base {
  import opened Bytes

  datatype Option<+T> = None | Some(value: T)

  /** A `SocketAddr` (IPv4). */
  datatype Addr = Addr(ip: bytes, port: u16)

  /** A datagram handed to the socket. */
  datatype Datagram = Datagram(to: Addr, pkt: bytes)

  /** A datagram received, and where it came from. */
  datatype Incoming = Incoming(pkt: bytes, src: Addr)

  /** Device identifiers, as the source has them: strings. */
  type Node = string
}
