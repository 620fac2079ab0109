/** A worked session: a control handshake, a data pair opened and used
    within the window, then idle expiry. */
module Scenario {
  import opened Clock
  import opened Wire
  import opened Sessions
  import opened Admission

  const Phone: Ipv4Address := Ipv4Address(10, 7, 0, 2)

  function Syn(srcPort: U16, dstPort: U16): TcpSegment {
    TcpSegment(srcPort, dstPort, true, false, false, false, [])
  }

  function Ack(srcPort: U16, dstPort: U16): TcpSegment {
    TcpSegment(srcPort, dstPort, false, true, false, false, [])
  }

  function ToGateway(seg: TcpSegment): Datagram {
    Datagram(Phone, Gateway, TcpProtocol, Some(seg))
  }

  /** SYN to the control port at 0 s, SYN on ports 50001 to 50002 at 1 s,
      ACK on the pair at 2 s, unrelated traffic at 40 s, and the pair's SYN
      again at 41 s. The first three are echoed and open, then refresh, the
      pair; the sweep at 40 s drops both the handshake and the idle pair, so
      the repeated SYN is dropped. */
  lemma EndToEnd()
    ensures
      var t0 := Initial;
      var (r0, t1) := HandlePacket(t0, ToGateway(Syn(49152, ControlPort)), 0);
      var (r1, t2) := HandlePacket(t1, ToGateway(Syn(50001, 50002)), 1 * NanosPerSecond);
      var (r2, t3) := HandlePacket(t2, ToGateway(Ack(50001, 50002)), 2 * NanosPerSecond);
      var (r3, t4) := HandlePacket(t3, ToGateway(Ack(40000, 40010)), 40 * NanosPerSecond);
      var (r4, t5) := HandlePacket(t4, ToGateway(Syn(50001, 50002)), 41 * NanosPerSecond);
      && r0 == Some(Reflect(ToGateway(Syn(49152, ControlPort))))
      && r1 == Some(Reflect(ToGateway(Syn(50001, 50002))))
      && t2.dataPairs == map[PairKey(Phone, 50001, 50002) := 1 * NanosPerSecond]
      && r2.Some?
      && t3.dataPairs == map[PairKey(Phone, 50001, 50002) := 2 * NanosPerSecond]
      && r3 == None && t4.dataPairs == map[] && t4.lastControlSyn == map[]
      && r4 == None && t5.dataPairs == map[]
  {
  }
}
