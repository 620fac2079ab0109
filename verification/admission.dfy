/** The per-packet decision of the reflector: which TCP segments sent to the
    gateway are echoed back to their sender, and how each one updates the
    session tracker. */
module Admission {
  import opened Clock
  import opened Wire
  import opened Sessions

  /** The lockdown control port. */
  const ControlPort: U16 := 62078

  predicate IsSynOnly(seg: TcpSegment) {
    seg.syn && !seg.ack
  }

  /** Two ports form a data-pair candidate when they are one apart and the
      lower of them is not the control port. The subtraction is on `u16`
      and cannot wrap, since the higher port is taken first. */
  function IsPairCandidate(srcPort: U16, dstPort: U16): (candidate: bool)
    ensures candidate <==> ((srcPort + 1 == dstPort && srcPort != ControlPort)
                         || (dstPort + 1 == srcPort && dstPort != ControlPort))
  {
    var (low, high) := if srcPort <= dstPort then (srcPort, dstPort) else (dstPort, srcPort);
    var gap: U16 := high - low;
    low != ControlPort && gap == 1
  }

  lemma PairCandidateSymmetric(a: U16, b: U16)
    ensures IsPairCandidate(a, b) == IsPairCandidate(b, a)
  {
  }

  /** Away from the control port the candidate test is plain adjacency:
      the two ports differ by exactly one. */
  lemma PairCandidateIsAdjacency(a: U16, b: U16)
    requires a != ControlPort && b != ControlPort
    ensures IsPairCandidate(a, b) <==> a - b == 1 || b - a == 1
  {
  }

  datatype DropReason = NotForGateway | NotTcp | MalformedTcp | NotAdmitted

  datatype Decision = Forward | Drop(reason: DropReason)

  datatype Outcome = Outcome(decision: Decision, tracker: Tracker)

  predicate TouchesControlPort(seg: TcpSegment) {
    seg.dstPort == ControlPort || seg.srcPort == ControlPort
  }

  predicate EndsSession(seg: TcpSegment) {
    seg.fin || seg.rst
  }

  /** The admission rules for one segment from `client`, applied to the
      tracker after its sweep.
      Control traffic is always forwarded and only a SYN-only segment to
      the control port records a handshake. Traffic on an open pair is
      forwarded and refreshes it, or closes it on FIN or RST. A new pair is
      opened and forwarded only for a SYN-only segment on adjacent ports
      shortly after the client's handshake; everything else is dropped
      without any change. */
  function Admit(t: Tracker, client: Client, seg: TcpSegment, now: Instant): (o: Outcome)
    // control traffic
    ensures TouchesControlPort(seg) ==>
      && o.decision == Forward
      && o.tracker.dataPairs == t.dataPairs
      && o.tracker.lastCleanup == t.lastCleanup
      && (if IsSynOnly(seg) && seg.dstPort == ControlPort
          then o.tracker.lastControlSyn == t.lastControlSyn[client := now]
          else o.tracker.lastControlSyn == t.lastControlSyn)
    // traffic on an open pair
    ensures !TouchesControlPort(seg) && PairKeyOf(client, seg.srcPort, seg.dstPort) in t.dataPairs ==>
      var key := PairKeyOf(client, seg.srcPort, seg.dstPort);
      && o.decision == Forward
      && o.tracker.lastControlSyn == t.lastControlSyn
      && o.tracker.lastCleanup == t.lastCleanup
      && (if EndsSession(seg)
          then o.tracker.dataPairs == t.dataPairs - {key}
          else o.tracker.dataPairs == t.dataPairs[key := now])
    // traffic on no open pair
    ensures !TouchesControlPort(seg) && PairKeyOf(client, seg.srcPort, seg.dstPort) !in t.dataPairs ==>
      && (o.decision == Forward <==>
            IsSynOnly(seg) && IsPairCandidate(seg.srcPort, seg.dstPort) && CanOpenPair(t, client, now))
      && (o.decision == Forward ==>
            o.tracker == t.(dataPairs := t.dataPairs[PairKeyOf(client, seg.srcPort, seg.dstPort) := now]))
      && (o.decision != Forward ==> o == Outcome(Drop(NotAdmitted), t))
    // a pair appears only for a SYN-only segment after a recent handshake
    ensures forall k :: k in o.tracker.dataPairs && k !in t.dataPairs ==>
      k == PairKeyOf(client, seg.srcPort, seg.dstPort) && IsSynOnly(seg) && CanOpenPair(t, client, now)
  {
    if TouchesControlPort(seg) then
      var noted := if IsSynOnly(seg) && seg.dstPort == ControlPort then NoteControlSyn(t, client, now) else t;
      Outcome(Forward, noted)
    else
      var key := PairKeyOf(client, seg.srcPort, seg.dstPort);
      if HasPair(t, key) then
        var touched := TouchPair(t, key, now);
        Outcome(Forward, if EndsSession(seg) then ClosePair(touched, key) else touched)
      else if IsSynOnly(seg) && IsPairCandidate(seg.srcPort, seg.dstPort) && CanOpenPair(t, client, now) then
        Outcome(Forward, OpenPair(t, key, now))
      else
        Outcome(Drop(NotAdmitted), t)
  }

  /** A datagram is considered at all only when it is a TCP segment sent to
      the gateway. */
  predicate Qualifies(d: Datagram) {
    d.dst == Gateway && d.protocol == TcpProtocol && d.segment.Some?
  }

  /** The decision for one datagram read at `now`. A datagram that does
      not qualify is dropped before the sweep and leaves the tracker as it
      was; a qualifying one is judged by `Admit` on the swept tracker. */
  function Classify(t: Tracker, d: Datagram, now: Instant): (o: Outcome)
    ensures !Qualifies(d) ==> o.decision.Drop? && o.tracker == t
    ensures d.dst != Gateway ==> o.decision == Drop(NotForGateway)
    ensures Qualifies(d) ==> o == Admit(Cleanup(t, now), d.src, d.segment.value, now)
  {
    if d.dst != Gateway then
      Outcome(Drop(NotForGateway), t)
    else if d.protocol != TcpProtocol then
      Outcome(Drop(NotTcp), t)
    else
      match d.segment
      case None => Outcome(Drop(MalformedTcp), t)
      case Some(seg) => Admit(Cleanup(t, now), d.src, seg, now)
  }

  /** The echo of a forwarded datagram: source and destination swapped,
      everything else as received. */
  function Reflect(d: Datagram): (e: Datagram)
    ensures e.src == d.dst && e.dst == d.src
    ensures e.protocol == d.protocol && e.segment == d.segment
  {
    d.(src := d.dst, dst := d.src)
  }

  /** Reflecting twice gives back the original datagram. */
  lemma ReflectInvolutive(d: Datagram)
    ensures Reflect(Reflect(d)) == d
  {
  }

  /** One turn of the reflector loop: the datagram to write back, if any,
      and the tracker afterwards. A reply always comes from the gateway and
      goes to the sender, carrying the received segment unchanged. */
  function HandlePacket(t: Tracker, d: Datagram, now: Instant): (r: (Option<Datagram>, Tracker))
    ensures r.0.Some? <==> Classify(t, d, now).decision == Forward
    ensures r.0.Some? ==> r.0.value == Reflect(d) && r.0.value.src == Gateway
    ensures r.1 == Classify(t, d, now).tracker
  {
    var o := Classify(t, d, now);
    (if o.decision == Forward then Some(Reflect(d)) else None, o.tracker)
  }

  /** A datagram read at an instant. */
  datatype Arrival = Arrival(datagram: Datagram, at: Instant)

  /** The reflector run over a sequence of arrivals: one reply slot per
      arrival, in order, and the final tracker. Every reply is the echo of
      the datagram in its own slot. */
  function Run(t: Tracker, trace: seq<Arrival>): (r: (seq<Option<Datagram>>, Tracker))
    ensures |r.0| == |trace|
    ensures forall i :: 0 <= i < |trace| && r.0[i].Some? ==>
      r.0[i].value == Reflect(trace[i].datagram) && Qualifies(trace[i].datagram)
    decreases |trace|
  {
    if |trace| == 0 then
      ([], t)
    else
      var (reply, next) := HandlePacket(t, trace[0].datagram, trace[0].at);
      var (replies, last) := Run(next, trace[1..]);
      ([reply] + replies, last)
  }

  /** Running a non-empty prefix is one turn followed by the rest of the
      prefix. */
  lemma RunPrefixUnfold(t: Tracker, trace: seq<Arrival>, i: nat)
    requires 0 < i <= |trace|
    ensures Run(t, trace[..i]).1
      == Run(HandlePacket(t, trace[0].datagram, trace[0].at).1, trace[1..][..i - 1]).1
  {
    assert trace[..i][0] == trace[0];
    assert trace[..i][1..] == trace[1..][..i - 1];
  }

  /** Slot `i` of a run holds exactly what one turn of the loop replies to
      arrival `i`, on the tracker reached after the arrivals before it. */
  lemma {:induction false} RunIsStepwise(t: Tracker, trace: seq<Arrival>)
    ensures forall i :: 0 <= i < |trace| ==>
      Run(t, trace).0[i] == HandlePacket(Run(t, trace[..i]).1, trace[i].datagram, trace[i].at).0
    decreases |trace|
  {
    if |trace| > 0 {
      var next := HandlePacket(t, trace[0].datagram, trace[0].at).1;
      RunIsStepwise(next, trace[1..]);
      forall i | 0 <= i < |trace|
        ensures Run(t, trace).0[i] == HandlePacket(Run(t, trace[..i]).1, trace[i].datagram, trace[i].at).0
      {
        if i == 0 {
          assert trace[..0] == [];
        } else {
          RunPrefixUnfold(t, trace, i);
          assert trace[1..][i - 1] == trace[i];
        }
      }
    }
  }
}
