/** Invariants of the tracker that every turn of the reflector loop keeps
    when the clock never runs backwards, and what they bound. */
module Invariants {
  import opened Clock
  import opened Wire
  import opened Sessions
  import opened Admission

  /** No record is stamped later than `now`. */
  ghost predicate NotFromFuture(t: Tracker, now: Instant) {
    && (forall c :: c in t.lastControlSyn ==> t.lastControlSyn[c] <= now)
    && (forall k :: k in t.dataPairs ==> t.dataPairs[k] <= now)
    && (t.lastCleanup.Some? ==> t.lastCleanup.value <= now)
  }

  /** Every open pair is two adjacent ports, neither of them the control
      port. */
  ghost predicate PairsAdjacent(t: Tracker) {
    forall k :: k in t.dataPairs ==>
      k.low + 1 == k.high && k.low != ControlPort && k.high != ControlPort
  }

  /** Before the first sweep the tracker is empty; after it, every record
      was young enough at the last sweep or was written since. */
  ghost predicate SweptSinceLast(t: Tracker) {
    match t.lastCleanup
    case None => t.lastControlSyn == map[] && t.dataPairs == map[]
    case Some(last) =>
      && (forall c :: c in t.lastControlSyn ==> last <= t.lastControlSyn[c] + ControlEventTtl)
      && (forall k :: k in t.dataPairs ==> last <= t.dataPairs[k] + DataPairIdleTimeout)
  }

  ghost predicate Sound(t: Tracker, now: Instant) {
    NotFromFuture(t, now) && PairsAdjacent(t) && SweptSinceLast(t)
  }

  /** The arrival instants never decrease and none precedes `from`. */
  ghost predicate Chronological(trace: seq<Arrival>, from: Instant)
    decreases |trace|
  {
    |trace| == 0 || (from <= trace[0].at && Chronological(trace[1..], trace[0].at))
  }

  /** The clock reading after the arrivals: the last arrival's instant, or
      `from` when there are none. */
  function LastInstant(trace: seq<Arrival>, from: Instant): Instant {
    if |trace| == 0 then from else trace[|trace| - 1].at
  }

  lemma InitialSound(now: Instant)
    ensures Sound(Initial, now)
  {
  }

  /** After a qualifying packet's sweep the tracker is sound at `now` and
      has been swept less than one cleanup interval ago. */
  lemma CleanupKeepsSound(t: Tracker, before: Instant, now: Instant)
    requires Sound(t, before) && before <= now
    ensures Sound(Cleanup(t, now), now)
    ensures Cleanup(t, now).lastCleanup.Some?
    ensures now < Cleanup(t, now).lastCleanup.value + CleanupInterval
  {
  }

  /** The admission rules keep a swept tracker sound. */
  lemma AdmitKeepsSound(t: Tracker, client: Client, seg: TcpSegment, now: Instant)
    requires Sound(t, now) && t.lastCleanup.Some? && t.lastCleanup.value <= now
    ensures Sound(Admit(t, client, seg, now).tracker, now)
    ensures Admit(t, client, seg, now).tracker.lastCleanup == t.lastCleanup
  {
  }

  /** One turn of the loop at a clock reading no earlier than the last one
      keeps the tracker sound. */
  lemma StepKeepsSound(t: Tracker, d: Datagram, before: Instant, now: Instant)
    requires Sound(t, before) && before <= now
    ensures Sound(HandlePacket(t, d, now).1, now)
  {
    if Qualifies(d) {
      CleanupKeepsSound(t, before, now);
      AdmitKeepsSound(Cleanup(t, now), d.src, d.segment.value, now);
    }
  }

  /** A whole run on a non-decreasing clock keeps the tracker sound. */
  lemma {:induction false} RunKeepsSound(t: Tracker, trace: seq<Arrival>, from: Instant)
    requires Sound(t, from) && Chronological(trace, from)
    ensures Sound(Run(t, trace).1, LastInstant(trace, from))
    decreases |trace|
  {
    if |trace| > 0 {
      var next := HandlePacket(t, trace[0].datagram, trace[0].at).1;
      StepKeepsSound(t, trace[0].datagram, from, trace[0].at);
      RunKeepsSound(next, trace[1..], trace[0].at);
      assert Run(t, trace).1 == Run(next, trace[1..]).1;
      assert LastInstant(trace[1..], trace[0].at) == LastInstant(trace, from);
    }
  }

  /** Bounded staleness: right after a qualifying packet, no record is
      older than its time-to-live plus one cleanup interval. */
  lemma StepBoundsAge(t: Tracker, d: Datagram, before: Instant, now: Instant)
    requires Sound(t, before) && before <= now && Qualifies(d)
    ensures forall c :: c in HandlePacket(t, d, now).1.lastControlSyn ==>
      now < HandlePacket(t, d, now).1.lastControlSyn[c] + ControlEventTtl + CleanupInterval
    ensures forall k :: k in HandlePacket(t, d, now).1.dataPairs ==>
      now < HandlePacket(t, d, now).1.dataPairs[k] + DataPairIdleTimeout + CleanupInterval
  {
  }

  /** One turn of the loop, at any clock reading, keeps every open pair
      two adjacent ports away from the control port. */
  lemma StepKeepsPairsAdjacent(t: Tracker, d: Datagram, now: Instant)
    requires PairsAdjacent(t)
    ensures PairsAdjacent(HandlePacket(t, d, now).1)
  {
  }

  lemma {:induction false} RunKeepsPairsAdjacent(t: Tracker, trace: seq<Arrival>)
    requires PairsAdjacent(t)
    ensures PairsAdjacent(Run(t, trace).1)
    decreases |trace|
  {
    if |trace| > 0 {
      var next := HandlePacket(t, trace[0].datagram, trace[0].at).1;
      StepKeepsPairsAdjacent(t, trace[0].datagram, trace[0].at);
      RunKeepsPairsAdjacent(next, trace[1..]);
    }
  }

  /** Every pair a run leaves open is two adjacent ports away from the
      control port, whatever the clock readings. */
  lemma RunOpensOnlyAdjacentPairs(trace: seq<Arrival>)
    ensures forall k :: k in Run(Initial, trace).1.dataPairs ==>
      k.low + 1 == k.high && k.low != ControlPort && k.high != ControlPort
  {
    RunKeepsPairsAdjacent(Initial, trace);
  }

  /** A FIN or RST on an open pair is echoed and retires the pair in the
      same turn; a later SYN on the same ports then needs a recent control
      handshake to be admitted again. */
  lemma TerminationRetiresPair(t: Tracker, d: Datagram, now: Instant, d': Datagram, later: Instant)
    requires Qualifies(d) && !TouchesControlPort(d.segment.value)
    requires HasPair(Cleanup(t, now), PairKeyOf(d.src, d.segment.value.srcPort, d.segment.value.dstPort))
    requires EndsSession(d.segment.value)
    requires Qualifies(d') && d'.src == d.src
    requires d'.segment.value.srcPort == d.segment.value.srcPort
    requires d'.segment.value.dstPort == d.segment.value.dstPort
    ensures HandlePacket(t, d, now).0 == Some(Reflect(d))
    ensures PairKeyOf(d.src, d.segment.value.srcPort, d.segment.value.dstPort)
              !in HandlePacket(t, d, now).1.dataPairs
    ensures HandlePacket(HandlePacket(t, d, now).1, d', later).0.Some? ==>
      CanOpenPair(Cleanup(HandlePacket(t, d, now).1, later), d.src, later)
  {
  }

  /** A SYN-only segment on adjacent ports that matches no open pair is
      echoed, and opens its pair, exactly when the client's control
      handshake is recent at `now`; otherwise it is dropped. */
  lemma AdmissionRequiresFreshness(t: Tracker, d: Datagram, now: Instant)
    requires Qualifies(d) && !TouchesControlPort(d.segment.value)
    requires IsSynOnly(d.segment.value)
    requires IsPairCandidate(d.segment.value.srcPort, d.segment.value.dstPort)
    requires !HasPair(Cleanup(t, now), PairKeyOf(d.src, d.segment.value.srcPort, d.segment.value.dstPort))
    ensures HandlePacket(t, d, now).0.Some? <==> CanOpenPair(Cleanup(t, now), d.src, now)
    ensures HandlePacket(t, d, now).0.Some? ==>
      PairKeyOf(d.src, d.segment.value.srcPort, d.segment.value.dstPort) in HandlePacket(t, d, now).1.dataPairs
    ensures HandlePacket(t, d, now).0.None? ==> HandlePacket(t, d, now).1 == Cleanup(t, now)
  {
  }

  /** A qualifying SYN-only segment from `client` to the control port:
      the only kind of packet that records a control handshake. */
  predicate IsControlSyn(d: Datagram, client: Client) {
    Qualifies(d) && d.src == client && IsSynOnly(d.segment.value)
    && d.segment.value.dstPort == ControlPort
  }

  /** One turn that is not a control SYN from `client` never creates or
      restamps its record, and keeps it when the clock is within the
      record's time-to-live. */
  lemma StepKeepsControlRecord(t: Tracker, d: Datagram, now: Instant, client: Client)
    requires !IsControlSyn(d, client)
    ensures client in HandlePacket(t, d, now).1.lastControlSyn ==>
      client in t.lastControlSyn
      && HandlePacket(t, d, now).1.lastControlSyn[client] == t.lastControlSyn[client]
    ensures client in t.lastControlSyn && now <= t.lastControlSyn[client] + ControlEventTtl ==>
      client in HandlePacket(t, d, now).1.lastControlSyn
  {
  }

  /** Across arrivals with no control SYN from `client`, its record is at
      most removed, never created or restamped. */
  lemma {:induction false} RunKeepsControlStamp(t: Tracker, trace: seq<Arrival>, client: Client)
    requires forall i :: 0 <= i < |trace| ==> !IsControlSyn(trace[i].datagram, client)
    ensures client in Run(t, trace).1.lastControlSyn ==>
      client in t.lastControlSyn && Run(t, trace).1.lastControlSyn[client] == t.lastControlSyn[client]
    decreases |trace|
  {
    if |trace| > 0 {
      var next := HandlePacket(t, trace[0].datagram, trace[0].at).1;
      StepKeepsControlRecord(t, trace[0].datagram, trace[0].at, client);
      assert forall i :: 0 <= i < |trace[1..]| ==> trace[1..][i] == trace[i + 1];
      RunKeepsControlStamp(next, trace[1..], client);
    }
  }

  /** Across arrivals with no control SYN from `client`, all within the
      record's time-to-live, the record survives. */
  lemma {:induction false} RunRetainsControlRecord(t: Tracker, trace: seq<Arrival>, client: Client)
    requires client in t.lastControlSyn
    requires forall i :: 0 <= i < |trace| ==> !IsControlSyn(trace[i].datagram, client)
    requires forall i :: 0 <= i < |trace| ==> trace[i].at <= t.lastControlSyn[client] + ControlEventTtl
    ensures client in Run(t, trace).1.lastControlSyn
    decreases |trace|
  {
    if |trace| > 0 {
      var next := HandlePacket(t, trace[0].datagram, trace[0].at).1;
      StepKeepsControlRecord(t, trace[0].datagram, trace[0].at, client);
      assert forall i :: 0 <= i < |trace[1..]| ==> trace[1..][i] == trace[i + 1];
      RunRetainsControlRecord(next, trace[1..], client);
    }
  }

  /** In a chronological trace no arrival is later than the last one. */
  lemma {:induction false} ChronologicalBounded(trace: seq<Arrival>, from: Instant)
    requires Chronological(trace, from)
    ensures forall i :: 0 <= i < |trace| ==> trace[i].at <= LastInstant(trace, from)
    decreases |trace|
  {
    if |trace| > 0 {
      ChronologicalBounded(trace[1..], trace[0].at);
      assert forall i :: 1 <= i < |trace| ==> trace[i] == trace[1..][i - 1];
    }
  }

  /** Control window gating across traffic: after a handshake at `t0`, and
      any arrivals that carry no later control SYN from the same client,
      the client may open a pair at `now` exactly when `now` is at most
      five seconds after `t0`. Sweeps in between never cut the window
      short, since the record's time-to-live is longer than the window. */
  lemma ControlWindowAcrossTraffic(t: Tracker, client: Client, t0: Instant,
                                   trace: seq<Arrival>, from: Instant, now: Instant)
    requires client in t.lastControlSyn && t.lastControlSyn[client] == t0
    requires Chronological(trace, from) && LastInstant(trace, from) <= now
    requires forall i :: 0 <= i < |trace| ==> !IsControlSyn(trace[i].datagram, client)
    ensures CanOpenPair(Cleanup(Run(t, trace).1, now), client, now)
      <==> now <= t0 + PairOpenWindowAfterControl
  {
    var last := Run(t, trace).1;
    RunKeepsControlStamp(t, trace, client);
    CleanupOnlyRemoves(last, now);
    if now <= t0 + PairOpenWindowAfterControl {
      ChronologicalBounded(trace, from);
      RunRetainsControlRecord(t, trace, client);
    }
  }
}
