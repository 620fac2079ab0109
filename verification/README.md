# sidestore-vpn admission core in Dafny

A model of the packet admission logic of the sidestore-vpn reflector. The reflector reads IPv4 datagrams from a tunnel device and writes selected ones straight back to their sender, with source and destination addresses swapped. Only TCP segments addressed to the gateway 10.7.0.1 are considered. Of those, traffic on the lockdown control port 62078 is always echoed. Traffic on a data pair of adjacent ports is echoed only while that pair is open. A pair is opened only by a SYN-only segment that arrives within five seconds of the client's control SYN.

The model is purely functional. The session tracker is an immutable record of two maps and an optional last-sweep time. Each tracker operation, and one turn of the loop, is a function from the old tracker to the new one.

- `clock.dfy` (`Clock`): nanosecond instants, the saturating `duration_since`, and the 5 s / 30 s / 30 s / 5 s constants.
- `wire.dfy` (`Wire`): the parsed datagram, i.e. addresses, protocol number and optional TCP segment.
- `sessions.dfy` (`Sessions`): `PairKey`, the tracker and all of its operations, including the throttled sweep.
- `admission.dfy` (`Admission`): `IsSynOnly`, `IsPairCandidate`, the per-packet decision (`Admit`, `Classify`), the reflection, one loop turn (`HandlePacket`) and a run over a sequence of arrivals (`Run`).
- `invariants.dfy` (`Invariants`): invariants kept by every loop turn on a clock that never runs backwards, and what they imply.
- `scenario.dfy` (`Scenario`): a worked session, from handshake to pair to idle expiry.

Dropped packets carry a reason (`NotForGateway`, `NotTcp`, `MalformedTcp`, `NotAdmitted`). The source drops them all silently, so the reason only labels the branch that dropped the packet.

The candidate test `Admission.IsPairCandidate` follows the code, which checks only that the lower port is not 62078. Requiring that neither port is 62078 would also exclude the pair 62077/62078. Inside the loop the two readings agree, because control-port traffic is handled by the earlier branch (`Admission.PairCandidateIsAdjacency`, `Invariants.RunOpensOnlyAdjacentPairs`).

## Model

| member | source | states |
|---|---|---|
| Clock.DurationSince | src/main.rs:58 | `Instant::duration_since`: the elapsed time from the earlier instant to `now`, and zero when the earlier instant is in fact later (also used at lines 81, 87 and 89) |
| Sessions.PairKeyOf | src/main.rs:42-49 | the key keeps the client, puts the lower port first, and holds exactly the two given ports |
| Sessions.PairKeySymmetric | src/main.rs:42-49 | swapping source and destination port gives the same key |
| Sessions.PairKeySameConnection | src/main.rs:22-27 | two port pairs share a key iff they have the same client and the same two ports in either order |
| Sessions.NoteControlSyn | src/main.rs:51-53 | the client's control SYN time becomes `now` (last write wins); every other client entry, the pairs and the sweep time are unchanged |
| Sessions.CanOpenPair | src/main.rs:55-59 | true iff the client has a control SYN record and `now` is at most 5 s after it; false with no record |
| Sessions.ControlWindowGating | src/main.rs:51-59 | checked right after a control SYN at t0, with no traffic in between, the client is fresh exactly up to t0 + 5 s (the same across later traffic is `Invariants.ControlWindowAcrossTraffic`) |
| Sessions.HasPair | src/main.rs:61-63 | membership of the key in the pair map; it has no effect on the tracker |
| Sessions.TouchPair | src/main.rs:65-69 | refreshes only the given key to `now`; the key set and every other entry are unchanged; an absent key is a no-op |
| Sessions.OpenPair | src/main.rs:71-73 | the given key is present with time `now`; no other key is added and no other entry changes |
| Sessions.ClosePair | src/main.rs:75-77 | removes only the given key; an absent key is a no-op |
| Sessions.ReopenIsTouch | src/main.rs:65-73 | re-opening an open pair equals touching it and keeps the key set |
| Sessions.OpenTwice | src/main.rs:71-73 | opening a key twice leaves one record, stamped with the second time |
| Sessions.Retain | src/main.rs:86-89 | keeps exactly the entries whose age is within the TTL, with values unchanged |
| Sessions.Cleanup | src/main.rs:79-91 | within 5 s of the last sweep the tracker is unchanged; otherwise each map keeps exactly its entries at most 30 s old and the sweep time becomes `now` |
| Sessions.CleanupOnlyRemoves | src/main.rs:79-91 | a sweep never adds an entry or changes a timestamp |
| Sessions.CleanupIdempotent | src/main.rs:79-91 | a second cleanup at the same instant changes nothing |
| Sessions.CleanupExpiresIdlePairs | src/main.rs:88-89 | in a due sweep a pair survives iff it was seen at most 30 s before `now` |
| Admission.IsSynOnly | src/main.rs:94-96 | SYN set and ACK clear |
| Admission.IsPairCandidate | src/main.rs:98-105 | true iff the ports are one apart and the lower one is not 62078; the `u16` subtraction cannot wrap |
| Admission.PairCandidateSymmetric | src/main.rs:98-105 | the candidate test does not depend on port order |
| Admission.PairCandidateIsAdjacency | src/main.rs:98-105 | away from the control port the candidate test is exactly "the ports differ by one" |
| Admission.Admit | src/main.rs:157-185 | control traffic is always forwarded and records a handshake only for a SYN-only segment to 62078; an open pair is forwarded and refreshed, or removed on FIN/RST; otherwise it is forwarded iff SYN-only, adjacent and fresh, and then opens its pair; every drop leaves the tracker as it was; a new pair appears only after a recent handshake |
| Admission.Classify | src/main.rs:137-155 | a datagram not sent to 10.7.0.1, not TCP, or not a valid segment is dropped before the sweep with the tracker unchanged; any other is judged on the swept tracker |
| Admission.Reflect | src/main.rs:187-190 | source and destination are swapped; protocol and segment are as received |
| Admission.ReflectInvolutive | src/main.rs:187-190 | reflecting twice restores the datagram |
| Admission.HandlePacket | src/main.rs:136-194 | a reply is written iff the decision is Forward; it is the reflected datagram and comes from the gateway |
| Admission.Run | src/main.rs:131-197 | one reply slot per arrival; every reply echoes the qualifying datagram in its own slot |
| Admission.RunIsStepwise | src/main.rs:131-197 | slot i of a run is exactly the reply of one loop turn to arrival i, on the tracker reached after the arrivals before it |
| Invariants.CleanupKeepsSound | src/main.rs:79-91 | after the sweep of a qualifying packet the tracker is sound and was swept less than 5 s ago |
| Invariants.AdmitKeepsSound | src/main.rs:164-185 | the admission rules keep timestamps not in the future, pairs adjacent and off the control port, and records young at the last sweep |
| Invariants.StepKeepsSound | src/main.rs:137-185 | one loop turn on a non-decreasing clock keeps the tracker sound |
| Invariants.RunKeepsSound | src/main.rs:131-197 | a whole run on a non-decreasing clock keeps the tracker sound |
| Invariants.StepBoundsAge | src/main.rs:79-91 | right after a qualifying packet no record is older than 30 s plus the 5 s sweep interval |
| Invariants.StepKeepsPairsAdjacent | src/main.rs:170-184 | one loop turn, at any clock reading, keeps every open pair two adjacent ports, neither of them 62078 |
| Invariants.RunKeepsPairsAdjacent | src/main.rs:131-197 | a whole run, at any clock readings, keeps every open pair adjacent and off the control port |
| Invariants.RunOpensOnlyAdjacentPairs | src/main.rs:170-184 | from the initial tracker, every open pair is two adjacent ports, neither of them 62078 |
| Invariants.TerminationRetiresPair | src/main.rs:172-177 | FIN/RST on an open pair is echoed and closes it in the same turn; a later SYN on the same ports needs a fresh handshake |
| Invariants.AdmissionRequiresFreshness | src/main.rs:178-184 | a SYN-only adjacent segment with no open pair is admitted iff the handshake is fresh; a drop leaves the swept tracker |
| Invariants.StepKeepsControlRecord | src/main.rs:155-168 | a turn that is not a control SYN from the client never creates or restamps its record, and keeps it while the clock is within 30 s of it |
| Invariants.RunKeepsControlStamp | src/main.rs:131-197 | across arrivals with no control SYN from the client, its record can only disappear, never appear or change |
| Invariants.RunRetainsControlRecord | src/main.rs:131-197 | across such arrivals, all within 30 s of the record, the record survives every sweep |
| Invariants.ControlWindowAcrossTraffic | src/main.rs:51-59 | after a handshake at t0 and any traffic without a later control SYN from the client, it may open a pair at `now` iff `now` is at most t0 + 5 s |
| Scenario.EndToEnd | src/main.rs:131-197 | handshake at 0 s, pair at 1 s, ACK at 2 s are echoed; the sweep at 40 s empties both maps, so the repeated SYN at 41 s is dropped |

## Left out

- Tunnel device creation, configuration, `read`/`write` and the 1504-byte buffer (src/main.rs:116-132, 193): these are I/O. A read or write failure ends the loop, and that is not modelled.
- Command-line parsing and the Ctrl-C handler (src/main.rs:8-14, 108-114): these are library glue.
- IPv4 and TCP byte-level parsing (src/main.rs:136, 149): the input is an already-parsed `Datagram`. A payload that fails TCP validation is `segment == None`. A buffer that fails IPv4 validation never reaches the model.
- Checksum maintenance by the address setters (src/main.rs:189-192): this is foreign code. `Reflect` swaps the two address fields of the record. IPv4 header fields other than the addresses and the protocol are not represented.
- `Instant::now()` (src/main.rs:154): the clock reading is a parameter, in nanoseconds. The invariants in `Invariants` assume a non-decreasing clock, as `Instant` guarantees. `DurationSince` saturates at zero, like `Instant::duration_since`.
- The client string `src_addr.to_string()` (src/main.rs:157): the client is identified by the address itself. Dotted-decimal formatting is injective, so the keys compare the same way.
- `PairState` (src/main.rs:29-32): it has the single field `last_seen`, so the pair map stores that instant directly.
