/** The session tracker: when each client last sent a control SYN, which
    data pairs are open and when each was last seen, and when the last
    sweep of stale entries ran. Every operation is a pure function from the
    old tracker to the new one. */
module Sessions {
  import opened Clock
  import opened Wire

  /** A client is identified by its source address. */
  type Client = Ipv4Address

  /** A data pair: the client and its two ports, lower port first. */
  datatype PairKey = PairKey(client: Client, low: U16, high: U16)

  /** A data pair's state is its last-seen instant, the value stored for
      its key in `dataPairs`. */
  datatype Tracker = Tracker(
    lastControlSyn: map<Client, Instant>,
    dataPairs: map<PairKey, Instant>,
    lastCleanup: Option<Instant>)

  /** The tracker at process start. */
  const Initial: Tracker := Tracker(map[], map[], None)

  /** The canonical key of the connection between ports `a` and `b`,
      whichever of the two is the source. */
  function PairKeyOf(client: Client, a: U16, b: U16): (k: PairKey)
    ensures k.client == client
    ensures k.low <= k.high
    ensures (k.low == a && k.high == b) || (k.low == b && k.high == a)
  {
    if a <= b then PairKey(client, a, b) else PairKey(client, b, a)
  }

  /** Both directions of a connection share one key. */
  lemma PairKeySymmetric(client: Client, a: U16, b: U16)
    ensures PairKeyOf(client, a, b) == PairKeyOf(client, b, a)
  {
  }

  /** Two port pairs share a key exactly when they belong to the same
      client and name the same two ports, in either order. */
  lemma PairKeySameConnection(c: Client, a: U16, b: U16, c': Client, a': U16, b': U16)
    ensures PairKeyOf(c, a, b) == PairKeyOf(c', a', b')
      <==> c == c' && ((a == a' && b == b') || (a == b' && b == a'))
  {
  }

  /** Records a control SYN from `client` at `now`, replacing any earlier
      one. */
  function NoteControlSyn(t: Tracker, client: Client, now: Instant): (r: Tracker)
    ensures r.lastControlSyn.Keys == t.lastControlSyn.Keys + {client}
    ensures r.lastControlSyn[client] == now
    ensures forall c :: c in t.lastControlSyn && c != client ==>
      r.lastControlSyn[c] == t.lastControlSyn[c]
    ensures r.dataPairs == t.dataPairs && r.lastCleanup == t.lastCleanup
  {
    t.(lastControlSyn := t.lastControlSyn[client := now])
  }

  /** True when `client` sent a control SYN no more than the pair-open
      window before `now`. */
  function CanOpenPair(t: Tracker, client: Client, now: Instant): (recent: bool)
    ensures recent <==> client in t.lastControlSyn
                         && now <= t.lastControlSyn[client] + PairOpenWindowAfterControl
  {
    client in t.lastControlSyn
    && DurationSince(now, t.lastControlSyn[client]) <= PairOpenWindowAfterControl
  }

  /** A control SYN at `t0` makes the client fresh up to and including
      five seconds later, and stale afterwards. */
  lemma ControlWindowGating(t: Tracker, client: Client, t0: Instant, now: Instant)
    ensures CanOpenPair(NoteControlSyn(t, client, t0), client, now)
      <==> now <= t0 + PairOpenWindowAfterControl
  {
  }

  predicate HasPair(t: Tracker, key: PairKey) {
    key in t.dataPairs
  }

  /** Refreshes the last-seen time of an open pair; an absent key is left
      absent. */
  function TouchPair(t: Tracker, key: PairKey, now: Instant): (r: Tracker)
    ensures r.dataPairs.Keys == t.dataPairs.Keys
    ensures key in t.dataPairs ==> r.dataPairs[key] == now
    ensures forall k :: k in t.dataPairs && k != key ==> r.dataPairs[k] == t.dataPairs[k]
    ensures key !in t.dataPairs ==> r == t
    ensures r.lastControlSyn == t.lastControlSyn && r.lastCleanup == t.lastCleanup
  {
    if key in t.dataPairs then t.(dataPairs := t.dataPairs[key := now]) else t
  }

  /** Opens (or re-opens) a pair with last-seen time `now`. */
  function OpenPair(t: Tracker, key: PairKey, now: Instant): (r: Tracker)
    ensures r.dataPairs.Keys == t.dataPairs.Keys + {key}
    ensures r.dataPairs[key] == now
    ensures forall k :: k in t.dataPairs && k != key ==> r.dataPairs[k] == t.dataPairs[k]
    ensures r.lastControlSyn == t.lastControlSyn && r.lastCleanup == t.lastCleanup
  {
    t.(dataPairs := t.dataPairs[key := now])
  }

  /** Forgets a pair; an absent key is a no-op. */
  function ClosePair(t: Tracker, key: PairKey): (r: Tracker)
    ensures r.dataPairs.Keys == t.dataPairs.Keys - {key}
    ensures forall k :: k in r.dataPairs ==> r.dataPairs[k] == t.dataPairs[k]
    ensures key !in t.dataPairs ==> r == t
    ensures r.lastControlSyn == t.lastControlSyn && r.lastCleanup == t.lastCleanup
  {
    t.(dataPairs := t.dataPairs - {key})
  }

  /** Re-opening an open pair only refreshes it: the key set stays the
      same and the result is that of touching it. */
  lemma ReopenIsTouch(t: Tracker, key: PairKey, now: Instant)
    requires HasPair(t, key)
    ensures OpenPair(t, key, now) == TouchPair(t, key, now)
    ensures OpenPair(t, key, now).dataPairs.Keys == t.dataPairs.Keys
  {
  }

  /** Opening the same pair twice leaves one record, stamped with the
      second time. */
  lemma OpenTwice(t: Tracker, key: PairKey, first: Instant, second: Instant)
    ensures OpenPair(OpenPair(t, key, first), key, second) == OpenPair(t, key, second)
  {
  }

  /** `m'` holds exactly the entries of `m` whose age at `now` is within
      `ttl`, with their values unchanged. */
  ghost predicate SweptFrom<K(!new)>(m: map<K, Instant>, m': map<K, Instant>, now: Instant, ttl: Duration) {
    && (forall k :: k in m' <==> k in m && now <= m[k] + ttl)
    && (forall k :: k in m' ==> m'[k] == m[k])
  }

  /** `HashMap::retain` with the predicate "age at `now` is within
      `ttl`". */
  function Retain<K(!new)>(m: map<K, Instant>, now: Instant, ttl: Duration): (m': map<K, Instant>)
    ensures SweptFrom(m, m', now, ttl)
  {
    map k | k in m && DurationSince(now, m[k]) <= ttl :: m[k]
  }

  /** A sweep is due when none has run yet or the last one is at least the
      cleanup interval in the past. */
  predicate SweepDue(t: Tracker, now: Instant) {
    t.lastCleanup.None? || DurationSince(now, t.lastCleanup.value) >= CleanupInterval
  }

  /** The throttled sweep: when it is not due nothing changes; otherwise
      each map keeps exactly its entries that are young enough and the
      sweep time becomes `now`. */
  function Cleanup(t: Tracker, now: Instant): (r: Tracker)
    ensures t.lastCleanup.Some? && now < t.lastCleanup.value + CleanupInterval ==> r == t
    ensures t.lastCleanup.None? || t.lastCleanup.value + CleanupInterval <= now ==>
      && SweptFrom(t.lastControlSyn, r.lastControlSyn, now, ControlEventTtl)
      && SweptFrom(t.dataPairs, r.dataPairs, now, DataPairIdleTimeout)
      && r.lastCleanup == Some(now)
  {
    if SweepDue(t, now) then
      Tracker(Retain(t.lastControlSyn, now, ControlEventTtl),
              Retain(t.dataPairs, now, DataPairIdleTimeout),
              Some(now))
    else
      t
  }

  /** A sweep only removes entries; it never adds one or changes a
      timestamp. */
  lemma CleanupOnlyRemoves(t: Tracker, now: Instant)
    ensures Cleanup(t, now).lastControlSyn.Keys <= t.lastControlSyn.Keys
    ensures Cleanup(t, now).dataPairs.Keys <= t.dataPairs.Keys
    ensures forall c :: c in Cleanup(t, now).lastControlSyn ==>
      Cleanup(t, now).lastControlSyn[c] == t.lastControlSyn[c]
    ensures forall k :: k in Cleanup(t, now).dataPairs ==>
      Cleanup(t, now).dataPairs[k] == t.dataPairs[k]
  {
  }

  /** Cleaning up twice at the same instant is the same as once. */
  lemma CleanupIdempotent(t: Tracker, now: Instant)
    ensures Cleanup(Cleanup(t, now), now) == Cleanup(t, now)
  {
  }

  /** Idle expiry: once a due sweep runs, a pair idle for longer than the
      timeout is gone and one idle for no longer than it is kept. */
  lemma CleanupExpiresIdlePairs(t: Tracker, key: PairKey, now: Instant)
    requires key in t.dataPairs
    requires SweepDue(t, now)
    ensures key in Cleanup(t, now).dataPairs <==> now <= t.dataPairs[key] + DataPairIdleTimeout
  {
  }
}
