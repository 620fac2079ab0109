/** The monotonic clock the reflector reads once per packet, and the fixed
    time constants of the admission policy. An instant is a count of
    nanoseconds since an arbitrary origin; a duration is a count of
    nanoseconds. */
module Clock {

  type Instant = nat
  type Duration = nat

  const NanosPerSecond: Duration := 1_000_000_000

  /** How long after a control SYN a data pair may still be opened. */
  const PairOpenWindowAfterControl: Duration := 5 * NanosPerSecond
  /** How long a control SYN record survives a sweep. */
  const ControlEventTtl: Duration := 30 * NanosPerSecond
  /** How long an idle data pair survives a sweep. */
  const DataPairIdleTimeout: Duration := 30 * NanosPerSecond
  /** Minimum spacing between two sweeps. */
  const CleanupInterval: Duration := 5 * NanosPerSecond

  /** `Instant::duration_since`: the time elapsed from `earlier` to `now`,
      saturating at zero when `earlier` is the later of the two. */
  function DurationSince(now: Instant, earlier: Instant): (d: Duration)
    ensures earlier <= now ==> earlier + d == now
    ensures now <= earlier ==> d == 0
  {
    if earlier <= now then now - earlier else 0
  }
}
