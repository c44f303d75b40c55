/** The sliding window of the CC rate limiter (node/data/cc_protection.h): 64 time buckets of
    equal width kept in a ring of 65. Timestamps are steady-clock milliseconds. */
module CcWindow {
  import opened Wrappers

  const BUCKETS := 64
  const RING := 65

  datatype Limits = Limits(requests: nat, window: nat, mitigation: nat)

  predicate Validated(l: Limits) {
    && 0 < l.requests <= 1_000_000_000
    && 1000 <= l.window <= 3_600_000
    && 1000 <= l.mitigation <= 86_400_000
  }

  function Width(l: Limits): (w: nat)
    ensures l.window <= BUCKETS * w && (0 < l.window ==> 0 < w)
  {
    (l.window + BUCKETS - 1) / BUCKETS
  }

  /** Saturating 64-bit addition. */
  function Add(a: nat, b: nat): (r: nat)
    ensures r <= a + b
  {
    if a > U64_MAX - b then U64_MAX else a + b
  }

  function Sat(n: nat): (r: nat) { if n > U64_MAX then U64_MAX else n }

  lemma AddSaturates(a: nat, b: nat)
    ensures Add(Sat(a), Sat(b)) == Sat(a + b)
  {
  }

  function SlotOf(now: nat, l: Limits): (s: nat)
    requires Validated(l)
  {
    now / Width(l)
  }

  /** A bucket is retained until its end leaves the window. */
  predicate Live(slot: nat, now: nat, l: Limits) { (slot + 1) * Width(l) + l.window > now }

  // ---------------------------------------------------------------------------
  // Arithmetic of slots
  // ---------------------------------------------------------------------------

  lemma SlotBounds(now: nat, l: Limits)
    requires Validated(l)
    ensures SlotOf(now, l) * Width(l) <= now < (SlotOf(now, l) + 1) * Width(l)
  {
  }

  lemma MulMonotone(a: nat, b: nat, w: nat)
    requires a <= b
    ensures a * w <= b * w
  {
  }

  lemma SlotMonotone(a: nat, b: nat, l: Limits)
    requires Validated(l) && a <= b
    ensures SlotOf(a, l) <= SlotOf(b, l)
  {
    SlotBounds(a, l);
    SlotBounds(b, l);
    if SlotOf(b, l) < SlotOf(a, l) { MulMonotone(SlotOf(b, l) + 1, SlotOf(a, l), Width(l)); }
  }

  /** Live slots up to the current one fit in 65 consecutive numbers. */
  lemma LiveSlotsFit(slot: nat, now: nat, l: Limits)
    requires Validated(l) && Live(slot, now, l)
    ensures SlotOf(now, l) <= slot + BUCKETS
  {
    SlotBounds(now, l);
    assert (slot + BUCKETS + 1) * Width(l) == (slot + 1) * Width(l) + BUCKETS * Width(l);
    if slot + BUCKETS + 1 <= SlotOf(now, l) { MulMonotone(slot + BUCKETS + 1, SlotOf(now, l), Width(l)); }
  }

  lemma ResiduesDistinct(a: nat, b: nat)
    requires a <= b < a + RING && a % RING == b % RING
    ensures a == b
  {
  }

  /** Two slots of one ring place that are not after the current slot: the live one is the later. */
  lemma OlderIsDead(older: nat, slot: nat, now: nat, l: Limits)
    requires Validated(l) && older < slot <= SlotOf(now, l) && older % RING == slot % RING
    ensures !Live(older, now, l)
  {
    if Live(older, now, l) {
      LiveSlotsFit(older, now, l);
      ResiduesDistinct(older, slot);
    }
  }

  lemma LiveNeverReturns(slot: nat, earlier: nat, now: nat, l: Limits)
    requires earlier <= now && Live(slot, now, l)
    ensures Live(slot, earlier, l)
  {
  }

  /** A request in the window is in a live slot, and a live slot reaches back less than one width further. */
  lemma WindowMeansLive(t: nat, now: nat, l: Limits)
    requires Validated(l) && t <= now
    ensures now < t + l.window ==> Live(SlotOf(t, l), now, l)
    ensures Live(SlotOf(t, l), now, l) ==> now < t + l.window + Width(l)
  {
    SlotBounds(t, l);
    assert (SlotOf(t, l) + 1) * Width(l) == SlotOf(t, l) * Width(l) + Width(l);
  }
}
