/** The node-wide half of the rate limiter (cc_aggregator): absolute per-source counts are merged
    per slot, so that retries and duplicates change nothing. */
module CcAggregator {
  import opened Wrappers
  import opened CcWindow
  import opened CcWorker

  datatype Shared = Shared(slot: nat, total: nat, sources: map<nat, nat>)

  const EMPTY := Shared(0, 0, map[])

  datatype Joint = Joint(limits: Limits, buckets: seq<Shared>, blockedUntil: nat, changed: bool)

  datatype Aggregator = Aggregator(
    workers: nat, capacity: nat, sequence: nat, saturatedUntil: nat,
    sequences: map<nat, nat>, entries: map<CcKey, Joint>)

  datatype Batch = Batch(instance: nat, sequence: nat, observed: nat, counts: seq<CountRecord>)

  predicate Jointed(e: Joint) { |e.buckets| == RING && Validated(e.limits) }

  predicate AllJointed(a: Aggregator) { forall k :: k in a.entries ==> Jointed(a.entries[k]) }

  function Source(b: Shared, instance: nat): nat { if instance in b.sources then b.sources[instance] else 0 }

  function NewJoint(l: Limits): (e: Joint)
    ensures |e.buckets| == RING
  {
    Joint(l, seq(RING, _ => EMPTY), 0, false)
  }

  /** A count is merged only while its slot is live and not after the batch was observed. */
  predicate Mergeable(c: CountRecord, observed: nat, now: nat)
    requires Validated(c.limits)
  {
    Live(c.bucket, now, c.limits) && c.bucket <= SlotOf(observed, c.limits)
  }

  function Joined(b: Shared, slot: nat, instance: nat, count: nat): (r: Shared) {
    var held := if b.slot != slot then EMPTY.(slot := slot) else b;
    if count > Source(held, instance)
    then Shared(slot, Add(held.total, count - Source(held, instance)), held.sources[instance := count])
    else held
  }

  /** One count of a batch: the new state, and false when the source throws. */
  function MergeCount(a: Aggregator, instance: nat, observed: nat, now: nat, c: CountRecord): (r: (Aggregator, bool))
    requires AllJointed(a)
    ensures AllJointed(r.0)
  {
    if !Validated(c.limits) then (a, false)
    else if !Mergeable(c, observed, now) then (a, true)
    else if c.key !in a.entries && |a.entries| >= a.capacity then (a.(saturatedUntil := now + c.limits.window), true)
    else
      var e := if c.key in a.entries then a.entries[c.key] else NewJoint(c.limits);
      if e.limits != c.limits then (a, false)
      else
        var i := c.bucket % RING;
        var b := Joined(e.buckets[i], c.bucket, instance, c.count);
        var raised := c.count > (if e.buckets[i].slot == c.bucket then Source(e.buckets[i], instance) else 0);
        (a.(entries := a.entries[c.key := e.(buckets := e.buckets[i := b], changed := e.changed || raised)]), true)
  }

  function MergeCounts(a: Aggregator, instance: nat, observed: nat, now: nat, counts: seq<CountRecord>): (r: (Aggregator, bool))
    requires AllJointed(a)
    ensures AllJointed(r.0)
    decreases |counts|
  {
    if counts == [] then (a, true)
    else
      var (n, ok) := MergeCount(a, instance, observed, now, counts[0]);
      if ok then MergeCounts(n, instance, observed, now, counts[1..]) else (n, false)
  }

  predicate Accepts(a: Aggregator, b: Batch, now: nat) {
    b.instance < a.workers && b.observed <= now && (if b.instance in a.sequences then a.sequences[b.instance] else 0) < b.sequence
  }

  function MergeOn(a: Aggregator, b: Batch, now: nat): (r: (Aggregator, bool))
    requires AllJointed(a)
    ensures AllJointed(r.0)
  {
    if !Accepts(a, b, now) then (a, true)
    else MergeCounts(a.(sequences := a.sequences[b.instance := b.sequence]), b.instance, b.observed, now, b.counts)
  }

  function JointSum(b: seq<Shared>, from: nat, now: nat, l: Limits, sum: nat): (r: nat)
    requires from <= |b|
    decreases |b| - from
  {
    if from == |b| then sum
    else JointSum(b, from + 1, now, l, if Live(b[from].slot, now, l) then Add(sum, b[from].total) else sum)
  }

  function Swept(b: seq<Shared>, now: nat, l: Limits): (r: seq<Shared>)
    ensures |r| == |b|
  {
    seq(|b|, i requires 0 <= i < |b| => if Live(b[i].slot, now, l) then b[i] else EMPTY)
  }

  /** One entry at a snapshot: dead buckets are cleared and a mitigation starts only on a change. */
  function Judged(e: Joint, now: nat): (r: Joint)
    requires Jointed(e)
    ensures Jointed(r)
  {
    var exceeded := e.changed && JointSum(e.buckets, 0, now, e.limits, 0) > e.limits.requests && e.blockedUntil <= now;
    Joint(e.limits, Swept(e.buckets, now, e.limits), if exceeded then now + e.limits.mitigation else e.blockedUntil, false)
  }

  predicate Retained(e: Joint, now: nat)
    requires Jointed(e)
  {
    JointSum(e.buckets, 0, now, e.limits, 0) != 0 || Judged(e, now).blockedUntil > now
  }

  function SnapshotOn(a: Aggregator, now: nat): (r: (Aggregator, Dispositions))
    requires AllJointed(a)
    ensures AllJointed(r.0)
  {
    (a.(sequence := a.sequence + 1,
        entries := map k | k in a.entries && Retained(a.entries[k], now) :: Judged(a.entries[k], now)),
     Dispositions(a.sequence + 1, if a.saturatedUntil > now then a.saturatedUntil else 0,
                  map k | k in a.entries && Judged(a.entries[k], now).blockedUntil > now :: Judged(a.entries[k], now).blockedUntil))
  }

  // ---------------------------------------------------------------------------
  // Runs
  // ---------------------------------------------------------------------------

  datatype Event = Merge(batch: Batch, now: nat) | Snapshot(now: nat)

  datatype Merged = Merged(key: CcKey, limits: Limits, slot: nat, instance: nat, count: nat)

  /** `merged` lists every count that passed the batch and liveness filters. */
  datatype Run = Run(agg: Aggregator, merged: seq<Merged>, clock: nat)

  /** One merged count recorded in the history. */
  function TakeCount(r: Run, instance: nat, observed: nat, c: CountRecord): (n: Run)
    requires AllJointed(r.agg)
    ensures AllJointed(n.agg) && n.clock == r.clock
  {
    var (agg, ok) := MergeCount(r.agg, instance, observed, r.clock, c);
    Run(agg, if ok && Mergeable(c, observed, r.clock) then r.merged + [Merged(c.key, c.limits, c.bucket, instance, c.count)] else r.merged, r.clock)
  }

  function TakeCounts(r: Run, instance: nat, observed: nat, counts: seq<CountRecord>): (n: Run)
    requires AllJointed(r.agg)
    ensures AllJointed(n.agg) && n.clock == r.clock
    ensures n.agg == MergeCounts(r.agg, instance, observed, r.clock, counts).0
    decreases |counts|
  {
    if counts == [] then r
    else
      var n := TakeCount(r, instance, observed, counts[0]);
      if MergeCount(r.agg, instance, observed, r.clock, counts[0]).1 then TakeCounts(n, instance, observed, counts[1..]) else n
  }

  predicate Enabled(r: Run, e: Event) {
    r.clock <= e.now && (e.Merge? ==> forall c :: c in e.batch.counts ==> c.count <= U64_MAX)
  }

  function Step(r: Run, e: Event): (n: Run)
    requires AllJointed(r.agg)
    ensures AllJointed(n.agg)
  {
    match e
    case Merge(b, now) =>
      if !Accepts(r.agg, b, now) then r.(clock := now)
      else TakeCounts(Run(r.agg.(sequences := r.agg.sequences[b.instance := b.sequence]), r.merged, now), b.instance, b.observed, b.counts)
    case Snapshot(now) => Run(SnapshotOn(r.agg, now).0, r.merged, now)
  }

  predicate IsRun(r: Run, events: seq<Event>)
    requires AllJointed(r.agg)
    decreases |events|
  {
    events == [] || (Enabled(r, events[0]) && IsRun(Step(r, events[0]), events[1..]))
  }

  function Exec(r: Run, events: seq<Event>): (n: Run)
    requires AllJointed(r.agg)
    ensures AllJointed(n.agg)
    decreases |events|
  {
    if events == [] then r else Exec(Step(r, events[0]), events[1..])
  }

  function StartAggregator(workers: nat, capacity: nat): Aggregator { Aggregator(workers, capacity, 0, 0, map[], map[]) }

  // ---------------------------------------------------------------------------
  // The join: largest count per source, summed over the sources
  // ---------------------------------------------------------------------------

  predicate About(m: Merged, key: CcKey, l: Limits, slot: nat, instance: nat) {
    m.key == key && m.limits == l && m.slot == slot && m.instance == instance
  }

  function Largest(ms: seq<Merged>, key: CcKey, l: Limits, slot: nat, instance: nat): (n: nat) {
    if ms == [] then 0
    else
      var rest := Largest(ms[..|ms| - 1], key, l, slot, instance);
      var m := ms[|ms| - 1];
      if About(m, key, l, slot, instance) && m.count > rest then m.count else rest
  }

  function SumLargest(ms: seq<Merged>, key: CcKey, l: Limits, slot: nat, workers: nat): (n: nat) {
    if workers == 0 then 0 else SumLargest(ms, key, l, slot, workers - 1) + Largest(ms, key, l, slot, workers - 1)
  }

  function SumSources(b: Shared, workers: nat): (n: nat) {
    if workers == 0 then 0 else SumSources(b, workers - 1) + Source(b, workers - 1)
  }

  /** The total the aggregator holds for a slot. */
  function TotalOf(a: Aggregator, key: CcKey, l: Limits, slot: nat): (n: nat)
    requires AllJointed(a)
  {
    if key in a.entries && a.entries[key].limits == l && a.entries[key].buckets[slot % RING].slot == slot
    then a.entries[key].buckets[slot % RING].total else 0
  }

  ghost predicate PlaceJoined(b: Shared, i: nat, ms: seq<Merged>, key: CcKey, l: Limits, clock: nat, workers: nat)
    requires Validated(l)
  {
    && b.slot <= SlotOf(clock, l)
    && (forall j :: j in b.sources ==> j < workers)
    && b.total == Sat(SumSources(b, workers))
    && if b.slot % RING == i
       then Live(b.slot, clock, l) ==> forall j: nat :: j < workers ==> Source(b, j) == Largest(ms, key, l, b.slot, j)
       else b.sources == map[]
  }

  ghost predicate RingJoined(e: Joint, ms: seq<Merged>, key: CcKey, clock: nat, workers: nat) {
    && Jointed(e)
    && (forall i :: 0 <= i < RING ==> PlaceJoined(e.buckets[i], i, ms, key, e.limits, clock, workers))
    && (forall s: nat, j: nat :: Live(s, clock, e.limits) && j < workers && Largest(ms, key, e.limits, s, j) > 0 ==>
          s <= SlotOf(clock, e.limits) && e.buckets[s % RING].slot == s)
  }

  ghost predicate Unheard(ms: seq<Merged>, key: CcKey, l: Limits, clock: nat, workers: nat) {
    forall s: nat, j: nat :: Live(s, clock, l) && j < workers ==> Largest(ms, key, l, s, j) == 0
  }

  /** Unless a key was refused for capacity, every ring is the join of what was merged. */
  ghost predicate Inv(r: Run) {
    && AllJointed(r.agg)
    && (r.agg.saturatedUntil == 0 ==>
          && (forall k :: k in r.agg.entries ==> RingJoined(r.agg.entries[k], r.merged, k, r.clock, r.agg.workers))
          && (forall k, l :: Validated(l) && (k !in r.agg.entries || r.agg.entries[k].limits != l) ==>
                Unheard(r.merged, k, l, r.clock, r.agg.workers)))
  }

  lemma LargestAppend(ms: seq<Merged>, m: Merged, key: CcKey, l: Limits, slot: nat, j: nat)
    ensures Largest(ms + [m], key, l, slot, j)
            == if About(m, key, l, slot, j) then Max(Largest(ms, key, l, slot, j), m.count) else Largest(ms, key, l, slot, j)
  {
    assert (ms + [m])[..|ms|] == ms;
  }

  lemma {:induction false} SumSourcesUpdate(b: Shared, c: Shared, instance: nat, workers: nat)
    requires forall j: nat :: j != instance ==> Source(c, j) == Source(b, j)
    ensures SumSources(c, workers) == SumSources(b, workers) + if instance < workers then Source(c, instance) - Source(b, instance) else 0
  {
    if workers > 0 { SumSourcesUpdate(b, c, instance, workers - 1); }
  }

  lemma {:induction false} SumSourcesEmpty(b: Shared, workers: nat)
    requires b.sources == map[]
    ensures SumSources(b, workers) == 0
  {
    if workers > 0 { SumSourcesEmpty(b, workers - 1); }
  }

  lemma {:induction false} SumSourcesZero(b: Shared, workers: nat, j: nat)
    requires j < workers
    ensures Source(b, j) <= SumSources(b, workers)
  {
    if j < workers - 1 { SumSourcesZero(b, workers - 1, j); }
  }

  lemma {:induction false} SumsAgree(b: Shared, ms: seq<Merged>, key: CcKey, l: Limits, slot: nat, workers: nat)
    requires forall j: nat :: j < workers ==> Source(b, j) == Largest(ms, key, l, slot, j)
    ensures SumSources(b, workers) == SumLargest(ms, key, l, slot, workers)
  {
    if workers > 0 { SumsAgree(b, ms, key, l, slot, workers - 1); }
  }

  lemma {:induction false} SilenceSums(ms: seq<Merged>, key: CcKey, l: Limits, slot: nat, workers: nat)
    requires forall j: nat :: j < workers ==> Largest(ms, key, l, slot, j) == 0
    ensures SumLargest(ms, key, l, slot, workers) == 0
  {
    if workers > 0 { SilenceSums(ms, key, l, slot, workers - 1); }
  }

  lemma PlaceLater(b: Shared, i: nat, ms: seq<Merged>, key: CcKey, l: Limits, clock: nat, now: nat, workers: nat)
    requires Validated(l) && PlaceJoined(b, i, ms, key, l, clock, workers) && clock <= now
    ensures PlaceJoined(b, i, ms, key, l, now, workers)
  {
    SlotMonotone(clock, now, l);
    if Live(b.slot, now, l) { LiveNeverReturns(b.slot, clock, now, l); }
  }

  lemma RingJoinedLater(e: Joint, ms: seq<Merged>, key: CcKey, clock: nat, now: nat, workers: nat)
    requires RingJoined(e, ms, key, clock, workers) && clock <= now
    ensures RingJoined(e, ms, key, now, workers)
  {
    SlotMonotone(clock, now, e.limits);
    forall i | 0 <= i < RING ensures PlaceJoined(e.buckets[i], i, ms, key, e.limits, now, workers) {
      PlaceLater(e.buckets[i], i, ms, key, e.limits, clock, now, workers);
    }
    forall s: nat, j: nat | Live(s, now, e.limits) && j < workers && Largest(ms, key, e.limits, s, j) > 0
      ensures s <= SlotOf(now, e.limits) && e.buckets[s % RING].slot == s
    {
      LiveNeverReturns(s, clock, now, e.limits);
    }
  }

  lemma UnheardLater(ms: seq<Merged>, key: CcKey, l: Limits, clock: nat, now: nat, workers: nat)
    requires Unheard(ms, key, l, clock, workers) && clock <= now
    ensures Unheard(ms, key, l, now, workers)
  {
    forall s: nat, j: nat | Live(s, now, l) && j < workers ensures Largest(ms, key, l, s, j) == 0 { LiveNeverReturns(s, clock, now, l); }
  }

  lemma NewJointRing(ms: seq<Merged>, key: CcKey, l: Limits, now: nat, workers: nat)
    requires Validated(l) && Unheard(ms, key, l, now, workers)
    ensures RingJoined(NewJoint(l), ms, key, now, workers)
  {
    SumSourcesEmpty(EMPTY, workers);
  }

  /** A late count of an older slot never displaces a live newer one: what a merge resets is dead or empty. */
  lemma OnlyDeadBucketsAreDisplaced(e: Joint, ms: seq<Merged>, key: CcKey, now: nat, workers: nat, slot: nat)
    requires RingJoined(e, ms, key, now, workers) && Live(slot, now, e.limits) && slot <= SlotOf(now, e.limits)
    ensures var b := e.buckets[slot % RING];
            b.slot != slot ==> b.sources == map[] || (b.slot < slot && !Live(b.slot, now, e.limits))
  {
    var b := e.buckets[slot % RING];
    assert PlaceJoined(b, slot % RING, ms, key, e.limits, now, workers);
    if b.slot % RING == slot % RING {
      if b.slot < slot { OlderIsDead(b.slot, slot, now, e.limits); }
      if slot < b.slot { OlderIsDead(slot, b.slot, now, e.limits); }
    }
  }

  /** The merged place: exact for the new history. */
  lemma JoinedPlace(e: Joint, ms: seq<Merged>, key: CcKey, now: nat, workers: nat, slot: nat, instance: nat, count: nat)
    requires RingJoined(e, ms, key, now, workers) && Live(slot, now, e.limits) && slot <= SlotOf(now, e.limits)
    requires instance < workers && count <= U64_MAX
    ensures PlaceJoined(Joined(e.buckets[slot % RING], slot, instance, count), slot % RING,
                        ms + [Merged(key, e.limits, slot, instance, count)], key, e.limits, now, workers)
  {
    var b := e.buckets[slot % RING];
    var m := Merged(key, e.limits, slot, instance, count);
    var held := if b.slot != slot then EMPTY.(slot := slot) else b;
    var r := Joined(b, slot, instance, count);
    assert PlaceJoined(b, slot % RING, ms, key, e.limits, now, workers);
    SumSourcesEmpty(EMPTY.(slot := slot), workers);
    assert forall j: nat :: j < workers ==> Source(held, j) == Largest(ms, key, e.limits, slot, j);
    SumSourcesUpdate(held, r, instance, workers);
    if count > Source(held, instance) { AddSaturates(SumSources(held, workers), count - Source(held, instance)); }
    forall j: nat | j < workers ensures Source(r, j) == Largest(ms + [m], key, e.limits, slot, j) {
      LargestAppend(ms, m, key, e.limits, slot, j);
    }
  }

  lemma UntouchedPlace(b: Shared, i: nat, ms: seq<Merged>, m: Merged, key: CcKey, l: Limits, now: nat, workers: nat)
    requires Validated(l) && PlaceJoined(b, i, ms, key, l, now, workers)
    requires !(m.key == key && m.limits == l && m.slot == b.slot) || b.slot % RING != i
    ensures PlaceJoined(b, i, ms + [m], key, l, now, workers)
  {
    forall j: nat ensures !(m.key == key && m.limits == l && m.slot == b.slot) ==>
                            Largest(ms + [m], key, l, b.slot, j) == Largest(ms, key, l, b.slot, j) {
      LargestAppend(ms, m, key, l, b.slot, j);
    }
  }

  lemma JoinedCovers(e: Joint, ms: seq<Merged>, key: CcKey, now: nat, workers: nat, slot: nat, instance: nat, count: nat, s: nat, j: nat)
    requires RingJoined(e, ms, key, now, workers) && Live(slot, now, e.limits) && slot <= SlotOf(now, e.limits)
    requires Live(s, now, e.limits) && j < workers
    requires Largest(ms + [Merged(key, e.limits, slot, instance, count)], key, e.limits, s, j) > 0
    ensures s <= SlotOf(now, e.limits)
    ensures e.buckets[slot % RING := Joined(e.buckets[slot % RING], slot, instance, count)][s % RING].slot == s
  {
    LargestAppend(ms, Merged(key, e.limits, slot, instance, count), key, e.limits, s, j);
    if s < slot && s % RING == slot % RING { OlderIsDead(s, slot, now, e.limits); }
    if slot < s && s % RING == slot % RING { OlderIsDead(slot, s, now, e.limits); }
  }

  lemma JoinedRing(e: Joint, changed: bool, ms: seq<Merged>, key: CcKey, now: nat, workers: nat, slot: nat, instance: nat, count: nat)
    requires RingJoined(e, ms, key, now, workers) && Live(slot, now, e.limits) && slot <= SlotOf(now, e.limits)
    requires instance < workers && count <= U64_MAX
    ensures RingJoined(e.(buckets := e.buckets[slot % RING := Joined(e.buckets[slot % RING], slot, instance, count)], changed := changed),
                       ms + [Merged(key, e.limits, slot, instance, count)], key, now, workers)
  {
    var m := Merged(key, e.limits, slot, instance, count);
    var n := e.(buckets := e.buckets[slot % RING := Joined(e.buckets[slot % RING], slot, instance, count)], changed := changed);
    forall i | 0 <= i < RING ensures PlaceJoined(n.buckets[i], i, ms + [m], key, e.limits, now, workers) {
      if i == slot % RING { JoinedPlace(e, ms, key, now, workers, slot, instance, count); }
      else {
        assert PlaceJoined(e.buckets[i], i, ms, key, e.limits, now, workers);
        UntouchedPlace(e.buckets[i], i, ms, m, key, e.limits, now, workers);
      }
    }
    forall s: nat, j: nat | Live(s, now, e.limits) && j < workers && Largest(ms + [m], key, e.limits, s, j) > 0
      ensures s <= SlotOf(now, e.limits) && n.buckets[s % RING].slot == s
    {
      JoinedCovers(e, ms, key, now, workers, slot, instance, count, s, j);
    }
  }

  lemma OtherRing(e: Joint, ms: seq<Merged>, m: Merged, key: CcKey, now: nat, workers: nat)
    requires RingJoined(e, ms, key, now, workers) && (m.key != key || m.limits != e.limits)
    ensures RingJoined(e, ms + [m], key, now, workers)
  {
    forall i | 0 <= i < RING ensures PlaceJoined(e.buckets[i], i, ms + [m], key, e.limits, now, workers) {
      assert PlaceJoined(e.buckets[i], i, ms, key, e.limits, now, workers);
      UntouchedPlace(e.buckets[i], i, ms, m, key, e.limits, now, workers);
    }
    forall s: nat, j: nat ensures Largest(ms + [m], key, e.limits, s, j) == Largest(ms, key, e.limits, s, j) {
      LargestAppend(ms, m, key, e.limits, s, j);
    }
  }

  lemma OtherUnheard(ms: seq<Merged>, m: Merged, key: CcKey, l: Limits, now: nat, workers: nat)
    requires Unheard(ms, key, l, now, workers) && (m.key != key || m.limits != l)
    ensures Unheard(ms + [m], key, l, now, workers)
  {
    forall s: nat, j: nat ensures Largest(ms + [m], key, l, s, j) == Largest(ms, key, l, s, j) {
      LargestAppend(ms, m, key, l, s, j);
    }
  }

  // ---------------------------------------------------------------------------
  // Every step keeps the join
  // ---------------------------------------------------------------------------

  lemma RunLater(r: Run, now: nat)
    requires Inv(r) && r.clock <= now
    ensures Inv(r.(clock := now))
  {
    if r.agg.saturatedUntil == 0 {
      forall k | k in r.agg.entries ensures RingJoined(r.agg.entries[k], r.merged, k, now, r.agg.workers) {
        RingJoinedLater(r.agg.entries[k], r.merged, k, r.clock, now, r.agg.workers);
      }
      forall k, l | Validated(l) && (k !in r.agg.entries || r.agg.entries[k].limits != l)
        ensures Unheard(r.merged, k, l, now, r.agg.workers)
      {
        UnheardLater(r.merged, k, l, r.clock, now, r.agg.workers);
      }
    }
  }

  lemma TakeCountKeeps(r: Run, instance: nat, observed: nat, c: CountRecord)
    requires Inv(r) && instance < r.agg.workers && observed <= r.clock && c.count <= U64_MAX
    ensures Inv(TakeCount(r, instance, observed, c))
  {
    var n := TakeCount(r, instance, observed, c);
    var workers := r.agg.workers;
    if n.agg.saturatedUntil == 0 && n.merged != r.merged {
      var m := n.merged[|n.merged| - 1];
      SlotMonotone(observed, r.clock, c.limits);
      var e := if c.key in r.agg.entries then r.agg.entries[c.key] else NewJoint(c.limits);
      if c.key !in r.agg.entries { NewJointRing(r.merged, c.key, c.limits, r.clock, workers); }
      JoinedRing(e, n.agg.entries[c.key].changed, r.merged, c.key, r.clock, workers, c.bucket, instance, c.count);
      forall k | k in n.agg.entries ensures RingJoined(n.agg.entries[k], n.merged, k, r.clock, workers) {
        if k != c.key { OtherRing(r.agg.entries[k], r.merged, m, k, r.clock, workers); }
      }
      forall k, l | Validated(l) && (k !in n.agg.entries || n.agg.entries[k].limits != l)
        ensures Unheard(n.merged, k, l, r.clock, workers)
      {
        OtherUnheard(r.merged, m, k, l, r.clock, workers);
      }
    }
  }

  lemma {:induction false} TakeCountsKeeps(r: Run, instance: nat, observed: nat, counts: seq<CountRecord>)
    requires Inv(r) && instance < r.agg.workers && observed <= r.clock && forall c :: c in counts ==> c.count <= U64_MAX
    ensures Inv(TakeCounts(r, instance, observed, counts))
    decreases |counts|
  {
    if counts != [] {
      TakeCountKeeps(r, instance, observed, counts[0]);
      TakeCountsKeeps(TakeCount(r, instance, observed, counts[0]), instance, observed, counts[1..]);
    }
  }

  lemma SweptRing(e: Joint, n: Joint, ms: seq<Merged>, key: CcKey, now: nat, workers: nat)
    requires RingJoined(e, ms, key, now, workers)
    requires n.limits == e.limits && n.buckets == Swept(e.buckets, now, e.limits)
    ensures RingJoined(n, ms, key, now, workers)
  {
    SumSourcesEmpty(EMPTY, workers);
    forall i | 0 <= i < RING ensures PlaceJoined(n.buckets[i], i, ms, key, n.limits, now, workers) {
      assert PlaceJoined(e.buckets[i], i, ms, key, e.limits, now, workers);
      MulMonotone(1, e.buckets[i].slot + 1, Width(e.limits));
    }
  }

  lemma {:induction false} JointSumZero(b: seq<Shared>, from: nat, now: nat, l: Limits, sum: nat)
    requires from <= |b| && JointSum(b, from, now, l, sum) == 0
    ensures sum == 0 && forall i :: from <= i < |b| && Live(b[i].slot, now, l) ==> b[i].total == 0
    decreases |b| - from
  {
    if from < |b| {
      JointSumZero(b, from + 1, now, l, if Live(b[from].slot, now, l) then Add(sum, b[from].total) else sum);
    }
  }

  /** An entry erased by a snapshot had nothing live in it. */
  lemma ErasedIsUnheard(e: Joint, ms: seq<Merged>, key: CcKey, now: nat, workers: nat)
    requires RingJoined(e, ms, key, now, workers) && !Retained(e, now)
    ensures Unheard(ms, key, e.limits, now, workers)
  {
    JointSumZero(e.buckets, 0, now, e.limits, 0);
    forall s: nat, j: nat | Live(s, now, e.limits) && j < workers ensures Largest(ms, key, e.limits, s, j) == 0 {
      var b := e.buckets[s % RING];
      assert PlaceJoined(b, s % RING, ms, key, e.limits, now, workers);
      SumSourcesZero(b, workers, j);
    }
  }

  lemma SnapshotKeeps(r: Run)
    requires Inv(r)
    ensures Inv(Step(r, Snapshot(r.clock)))
  {
    var n := Step(r, Snapshot(r.clock));
    var workers := r.agg.workers;
    if r.agg.saturatedUntil == 0 {
      forall k | k in n.agg.entries ensures RingJoined(n.agg.entries[k], n.merged, k, r.clock, workers) {
        SweptRing(r.agg.entries[k], n.agg.entries[k], r.merged, k, r.clock, workers);
      }
      forall k, l | Validated(l) && (k !in n.agg.entries || n.agg.entries[k].limits != l)
        ensures Unheard(n.merged, k, l, r.clock, workers)
      {
        if k in r.agg.entries && k !in n.agg.entries && r.agg.entries[k].limits == l {
          ErasedIsUnheard(r.agg.entries[k], r.merged, k, r.clock, workers);
        }
      }
    }
  }

  lemma StepKeeps(r: Run, e: Event)
    requires Inv(r) && Enabled(r, e)
    ensures Inv(Step(r, e))
  {
    RunLater(r, e.now);
    var later := r.(clock := e.now);
    match e {
      case Merge(b, now) =>
        if Accepts(r.agg, b, now) {
          var noted := later.(agg := r.agg.(sequences := r.agg.sequences[b.instance := b.sequence]));
          assert Inv(noted);
          TakeCountsKeeps(noted, b.instance, b.observed, b.counts);
        }
      case Snapshot(now) => SnapshotKeeps(later);
    }
  }

  lemma {:induction false} RunKeeps(r: Run, events: seq<Event>)
    requires Inv(r) && IsRun(r, events)
    ensures Inv(Exec(r, events))
    decreases |events|
  {
    if events != [] {
      StepKeeps(r, events[0]);
      RunKeeps(Step(r, events[0]), events[1..]);
    }
  }

  lemma StartHolds(workers: nat, capacity: nat)
    ensures Inv(Run(StartAggregator(workers, capacity), [], 0))
  {
  }

  // ---------------------------------------------------------------------------
  // Main results
  // ---------------------------------------------------------------------------

  lemma LiveTotalIsJoin(r: Run, key: CcKey, l: Limits, slot: nat)
    requires Inv(r) && r.agg.saturatedUntil == 0 && Validated(l) && Live(slot, r.clock, l)
    ensures TotalOf(r.agg, key, l, slot) == Sat(SumLargest(r.merged, key, l, slot, r.agg.workers))
  {
    var n := r.agg.workers;
    if key in r.agg.entries && r.agg.entries[key].limits == l {
      var b := r.agg.entries[key].buckets[slot % RING];
      assert PlaceJoined(b, slot % RING, r.merged, key, l, r.clock, n);
      if b.slot == slot { SumsAgree(b, r.merged, key, l, slot, n); } else { SilenceSums(r.merged, key, l, slot, n); }
    } else {
      assert Unheard(r.merged, key, l, r.clock, n);
      SilenceSums(r.merged, key, l, slot, n);
    }
  }

  /** Aggregation is a join: in every run that never refused a key for capacity, the total of
      every live slot is the (saturated) sum over the workers of the largest count merged for it. */
  lemma TotalsAreSumsOfMaxima(workers: nat, capacity: nat, events: seq<Event>, key: CcKey, l: Limits, slot: nat)
    requires IsRun(Run(StartAggregator(workers, capacity), [], 0), events) && Validated(l)
    ensures var r := Exec(Run(StartAggregator(workers, capacity), [], 0), events);
            r.agg.saturatedUntil == 0 && Live(slot, r.clock, l) ==>
              TotalOf(r.agg, key, l, slot) == Sat(SumLargest(r.merged, key, l, slot, r.agg.workers))
  {
    StartHolds(workers, capacity);
    RunKeeps(Run(StartAggregator(workers, capacity), [], 0), events);
    var r := Exec(Run(StartAggregator(workers, capacity), [], 0), events);
    if r.agg.saturatedUntil == 0 && Live(slot, r.clock, l) { LiveTotalIsJoin(r, key, l, slot); }
  }

  lemma {:induction false} LargestBounds(ms: seq<Merged>, key: CcKey, l: Limits, slot: nat, j: nat)
    ensures forall m :: m in ms && About(m, key, l, slot, j) ==> m.count <= Largest(ms, key, l, slot, j)
    ensures Largest(ms, key, l, slot, j) > 0 ==>
              exists m :: m in ms && About(m, key, l, slot, j) && m.count == Largest(ms, key, l, slot, j)
  {
    if ms != [] {
      var rest := ms[..|ms| - 1];
      LargestBounds(rest, key, l, slot, j);
      assert ms == rest + [ms[|ms| - 1]];
    }
  }

  /** Delivery order, duplication and resending do not matter: the join depends only on which
      counts were merged, not on when or how often. */
  lemma {:induction false} OrderDoesNotMatter(a: seq<Merged>, b: seq<Merged>, key: CcKey, l: Limits, slot: nat, workers: nat)
    requires forall m :: m in a <==> m in b
    ensures SumLargest(a, key, l, slot, workers) == SumLargest(b, key, l, slot, workers)
  {
    if workers > 0 {
      OrderDoesNotMatter(a, b, key, l, slot, workers - 1);
      LargestBounds(a, key, l, slot, workers - 1);
      LargestBounds(b, key, l, slot, workers - 1);
    }
  }

  /** A count that this source delivered before, in whatever batch. */
  predicate Delivered(r: Run, instance: nat, c: CountRecord) {
    Validated(c.limits) && c.count > 0 && Merged(c.key, c.limits, c.bucket, instance, c.count) in r.merged
  }

  /** One count delivered again: dead by now and skipped, or already held by its slot and source. */
  lemma ResentCountChangesNothing(r: Run, instance: nat, observed: nat, now: nat, c: CountRecord)
    requires Inv(r) && r.agg.saturatedUntil == 0 && r.clock <= now && instance < r.agg.workers && Delivered(r, instance, c)
    ensures MergeCount(r.agg, instance, observed, now, c) == (r.agg, true)
  {
    if Mergeable(c, observed, now) {
      LiveNeverReturns(c.bucket, r.clock, now, c.limits);
      LargestBounds(r.merged, c.key, c.limits, c.bucket, instance);
      var m := Merged(c.key, c.limits, c.bucket, instance, c.count);
      assert About(m, c.key, c.limits, c.bucket, instance);
      assert !Unheard(r.merged, c.key, c.limits, r.clock, r.agg.workers);
      var e, i := r.agg.entries[c.key], c.bucket % RING;
      assert PlaceJoined(e.buckets[i], i, r.merged, c.key, e.limits, r.clock, r.agg.workers);
      assert e.buckets[i := e.buckets[i]] == e.buckets;
      assert r.agg.entries[c.key := e] == r.agg.entries;
    }
  }

  lemma {:induction false} ResentCountsChangeNothing(r: Run, instance: nat, observed: nat, now: nat, counts: seq<CountRecord>)
    requires Inv(r) && r.agg.saturatedUntil == 0 && r.clock <= now && instance < r.agg.workers
    requires forall c :: c in counts ==> Delivered(r, instance, c)
    ensures MergeCounts(r.agg, instance, observed, now, counts) == (r.agg, true)
    decreases |counts|
  {
    if counts != [] {
      ResentCountChangesNothing(r, instance, observed, now, counts[0]);
      ResentCountsChangeNothing(r, instance, observed, now, counts[1..]);
    }
  }

  /** Batches merged one after the other, each at its own time. */
  function MergeAll(a: Aggregator, batches: seq<(Batch, nat)>): (r: Aggregator)
    requires AllJointed(a)
    ensures AllJointed(r)
    decreases |batches|
  {
    if batches == [] then a else MergeAll(MergeOn(a, batches[0].0, batches[0].1).0, batches[1..])
  }

  /** Every count of every batch was delivered by the same source before. */
  predicate Resent(r: Run, batches: seq<(Batch, nat)>) {
    forall d :: d in batches ==> r.clock <= d.1 && forall c :: c in d.0.counts ==> Delivered(r, d.0.instance, c)
  }

  lemma {:induction false} ResentBatchesChangeNothing(r: Run, batches: seq<(Batch, nat)>)
    requires Inv(r) && r.agg.saturatedUntil == 0 && Resent(r, batches)
    ensures var a := MergeAll(r.agg, batches); a == r.agg.(sequences := a.sequences)
    decreases |batches|
  {
    if batches != [] {
      var (b, now) := batches[0];
      assert batches[0] in batches;
      var noted := r.(agg := r.agg.(sequences := r.agg.sequences[b.instance := b.sequence]));
      if Accepts(r.agg, b, now) {
        ResentCountsChangeNothing(noted, b.instance, b.observed, now, b.counts);
        ResentBatchesChangeNothing(noted, batches[1..]);
      } else {
        ResentBatchesChangeNothing(r, batches[1..]);
      }
    }
  }

  /** In every run that refused no key for capacity: batches of counts delivered before, any number
      of them and whenever they arrive, change no entry, whether their slots still live or not. */
  lemma ResendChangesNothing(workers: nat, capacity: nat, events: seq<Event>, batches: seq<(Batch, nat)>)
    requires IsRun(Run(StartAggregator(workers, capacity), [], 0), events)
    ensures var r := Exec(Run(StartAggregator(workers, capacity), [], 0), events);
            r.agg.saturatedUntil == 0 && Resent(r, batches) ==> MergeAll(r.agg, batches).entries == r.agg.entries
  {
    StartHolds(workers, capacity);
    RunKeeps(Run(StartAggregator(workers, capacity), [], 0), events);
    var r := Exec(Run(StartAggregator(workers, capacity), [], 0), events);
    if r.agg.saturatedUntil == 0 && Resent(r, batches) { ResentBatchesChangeNothing(r, batches); }
  }

  /** In every such run: a snapshot, any resent batches and another snapshot start no mitigation
      and move no block deadline, even when the sum still exceeds the limit. */
  lemma ResendNeverRenewsMitigation(workers: nat, capacity: nat, events: seq<Event>, first: nat, batches: seq<(Batch, nat)>, second: nat, key: CcKey)
    requires IsRun(Run(StartAggregator(workers, capacity), [], 0), events)
    requires Exec(Run(StartAggregator(workers, capacity), [], 0), events).clock <= first
    ensures var held := Step(Exec(Run(StartAggregator(workers, capacity), [], 0), events), Snapshot(first));
            held.agg.saturatedUntil == 0 && Resent(held, batches) ==>
              var again := SnapshotOn(MergeAll(held.agg, batches), second).0;
              key in again.entries ==> key in held.agg.entries && again.entries[key].blockedUntil == held.agg.entries[key].blockedUntil
  {
    StartHolds(workers, capacity);
    RunKeeps(Run(StartAggregator(workers, capacity), [], 0), events);
    var r := Exec(Run(StartAggregator(workers, capacity), [], 0), events);
    StepKeeps(r, Snapshot(first));
    var held := Step(r, Snapshot(first));
    if held.agg.saturatedUntil == 0 && Resent(held, batches) { ResentBatchesChangeNothing(held, batches); }
  }

  // ---------------------------------------------------------------------------
  // What a snapshot decides and what a merge marks
  // ---------------------------------------------------------------------------

  /** The live totals of the first `n` ring places. */
  function LiveTotals(b: seq<Shared>, n: nat, now: nat, l: Limits): (sum: nat)
    requires n <= |b|
  {
    if n == 0 then 0 else LiveTotals(b, n - 1, now, l) + if Live(b[n - 1].slot, now, l) then b[n - 1].total else 0
  }

  lemma {:induction false} JointSumIs(b: seq<Shared>, n: nat, now: nat, l: Limits)
    requires n <= |b| && forall i :: 0 <= i < |b| ==> b[i].total <= U64_MAX
    ensures JointSum(b, n, now, l, Sat(LiveTotals(b, n, now, l))) == Sat(LiveTotals(b, |b|, now, l))
    decreases |b| - n
  {
    if n < |b| {
      if Live(b[n].slot, now, l) { AddSaturates(LiveTotals(b, n, now, l), b[n].total); }
      JointSumIs(b, n + 1, now, l);
    }
  }

  /** No total exceeds 64 bits. */
  predicate Narrow(e: Joint) { forall i :: 0 <= i < |e.buckets| ==> e.buckets[i].total <= U64_MAX }

  /** A snapshot denies a key exactly while its block runs, or when a count was raised since the last
      snapshot and the live totals exceed the limit; a new block lasts one mitigation period, a running
      one keeps its deadline. The entry stays while it is denied or holds live counts, unmarked. */
  lemma SnapshotDecides(a: Aggregator, now: nat, key: CcKey)
    requires AllJointed(a) && key in a.entries && Narrow(a.entries[key])
    ensures var e, (n, d) := a.entries[key], SnapshotOn(a, now);
            var sum := LiveTotals(e.buckets, RING, now, e.limits);
            && (key in d.blockedUntil <==> e.blockedUntil > now || (e.changed && sum > e.limits.requests))
            && (key in d.blockedUntil ==> d.blockedUntil[key] == if e.blockedUntil > now then e.blockedUntil else now + e.limits.mitigation)
            && (key in n.entries <==> key in d.blockedUntil || sum > 0)
            && (key in n.entries ==>
                  && n.entries[key].limits == e.limits && !n.entries[key].changed && |n.entries[key].buckets| == RING
                  && (key in d.blockedUntil ==> n.entries[key].blockedUntil == d.blockedUntil[key])
                  && forall i :: 0 <= i < RING ==> n.entries[key].buckets[i] == if Live(e.buckets[i].slot, now, e.limits) then e.buckets[i] else EMPTY)
  {
    var e := a.entries[key];
    JointSumIs(e.buckets, 0, now, e.limits);
  }

  /** Nothing else is denied or kept; snapshots are numbered one by one and carry the saturation. */
  lemma SnapshotFrame(a: Aggregator, now: nat, key: CcKey)
    requires AllJointed(a)
    ensures var (n, d) := SnapshotOn(a, now);
            && (key !in a.entries ==> key !in d.blockedUntil && key !in n.entries)
            && d.sequence == n.sequence == a.sequence + 1
            && d.saturatedUntil == (if a.saturatedUntil > now then a.saturatedUntil else 0)
            && n.saturatedUntil == a.saturatedUntil && n.sequences == a.sequences && n.workers == a.workers && n.capacity == a.capacity
  {
  }

  /** The count held for a worker in a slot. */
  function Held(a: Aggregator, key: CcKey, slot: nat, instance: nat): (n: nat)
    requires AllJointed(a)
  {
    if key in a.entries && a.entries[key].buckets[slot % RING].slot == slot then Source(a.entries[key].buckets[slot % RING], instance) else 0
  }

  /** A merge marks an entry exactly when it raises the count held for that worker and slot. */
  lemma MergeMarksExactly(a: Aggregator, instance: nat, observed: nat, now: nat, c: CountRecord, k: CcKey)
    requires AllJointed(a) && k in MergeCount(a, instance, observed, now, c).0.entries
    ensures var n := MergeCount(a, instance, observed, now, c).0;
            n.entries[k].changed <==>
              || (k in a.entries && a.entries[k].changed)
              || (k == c.key && Held(a, k, c.bucket, instance) < Held(n, k, c.bucket, instance))
  {
  }

  /** Marks are only cleared by snapshots. */
  lemma {:induction false} MarksStay(a: Aggregator, instance: nat, observed: nat, now: nat, counts: seq<CountRecord>, k: CcKey)
    requires AllJointed(a) && k in a.entries
    ensures var n := MergeCounts(a, instance, observed, now, counts).0;
            && k in n.entries && n.entries[k].limits == a.entries[k].limits && n.entries[k].blockedUntil == a.entries[k].blockedUntil
            && (a.entries[k].changed ==> n.entries[k].changed)
    decreases |counts|
  {
    if counts != [] { MarksStay(MergeCount(a, instance, observed, now, counts[0]).0, instance, observed, now, counts[1..], k); }
  }

  /** A batch is taken when its worker is known, it is not from the future and newer than every batch of
      that worker before; then its number is noted. Otherwise it changes nothing. */
  lemma BatchTakenExactly(a: Aggregator, b: Batch, now: nat)
    requires AllJointed(a)
    ensures var n := MergeOn(a, b, now).0;
            var newer := b.instance in a.sequences ==> a.sequences[b.instance] < b.sequence;
            if b.instance < a.workers && b.observed <= now && 0 < b.sequence && newer
            then n.sequences == a.sequences[b.instance := b.sequence]
            else n == a && MergeOn(a, b, now).1
  {
    MergesKeepSequences(a.(sequences := a.sequences[b.instance := b.sequence]), b.instance, b.observed, now, b.counts);
  }

  lemma {:induction false} MergesKeepSequences(a: Aggregator, instance: nat, observed: nat, now: nat, counts: seq<CountRecord>)
    requires AllJointed(a)
    ensures MergeCounts(a, instance, observed, now, counts).0.sequences == a.sequences
    decreases |counts|
  {
    if counts != [] { MergesKeepSequences(MergeCount(a, instance, observed, now, counts[0]).0, instance, observed, now, counts[1..]); }
  }

  /** How one count is taken: invalid or conflicting limits end the batch, a dead or early slot is
      passed over, a new key beyond the capacity saturates the node for one window, and otherwise the
      worker's count in that slot is at least this one. */
  lemma MergeTakesExactly(a: Aggregator, instance: nat, observed: nat, now: nat, c: CountRecord)
    requires AllJointed(a)
    ensures var (n, ok) := MergeCount(a, instance, observed, now, c);
            && (Validated(c.limits) ==>
                  var live := Live(c.bucket, now, c.limits) && c.bucket <= SlotOf(observed, c.limits);
                  && (!live ==> ok && n == a)
                  && (live && c.key !in a.entries && |a.entries| >= a.capacity ==> ok && n == a.(saturatedUntil := now + c.limits.window))
                  && (live && c.key in a.entries ==> (ok <==> a.entries[c.key].limits == c.limits))
                  && (live && (c.key in a.entries || |a.entries| < a.capacity) && ok ==>
                        && Held(n, c.key, c.bucket, instance) == Max(Held(a, c.key, c.bucket, instance), c.count)
                        && n.saturatedUntil == a.saturatedUntil))
            && (!Validated(c.limits) ==> !ok)
            && (!ok ==> n == a)
            && (forall k :: k != c.key ==> (k in n.entries <==> k in a.entries) && (k in a.entries ==> n.entries[k] == a.entries[k]))
  {
  }

  // ---------------------------------------------------------------------------
  // The object the source updates in place
  // ---------------------------------------------------------------------------

  class Collector {
    var workers: nat
    var capacity: nat
    var sequence: nat
    var saturatedUntil: nat
    var sequences: map<nat, nat>
    var entries: map<CcKey, Joint>

    function State(): (a: Aggregator)
      reads this
    {
      Aggregator(workers, capacity, sequence, saturatedUntil, sequences, entries)
    }

    constructor (count: nat, size: nat)
      ensures State() == StartAggregator(count, size) && AllJointed(State())
    {
      workers, capacity, sequence, saturatedUntil, sequences, entries := count, size, 0, 0, map[], map[];
    }

    /** merge; `ok` is false when the source throws out of the loop. */
    method MergeBatch(b: Batch, now: nat) returns (ok: bool)
      requires AllJointed(State())
      modifies this`saturatedUntil, this`sequences, this`entries
      ensures AllJointed(State()) && (State(), ok) == MergeOn(old(State()), b, now)
    {
      if b.instance >= workers || b.observed > now || b.sequence <= (if b.instance in sequences then sequences[b.instance] else 0) {
        return true;
      }
      sequences := sequences[b.instance := b.sequence];
      ghost var start := State();
      var i := 0;
      while i < |b.counts|
        invariant 0 <= i <= |b.counts| && AllJointed(State())
        invariant MergeCounts(State(), b.instance, b.observed, now, b.counts[i..])
                  == MergeCounts(start, b.instance, b.observed, now, b.counts)
      {
        assert b.counts[i..][0] == b.counts[i] && b.counts[i..][1..] == b.counts[i + 1..];
        ok := MergeOne(b.instance, b.observed, now, b.counts[i]);
        if !ok {
          return false;
        }
        i := i + 1;
      }
      return true;
    }

    method MergeOne(instance: nat, observed: nat, now: nat, c: CountRecord) returns (ok: bool)
      requires AllJointed(State())
      modifies this`saturatedUntil, this`entries
      ensures AllJointed(State()) && (State(), ok) == MergeCount(old(State()), instance, observed, now, c)
    {
      if !Validated(c.limits) {
        return false;
      }
      if !Live(c.bucket, now, c.limits) || c.bucket > SlotOf(observed, c.limits) {
        return true;
      }
      var value := NewJoint(c.limits);
      if c.key in entries {
        value := entries[c.key];
      } else if |entries| >= capacity {
        saturatedUntil := now + c.limits.window;
        return true;
      }
      if value.limits != c.limits {
        return false;
      }
      var index := c.bucket % RING;
      var bucket := value.buckets[index];
      if bucket.slot != c.bucket {
        bucket := EMPTY.(slot := c.bucket);
      }
      var previous := Source(bucket, instance);
      if c.count > previous {
        bucket := Shared(c.bucket, Add(bucket.total, c.count - previous), bucket.sources[instance := c.count]);
        value := value.(changed := true);
      }
      entries := entries[c.key := value.(buckets := value.buckets[index := bucket])];
      return true;
    }

    method SumJoint(buckets: seq<Shared>, now: nat, l: Limits) returns (sum: nat, swept: seq<Shared>)
      ensures sum == JointSum(buckets, 0, now, l, 0) && swept == Swept(buckets, now, l)
    {
      sum, swept := 0, [];
      var i := 0;
      while i < |buckets|
        invariant 0 <= i <= |buckets| && swept == Swept(buckets, now, l)[..i]
        invariant JointSum(buckets, i, now, l, sum) == JointSum(buckets, 0, now, l, 0)
      {
        if Live(buckets[i].slot, now, l) {
          sum := Add(sum, buckets[i].total);
          swept := swept + [buckets[i]];
        } else {
          swept := swept + [EMPTY];
        }
        i := i + 1;
      }
    }

    method JudgeEntry(value: Joint, now: nat) returns (judged: Joint, retained: bool)
      requires Jointed(value)
      ensures judged == Judged(value, now) && retained == Retained(value, now)
    {
      var sum, swept := SumJoint(value.buckets, now, value.limits);
      var until := value.blockedUntil;
      // Do not renew a mitigation just because the same counters were resent.
      if value.changed && sum > value.limits.requests && until <= now {
        until := now + value.limits.mitigation;
      }
      judged := Joint(value.limits, swept, until, false);
      retained := sum != 0 || until > now;
    }

    /** One entry of the walk: the maps gain it, or its block deadline, exactly when they should. */
    method JudgeInto(k: CcKey, now: nat, kept0: map<CcKey, Joint>, blocked0: map<CcKey, nat>)
      returns (kept: map<CcKey, Joint>, blocked: map<CcKey, nat>)
      requires AllJointed(State()) && k in entries
      ensures kept == if Retained(entries[k], now) then kept0[k := Judged(entries[k], now)] else kept0
      ensures blocked == if Judged(entries[k], now).blockedUntil > now then blocked0[k := Judged(entries[k], now).blockedUntil] else blocked0
    {
      kept, blocked := kept0, blocked0;
      var judged, retained := JudgeEntry(entries[k], now);
      if judged.blockedUntil > now {
        blocked := blocked[k := judged.blockedUntil];
      }
      if retained {
        kept := kept[k := judged];
      }
    }

    /** The walk over all entries, in any order: what is kept and what is blocked. */
    method JudgeAll(now: nat, ghost judgement: map<CcKey, Joint>, ghost keep: set<CcKey>)
      returns (kept: map<CcKey, Joint>, blocked: map<CcKey, nat>)
      requires AllJointed(State()) && judgement.Keys == entries.Keys
      requires forall k :: k in entries ==> judgement[k] == Judged(entries[k], now) && (k in keep <==> Retained(entries[k], now))
      requires keep <= entries.Keys
      ensures kept.Keys == keep && forall k :: k in kept ==> kept[k] == judgement[k]
      ensures blocked.Keys == set k | k in judgement && judgement[k].blockedUntil > now
      ensures forall k :: k in blocked ==> blocked[k] == judgement[k].blockedUntil
    {
      kept, blocked := map[], map[];
      var keys := entries.Keys;
      while keys != {}
        invariant keys <= entries.Keys
        invariant forall k :: k in kept <==> k in keep && k !in keys
        invariant forall k :: k in kept ==> kept[k] == judgement[k]
        invariant forall k :: k in blocked <==> k in judgement && judgement[k].blockedUntil > now && k !in keys
        invariant forall k :: k in blocked ==> blocked[k] == judgement[k].blockedUntil
        decreases |keys|
      {
        var k :| k in keys;
        kept, blocked := JudgeInto(k, now, kept, blocked);
        keys := keys - {k};
      }
    }

    /** snapshot: judge every entry, publish the blocked ones and erase what is empty and unblocked. */
    method TakeSnapshot(now: nat) returns (d: Dispositions)
      requires AllJointed(State())
      modifies this`sequence, this`entries
      ensures AllJointed(State()) && (State(), d) == SnapshotOn(old(State()), now)
    {
      ghost var spec := SnapshotOn(State(), now);
      var kept, blocked := JudgeAll(now, map k | k in entries :: Judged(entries[k], now), spec.0.entries.Keys);
      assert kept == spec.0.entries && blocked == spec.1.blockedUntil;
      sequence := sequence + 1;
      entries := kept;
      d := Dispositions(sequence, if saturatedUntil > now then saturatedUntil else 0, blocked);
    }
  }
}
