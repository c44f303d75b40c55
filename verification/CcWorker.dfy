/** One data worker's share of the rate limiter (cc_worker): a map of counters updated by every
    request, reported to the control loop and evicted once nothing in them is live. */
module CcWorker {
  import opened Wrappers
  import opened CcWindow

  datatype CcKey = CcKey(website: string, policy: string, rule: string, address: string)

  datatype Bucket = Bucket(slot: nat, count: nat)

  datatype Entry = Entry(limits: Limits, buckets: seq<Bucket>, lastSeen: nat, blockedUntil: nat, dirty: bool)

  datatype Dispositions = Dispositions(sequence: nat, saturatedUntil: nat, blockedUntil: map<CcKey, nat>)

  datatype CountRecord = CountRecord(key: CcKey, limits: Limits, bucket: nat, count: nat)

  datatype Worker = Worker(sequence: nat, capacity: nat, entries: map<CcKey, Entry>, dispositions: Option<Dispositions>)

  /** `Invalid` stands for the two exceptions: limits out of range, or an identity reused with other limits. */
  datatype Decision = Allow | Block | Overloaded | Invalid

  function Fresh(l: Limits): (e: Entry)
    ensures |e.buckets| == RING
  {
    Entry(l, seq(RING, _ => Bucket(0, 0)), 0, 0, false)
  }

  predicate Ringed(e: Entry) { |e.buckets| == RING && Validated(e.limits) }

  /** Counting a request at `now`: the ring place of its slot is reset if it held an older slot. */
  function Counted(e: Entry, now: nat): (r: Entry)
    requires Ringed(e)
    ensures Ringed(r) && r.limits == e.limits
  {
    var slot := SlotOf(now, e.limits);
    var held := e.buckets[slot % RING];
    var bucket := if held.slot != slot then Bucket(slot, 0) else held;
    e.(buckets := e.buckets[slot % RING := bucket.(count := Add(bucket.count, 1))], dirty := true, lastSeen := now)
  }

  /** The saturating sum over the live buckets of ring places `from` and up. */
  function LiveSum(b: seq<Bucket>, from: nat, now: nat, l: Limits, sum: nat): (r: nat)
    requires from <= |b|
    decreases |b| - from
  {
    if from == |b| then sum
    else LiveSum(b, from + 1, now, l, if Live(b[from].slot, now, l) then Add(sum, b[from].count) else sum)
  }

  predicate Denied(w: Worker, key: CcKey, now: nat) {
    w.dispositions.Some? && key in w.dispositions.value.blockedUntil && w.dispositions.value.blockedUntil[key] > now
  }

  function CheckOn(w: Worker, key: CcKey, l: Limits, now: nat): (r: (Worker, Decision))
    requires forall k :: k in w.entries ==> Ringed(w.entries[k])
  {
    if w.dispositions.Some? && w.dispositions.value.saturatedUntil > now then (w, Overloaded)
    else if Denied(w, key, now) then (w, Block)
    else if key !in w.entries && |w.entries| >= w.capacity then (w, Overloaded)
    else if key !in w.entries && !Validated(l) then (w, Invalid)
    else
      var e := if key in w.entries then w.entries[key] else Fresh(l);
      var admitted := w.(entries := w.entries[key := e]);
      if e.limits != l then (admitted, Invalid)
      else if e.blockedUntil > now then (admitted, Block)
      else
        var counted := Counted(e, now);
        if LiveSum(counted.buckets, 0, now, l, 0) > l.requests
        then (w.(entries := w.entries[key := counted.(blockedUntil := now + l.mitigation)]), Block)
        else (w.(entries := w.entries[key := counted]), Allow)
  }

  predicate Evictable(e: Entry, now: nat) {
    !e.dirty && e.blockedUntil <= now && now >= e.lastSeen + e.limits.window + Width(e.limits)
  }

  /** report: evict first, then describe every dirty entry's live buckets. */
  function ReportOn(w: Worker, now: nat): (r: Worker) {
    w.(sequence := w.sequence + 1,
       entries := map k | k in w.entries && !Evictable(w.entries[k], now) :: w.entries[k])
  }

  function AcknowledgeOn(w: Worker): (r: Worker)
    ensures r.entries.Keys == w.entries.Keys
    ensures forall k :: k in r.entries ==> k in w.entries && r.entries[k] == w.entries[k].(dirty := false)
  {
    w.(entries := map k | k in w.entries :: w.entries[k].(dirty := false))
  }

  function PublishOn(w: Worker, d: Dispositions): (r: Worker) {
    if w.dispositions.None? || d.sequence > w.dispositions.value.sequence then w.(dispositions := Some(d)) else w
  }

  // ---------------------------------------------------------------------------
  // Traces
  // ---------------------------------------------------------------------------

  datatype Event =
    | Check(key: CcKey, limits: Limits, now: nat)
    | Report(now: nat)
    | Acknowledge
    | Publish(dispositions: Dispositions)

  /** A request that reached a counter, and whether it was allowed. */
  datatype Hit = Hit(key: CcKey, limits: Limits, at: nat, allowed: bool)

  datatype Trace = Trace(worker: Worker, hits: seq<Hit>, clock: nat)

  /** Whether this check increments a bucket. */
  predicate Counts(w: Worker, key: CcKey, l: Limits, now: nat)
    requires forall k :: k in w.entries ==> Ringed(w.entries[k])
  {
    && !(w.dispositions.Some? && w.dispositions.value.saturatedUntil > now) && !Denied(w, key, now)
    && (key in w.entries || (|w.entries| < w.capacity && Validated(l)))
    && (key in w.entries ==> w.entries[key].limits == l && w.entries[key].blockedUntil <= now)
  }

  predicate Enabled(t: Trace, e: Event) {
    (e.Check? ==> t.clock <= e.now) && (e.Report? ==> t.clock <= e.now)
  }

  function Step(t: Trace, e: Event): (r: Trace)
    requires forall k :: k in t.worker.entries ==> Ringed(t.worker.entries[k])
    ensures forall k :: k in r.worker.entries ==> Ringed(r.worker.entries[k])
  {
    match e
    case Check(key, l, now) =>
      var (w, d) := CheckOn(t.worker, key, l, now);
      Trace(w, if Counts(t.worker, key, l, now) then t.hits + [Hit(key, l, now, d.Allow?)] else t.hits, now)
    case Report(now) => t.(worker := ReportOn(t.worker, now), clock := now)
    case Acknowledge =>
      var w := AcknowledgeOn(t.worker);
      assert forall k :: k in w.entries ==> Ringed(w.entries[k]) by {
        forall k | k in w.entries ensures Ringed(w.entries[k]) { assert Ringed(t.worker.entries[k]); }
      }
      t.(worker := w)
    case Publish(d) => t.(worker := PublishOn(t.worker, d))
  }

  predicate IsRun(t: Trace, events: seq<Event>)
    requires forall k :: k in t.worker.entries ==> Ringed(t.worker.entries[k])
    decreases |events|
  {
    events == [] || (Enabled(t, events[0]) && IsRun(Step(t, events[0]), events[1..]))
  }

  function Exec(t: Trace, events: seq<Event>): (r: Trace)
    requires forall k :: k in t.worker.entries ==> Ringed(t.worker.entries[k])
    ensures forall k :: k in r.worker.entries ==> Ringed(r.worker.entries[k])
    decreases |events|
  {
    if events == [] then t else Exec(Step(t, events[0]), events[1..])
  }

  function Start(capacity: nat): Trace { Trace(Worker(0, capacity, map[], None), [], 0) }

  // ---------------------------------------------------------------------------
  // Counting hits
  // ---------------------------------------------------------------------------

  predicate Same(h: Hit, key: CcKey, l: Limits) { h.key == key && h.limits == l }

  function InSlot(hits: seq<Hit>, key: CcKey, l: Limits, slot: nat): (n: nat)
    requires Validated(l)
  {
    if hits == [] then 0
    else InSlot(hits[..|hits| - 1], key, l, slot)
         + if Same(hits[|hits| - 1], key, l) && SlotOf(hits[|hits| - 1].at, l) == slot then 1 else 0
  }

  /** Hits of live slots that fall on ring places below `places`. */
  function LiveIn(hits: seq<Hit>, key: CcKey, l: Limits, now: nat, places: nat): (n: nat)
    requires Validated(l)
  {
    if hits == [] then 0
    else
      var h := hits[|hits| - 1];
      LiveIn(hits[..|hits| - 1], key, l, now, places)
      + if Same(h, key, l) && Live(SlotOf(h.at, l), now, l) && SlotOf(h.at, l) % RING < places then 1 else 0
  }

  /** Hits of the key within the last `span` milliseconds. */
  function Recent(hits: seq<Hit>, key: CcKey, l: Limits, now: nat, span: nat): (n: nat) {
    if hits == [] then 0
    else
      var h := hits[|hits| - 1];
      Recent(hits[..|hits| - 1], key, l, now, span) + if Same(h, key, l) && now < h.at + span then 1 else 0
  }

  function RecentAllowed(hits: seq<Hit>, key: CcKey, l: Limits, now: nat, span: nat): (n: nat) {
    if hits == [] then 0
    else
      var h := hits[|hits| - 1];
      RecentAllowed(hits[..|hits| - 1], key, l, now, span) + if Same(h, key, l) && h.allowed && now < h.at + span then 1 else 0
  }

  // ---------------------------------------------------------------------------
  // The ring holds exactly the live hits
  // ---------------------------------------------------------------------------

  /** Ring place `i`: a bucket of that place counts its slot exactly while it is live; a place
      never used counts nothing; and no slot is in the future. */
  predicate PlaceOk(b: Bucket, i: nat, hits: seq<Hit>, key: CcKey, l: Limits, clock: nat)
    requires Validated(l)
  {
    && b.slot <= SlotOf(clock, l)
    && if b.slot % RING == i then Live(b.slot, clock, l) ==> b.count == Sat(InSlot(hits, key, l, b.slot)) else b.count == 0
  }

  ghost predicate RingOk(e: Entry, hits: seq<Hit>, key: CcKey, clock: nat) {
    && Ringed(e) && e.lastSeen <= clock
    && (forall i :: 0 <= i < RING ==> PlaceOk(e.buckets[i], i, hits, key, e.limits, clock))
    && (forall s: nat :: InSlot(hits, key, e.limits, s) > 0 && Live(s, clock, e.limits) ==>
          s <= SlotOf(e.lastSeen, e.limits) && e.buckets[s % RING].slot == s)
  }

  ghost predicate Silent(hits: seq<Hit>, key: CcKey, l: Limits, clock: nat)
    requires Validated(l)
  {
    forall s: nat :: Live(s, clock, l) ==> InSlot(hits, key, l, s) == 0
  }

  /** For every key and limits: the entry's ring is exact, or nothing of them is live. */
  ghost predicate Inv(t: Trace) {
    && (forall k :: k in t.worker.entries ==> RingOk(t.worker.entries[k], t.hits, k, t.clock))
    && (forall i :: 0 <= i < |t.hits| ==> t.hits[i].at <= t.clock && Validated(t.hits[i].limits))
    && (forall k, l :: Validated(l) && (k !in t.worker.entries || t.worker.entries[k].limits != l) ==> Silent(t.hits, k, l, t.clock))
  }

  lemma InSlotAppend(hits: seq<Hit>, h: Hit, key: CcKey, l: Limits, slot: nat)
    requires Validated(l)
    ensures InSlot(hits + [h], key, l, slot)
            == InSlot(hits, key, l, slot) + if Same(h, key, l) && SlotOf(h.at, l) == slot then 1 else 0
  {
    assert (hits + [h])[..|hits|] == hits;
  }

  /** Time passing keeps the ring exact: live slots only become fewer. */
  lemma RingLater(e: Entry, hits: seq<Hit>, key: CcKey, clock: nat, now: nat)
    requires RingOk(e, hits, key, clock) && clock <= now
    ensures RingOk(e, hits, key, now)
  {
    SlotMonotone(clock, now, e.limits);
    forall i | 0 <= i < RING ensures PlaceOk(e.buckets[i], i, hits, key, e.limits, now) {
      if Live(e.buckets[i].slot, now, e.limits) { LiveNeverReturns(e.buckets[i].slot, clock, now, e.limits); }
      assert PlaceOk(e.buckets[i], i, hits, key, e.limits, clock);
    }
    forall s: nat | InSlot(hits, key, e.limits, s) > 0 && Live(s, now, e.limits)
      ensures s <= SlotOf(e.lastSeen, e.limits) && e.buckets[s % RING].slot == s
    {
      LiveNeverReturns(s, clock, now, e.limits);
    }
  }

  lemma SilentLater(hits: seq<Hit>, key: CcKey, l: Limits, clock: nat, now: nat)
    requires Validated(l) && Silent(hits, key, l, clock) && clock <= now
    ensures Silent(hits, key, l, now)
  {
    forall s: nat | Live(s, now, l) ensures InSlot(hits, key, l, s) == 0 { LiveNeverReturns(s, clock, now, l); }
  }

  lemma FreshRing(hits: seq<Hit>, key: CcKey, l: Limits, now: nat)
    requires Validated(l) && Silent(hits, key, l, now)
    ensures RingOk(Fresh(l), hits, key, now)
  {
  }

  /** Only a bucket with nothing live in it is ever reset. */
  lemma OnlyDeadBucketsAreReset(e: Entry, hits: seq<Hit>, key: CcKey, now: nat)
    requires RingOk(e, hits, key, now)
    ensures var b := e.buckets[SlotOf(now, e.limits) % RING];
            b.slot != SlotOf(now, e.limits) ==> b.count == 0 || !Live(b.slot, now, e.limits)
  {
    var slot := SlotOf(now, e.limits);
    var b := e.buckets[slot % RING];
    assert PlaceOk(b, slot % RING, hits, key, e.limits, now);
    if b.slot != slot && b.slot % RING == slot % RING { OlderIsDead(b.slot, slot, now, e.limits); }
  }

  lemma CountedPlace(e: Entry, hits: seq<Hit>, key: CcKey, now: nat, allowed: bool, i: nat)
    requires RingOk(e, hits, key, now) && i < RING
    ensures PlaceOk(Counted(e, now).buckets[i], i, hits + [Hit(key, e.limits, now, allowed)], key, e.limits, now)
  {
    var slot := SlotOf(now, e.limits);
    var h := Hit(key, e.limits, now, allowed);
    SlotBounds(now, e.limits);
    assert PlaceOk(e.buckets[i], i, hits, key, e.limits, now);
    InSlotAppend(hits, h, key, e.limits, slot);
    InSlotAppend(hits, h, key, e.limits, e.buckets[i].slot);
    if i == slot % RING {
      assert Live(slot, now, e.limits);
      assert e.buckets[i].slot != slot ==> InSlot(hits, key, e.limits, slot) == 0;
    }
  }

  lemma CountedCovers(e: Entry, hits: seq<Hit>, key: CcKey, now: nat, allowed: bool, s: nat)
    requires RingOk(e, hits, key, now)
    requires InSlot(hits + [Hit(key, e.limits, now, allowed)], key, e.limits, s) > 0 && Live(s, now, e.limits)
    ensures s <= SlotOf(now, e.limits) && Counted(e, now).buckets[s % RING].slot == s
  {
    var slot := SlotOf(now, e.limits);
    InSlotAppend(hits, Hit(key, e.limits, now, allowed), key, e.limits, s);
    SlotMonotone(e.lastSeen, now, e.limits);
    if s != slot && s % RING == slot % RING { OlderIsDead(s, slot, now, e.limits); }
  }

  lemma CountedRing(e: Entry, hits: seq<Hit>, key: CcKey, now: nat, allowed: bool)
    requires RingOk(e, hits, key, now)
    ensures RingOk(Counted(e, now), hits + [Hit(key, e.limits, now, allowed)], key, now)
  {
    var all := hits + [Hit(key, e.limits, now, allowed)];
    forall i | 0 <= i < RING ensures PlaceOk(Counted(e, now).buckets[i], i, all, key, e.limits, now) {
      CountedPlace(e, hits, key, now, allowed, i);
    }
    forall s: nat | InSlot(all, key, e.limits, s) > 0 && Live(s, now, e.limits)
      ensures s <= SlotOf(now, e.limits) && Counted(e, now).buckets[s % RING].slot == s
    {
      CountedCovers(e, hits, key, now, allowed, s);
    }
  }

  /** An entry is dropped by `report` only when nothing of it is live. */
  lemma EvictionDropsOnlyDead(e: Entry, hits: seq<Hit>, key: CcKey, now: nat)
    requires RingOk(e, hits, key, now) && Evictable(e, now)
    ensures Silent(hits, key, e.limits, now)
  {
    var last := SlotOf(e.lastSeen, e.limits);
    SlotBounds(e.lastSeen, e.limits);
    assert (last + 1) * Width(e.limits) == last * Width(e.limits) + Width(e.limits);
    forall s: nat | Live(s, now, e.limits) ensures InSlot(hits, key, e.limits, s) == 0 {
      if s <= last { MulMonotone(s + 1, last + 1, Width(e.limits)); }
    }
  }

  // ---------------------------------------------------------------------------
  // The live sum is the number of live hits
  // ---------------------------------------------------------------------------

  lemma {:induction false} InSlotPositive(hits: seq<Hit>, key: CcKey, l: Limits, j: nat)
    requires Validated(l) && j < |hits| && Same(hits[j], key, l)
    ensures InSlot(hits, key, l, SlotOf(hits[j].at, l)) > 0
  {
    if j < |hits| - 1 { InSlotPositive(hits[..|hits| - 1], key, l, j); }
  }

  /** One ring place more: it adds exactly the hits of the slot the place holds. */
  lemma {:induction false} PlaceShare(hits: seq<Hit>, key: CcKey, l: Limits, now: nat, i: nat, slot: nat)
    requires Validated(l)
    requires forall j | 0 <= j < |hits| && Same(hits[j], key, l) && Live(SlotOf(hits[j].at, l), now, l)
                        && SlotOf(hits[j].at, l) % RING == i :: SlotOf(hits[j].at, l) == slot
    ensures LiveIn(hits, key, l, now, i + 1) == LiveIn(hits, key, l, now, i)
            + if Live(slot, now, l) && slot % RING == i then InSlot(hits, key, l, slot) else 0
  {
    if hits != [] {
      var rest := hits[..|hits| - 1];
      forall j | 0 <= j < |rest| && Same(rest[j], key, l) && Live(SlotOf(rest[j].at, l), now, l) && SlotOf(rest[j].at, l) % RING == i
        ensures SlotOf(rest[j].at, l) == slot
      {
        assert rest[j] == hits[j];
      }
      PlaceShare(rest, key, l, now, i, slot);
    }
  }

  lemma LiveInZero(hits: seq<Hit>, key: CcKey, l: Limits, now: nat)
    requires Validated(l)
    ensures LiveIn(hits, key, l, now, 0) == 0
  {
  }

  lemma {:induction false} LiveSumIs(e: Entry, hits: seq<Hit>, key: CcKey, now: nat, i: nat)
    requires RingOk(e, hits, key, now) && i <= RING
    ensures LiveSum(e.buckets, i, now, e.limits, Sat(LiveIn(hits, key, e.limits, now, i)))
            == Sat(LiveIn(hits, key, e.limits, now, RING))
    decreases RING - i
  {
    if i < RING {
      var b := e.buckets[i];
      assert PlaceOk(b, i, hits, key, e.limits, now);
      forall j | 0 <= j < |hits| && Same(hits[j], key, e.limits) && Live(SlotOf(hits[j].at, e.limits), now, e.limits)
                 && SlotOf(hits[j].at, e.limits) % RING == i
        ensures SlotOf(hits[j].at, e.limits) == b.slot
      {
        InSlotPositive(hits, key, e.limits, j);
      }
      PlaceShare(hits, key, e.limits, now, i, b.slot);
      AddSaturates(LiveIn(hits, key, e.limits, now, i), if b.slot % RING == i then InSlot(hits, key, e.limits, b.slot) else 0);
      LiveSumIs(e, hits, key, now, i + 1);
    }
  }

  lemma {:induction false} LiveBrackets(hits: seq<Hit>, key: CcKey, l: Limits, now: nat)
    requires Validated(l) && forall j :: 0 <= j < |hits| ==> hits[j].at <= now
    ensures Recent(hits, key, l, now, l.window) <= LiveIn(hits, key, l, now, RING)
    ensures LiveIn(hits, key, l, now, RING) <= Recent(hits, key, l, now, l.window + Width(l))
    ensures RecentAllowed(hits, key, l, now, l.window) <= Recent(hits, key, l, now, l.window)
  {
    if hits != [] {
      WindowMeansLive(hits[|hits| - 1].at, now, l);
      LiveBrackets(hits[..|hits| - 1], key, l, now);
    }
  }

  // ---------------------------------------------------------------------------
  // Every step keeps the invariant
  // ---------------------------------------------------------------------------

  lemma SilentAppend(hits: seq<Hit>, h: Hit, key: CcKey, l: Limits, now: nat)
    requires Validated(l) && Silent(hits, key, l, now) && !Same(h, key, l)
    ensures Silent(hits + [h], key, l, now)
  {
    forall s: nat | Live(s, now, l) ensures InSlot(hits + [h], key, l, s) == 0 { InSlotAppend(hits, h, key, l, s); }
  }

  lemma RingAppend(e: Entry, hits: seq<Hit>, h: Hit, key: CcKey, now: nat)
    requires RingOk(e, hits, key, now) && !Same(h, key, e.limits)
    ensures RingOk(e, hits + [h], key, now)
  {
    forall s ensures InSlot(hits + [h], key, e.limits, s) == InSlot(hits, key, e.limits, s) { InSlotAppend(hits, h, key, e.limits, s); }
    forall i | 0 <= i < RING ensures PlaceOk(e.buckets[i], i, hits + [h], key, e.limits, now) {
      assert PlaceOk(e.buckets[i], i, hits, key, e.limits, now);
    }
  }

  lemma TimePasses(t: Trace, now: nat)
    requires Inv(t) && t.clock <= now
    ensures Inv(t.(clock := now))
  {
    forall k | k in t.worker.entries ensures RingOk(t.worker.entries[k], t.hits, k, now) {
      RingLater(t.worker.entries[k], t.hits, k, t.clock, now);
    }
    forall k, l | Validated(l) && (k !in t.worker.entries || t.worker.entries[k].limits != l) ensures Silent(t.hits, k, l, now) {
      SilentLater(t.hits, k, l, t.clock, now);
    }
  }

  /** The entry a check works on, before and after the request is counted. */
  lemma CheckedRing(t: Trace, key: CcKey, l: Limits, allowed: bool)
    requires Inv(t) && Counts(t.worker, key, l, t.clock)
    ensures var e := if key in t.worker.entries then t.worker.entries[key] else Fresh(l);
            e.limits == l && RingOk(Counted(e, t.clock), t.hits + [Hit(key, l, t.clock, allowed)], key, t.clock)
  {
    var e := if key in t.worker.entries then t.worker.entries[key] else Fresh(l);
    if key !in t.worker.entries { FreshRing(t.hits, key, l, t.clock); }
    CountedRing(e, t.hits, key, t.clock, allowed);
  }

  lemma CheckKeeps(t: Trace, key: CcKey, l: Limits)
    requires Inv(t)
    ensures Inv(Step(t, Check(key, l, t.clock)))
  {
    var n := Step(t, Check(key, l, t.clock));
    var w := n.worker;
    if Counts(t.worker, key, l, t.clock) {
      var h := n.hits[|n.hits| - 1];
      CheckedRing(t, key, l, h.allowed);
      forall k | k in w.entries ensures RingOk(w.entries[k], n.hits, k, t.clock) {
        if k != key { RingAppend(t.worker.entries[k], t.hits, h, k, t.clock); }
      }
      forall k, m | Validated(m) && (k !in w.entries || w.entries[k].limits != m) ensures Silent(n.hits, k, m, t.clock) {
        SilentAppend(t.hits, h, k, m, t.clock);
      }
    } else {
      assert w.entries == t.worker.entries;
    }
  }

  lemma ReportKeeps(t: Trace)
    requires Inv(t)
    ensures Inv(Step(t, Report(t.clock)))
  {
    var n := Step(t, Report(t.clock));
    forall k, l | Validated(l) && (k !in n.worker.entries || n.worker.entries[k].limits != l) ensures Silent(n.hits, k, l, n.clock) {
      if k in t.worker.entries && k !in n.worker.entries && t.worker.entries[k].limits == l {
        EvictionDropsOnlyDead(t.worker.entries[k], t.hits, k, t.clock);
      }
    }
  }

  lemma AcknowledgeKeeps(t: Trace)
    requires Inv(t)
    ensures Inv(Step(t, Acknowledge))
  {
    var n := Step(t, Acknowledge);
    forall k | k in n.worker.entries ensures RingOk(n.worker.entries[k], n.hits, k, n.clock) {
      assert RingOk(t.worker.entries[k], t.hits, k, t.clock);
      forall i | 0 <= i < RING ensures PlaceOk(n.worker.entries[k].buckets[i], i, t.hits, k, n.worker.entries[k].limits, t.clock) {
        assert PlaceOk(t.worker.entries[k].buckets[i], i, t.hits, k, t.worker.entries[k].limits, t.clock);
      }
    }
  }

  lemma StepKeeps(t: Trace, e: Event)
    requires Inv(t) && Enabled(t, e)
    ensures Inv(Step(t, e))
  {
    match e {
      case Check(key, l, now) =>
        TimePasses(t, now);
        CheckKeeps(t.(clock := now), key, l);
      case Report(now) =>
        TimePasses(t, now);
        ReportKeeps(t.(clock := now));
      case Acknowledge => AcknowledgeKeeps(t);
      case Publish(d) =>
    }
  }

  lemma {:induction false} RunKeeps(t: Trace, events: seq<Event>)
    requires Inv(t) && IsRun(t, events)
    ensures Inv(Exec(t, events))
    decreases |events|
  {
    if events != [] {
      StepKeeps(t, events[0]);
      RunKeeps(Step(t, events[0]), events[1..]);
    }
  }

  lemma StartHolds(capacity: nat)
    ensures Inv(Start(capacity))
  {
  }

  /** Whatever happened before, the sum a counting check compares is exactly its live hits. */
  lemma CheckSum(t: Trace, key: CcKey, l: Limits, now: nat)
    requires Inv(t) && t.clock <= now && Counts(t.worker, key, l, now)
    ensures var n := Step(t, Check(key, l, now));
            && Validated(l)
            && (CheckOn(t.worker, key, l, now).1.Allow? ==> LiveIn(n.hits, key, l, now, RING) <= l.requests)
            && (!CheckOn(t.worker, key, l, now).1.Allow? ==>
                  CheckOn(t.worker, key, l, now).1.Block? && LiveIn(n.hits, key, l, now, RING) > l.requests)
  {
    TimePasses(t, now);
    var u := t.(clock := now);
    var n := Step(t, Check(key, l, now));
    var allowed := n.hits[|n.hits| - 1].allowed;
    CheckedRing(u, key, l, allowed);
    var e := Counted(if key in t.worker.entries then t.worker.entries[key] else Fresh(l), now);
    LiveInZero(n.hits, key, l, now);
    LiveSumIs(e, n.hits, key, now, 0);
  }

  // ---------------------------------------------------------------------------
  // Main results: for every trace with nondecreasing time
  // ---------------------------------------------------------------------------

  /** Whenever `check` allows, the worker has counted, and so allowed, at most `requests` requests
      of that key under those limits in the last `window` milliseconds, this one included. */
  lemma AllowedWithinWindow(capacity: nat, events: seq<Event>, key: CcKey, l: Limits, now: nat)
    requires IsRun(Start(capacity), events) && Exec(Start(capacity), events).clock <= now
    requires CheckOn(Exec(Start(capacity), events).worker, key, l, now).1.Allow?
    ensures var n := Step(Exec(Start(capacity), events), Check(key, l, now));
            && RecentAllowed(n.hits, key, l, now, l.window) <= Recent(n.hits, key, l, now, l.window) <= l.requests
            && n.hits[|n.hits| - 1] == Hit(key, l, now, true)
  {
    StartHolds(capacity);
    RunKeeps(Start(capacity), events);
    var t := Exec(Start(capacity), events);
    CheckSum(t, key, l, now);
    StepKeeps(t, Check(key, l, now));
    LiveBrackets(Step(t, Check(key, l, now)).hits, key, l, now);
  }

  /** A block decided by the local sum means that more than `requests` requests were counted in
      the last window plus one bucket width. */
  lemma BlockMeansExceeded(capacity: nat, events: seq<Event>, key: CcKey, l: Limits, now: nat)
    requires IsRun(Start(capacity), events) && Exec(Start(capacity), events).clock <= now
    requires Counts(Exec(Start(capacity), events).worker, key, l, now)
    requires CheckOn(Exec(Start(capacity), events).worker, key, l, now).1.Block?
    ensures var n := Step(Exec(Start(capacity), events), Check(key, l, now));
            Recent(n.hits, key, l, now, l.window + Width(l)) > l.requests
  {
    StartHolds(capacity);
    RunKeeps(Start(capacity), events);
    var t := Exec(Start(capacity), events);
    CheckSum(t, key, l, now);
    StepKeeps(t, Check(key, l, now));
    LiveBrackets(Step(t, Check(key, l, now)).hits, key, l, now);
  }

  // ---------------------------------------------------------------------------
  // How long a block lasts
  // ---------------------------------------------------------------------------

  /** Until `until` the entry of the key holds its block; later nothing is said. */
  predicate Blocks(t: Trace, key: CcKey, l: Limits, until: nat) {
    t.clock < until ==> key in t.worker.entries && t.worker.entries[key].limits == l && t.worker.entries[key].blockedUntil == until
  }

  lemma StepKeepsBlock(t: Trace, e: Event, key: CcKey, l: Limits, until: nat)
    requires (forall k :: k in t.worker.entries ==> Ringed(t.worker.entries[k])) && Enabled(t, e) && Blocks(t, key, l, until)
    ensures Blocks(Step(t, e), key, l, until)
  {
  }

  lemma {:induction false} RunKeepsBlock(t: Trace, events: seq<Event>, key: CcKey, l: Limits, until: nat)
    requires (forall k :: k in t.worker.entries ==> Ringed(t.worker.entries[k])) && IsRun(t, events) && Blocks(t, key, l, until)
    ensures Blocks(Exec(t, events), key, l, until)
    decreases |events|
  {
    if events != [] {
      StepKeepsBlock(t, events[0], key, l, until);
      RunKeepsBlock(Step(t, events[0]), events[1..], key, l, until);
    }
  }

  lemma {:induction false} ClockGrows(t: Trace, events: seq<Event>)
    requires (forall k :: k in t.worker.entries ==> Ringed(t.worker.entries[k])) && IsRun(t, events)
    ensures t.clock <= Exec(t, events).clock && t.hits <= Exec(t, events).hits
    decreases |events|
  {
    if events != [] { ClockGrows(Step(t, events[0]), events[1..]); }
  }

  /** A request was counted by this check. */
  predicate Adds(t: Trace, key: CcKey, l: Limits, now: nat)
    requires forall k :: k in t.worker.entries ==> Ringed(t.worker.entries[k])
  {
    Step(t, Check(key, l, now)).hits != t.hits
  }

  /** In every trace: after a check that counted and blocked at `at`, no check of the key under those
      limits is allowed or counted before `at` plus the mitigation period, whatever reports,
      acknowledgements, dispositions and other checks lie between. */
  lemma BlocksLast(capacity: nat, before: seq<Event>, key: CcKey, l: Limits, at: nat, between: seq<Event>, now: nat)
    requires IsRun(Start(capacity), before) && Enabled(Exec(Start(capacity), before), Check(key, l, at))
    requires Adds(Exec(Start(capacity), before), key, l, at) && CheckOn(Exec(Start(capacity), before).worker, key, l, at).1.Block?
    requires IsRun(Step(Exec(Start(capacity), before), Check(key, l, at)), between)
    requires Exec(Step(Exec(Start(capacity), before), Check(key, l, at)), between).clock <= now < at + l.mitigation
    ensures var t := Exec(Step(Exec(Start(capacity), before), Check(key, l, at)), between);
            !CheckOn(t.worker, key, l, now).1.Allow? && !Adds(t, key, l, now)
  {
    var blocked := Step(Exec(Start(capacity), before), Check(key, l, at));
    RunKeepsBlock(blocked, between, key, l, at + l.mitigation);
  }

  /** The key has not been checked since the block ended. */
  predicate NotCheckedFrom(events: seq<Event>, key: CcKey, until: nat) {
    forall e :: e in events && e.Check? && e.key == key ==> e.now < until
  }

  /** The entry of the key is as the block left it, or it was dropped and nobody asked since. */
  predicate StillOwn(t: Trace, key: CcKey, l: Limits, until: nat) {
    key in t.worker.entries ==> t.worker.entries[key].limits == l && t.worker.entries[key].blockedUntil == until
  }

  lemma {:induction false} RunStaysOwn(t: Trace, events: seq<Event>, key: CcKey, l: Limits, until: nat)
    requires (forall k :: k in t.worker.entries ==> Ringed(t.worker.entries[k])) && IsRun(t, events)
    requires NotCheckedFrom(events, key, until) && Blocks(t, key, l, until) && StillOwn(t, key, l, until)
    ensures StillOwn(Exec(t, events), key, l, until)
    decreases |events|
  {
    if events != [] {
      assert events[0] in events && forall e :: e in events[1..] ==> e in events;
      StepKeepsBlock(t, events[0], key, l, until);
      RunStaysOwn(Step(t, events[0]), events[1..], key, l, until);
    }
  }

  /** And not longer: the first check of the key at or after the end of the block is counted, provided
      that no disposition denies it and there is room for the entry if it was dropped. */
  lemma BlocksEnd(capacity: nat, before: seq<Event>, key: CcKey, l: Limits, at: nat, between: seq<Event>, now: nat)
    requires IsRun(Start(capacity), before) && Enabled(Exec(Start(capacity), before), Check(key, l, at))
    requires Adds(Exec(Start(capacity), before), key, l, at) && CheckOn(Exec(Start(capacity), before).worker, key, l, at).1.Block?
    requires IsRun(Step(Exec(Start(capacity), before), Check(key, l, at)), between)
    requires NotCheckedFrom(between, key, at + l.mitigation) && at + l.mitigation <= now
    ensures var t := Exec(Step(Exec(Start(capacity), before), Check(key, l, at)), between);
            var d := t.worker.dispositions;
            (d.Some? ==> d.value.saturatedUntil <= now && (key in d.value.blockedUntil ==> d.value.blockedUntil[key] <= now))
            && (key in t.worker.entries || |t.worker.entries| < t.worker.capacity) ==>
              Adds(t, key, l, now)
  {
    var t := Exec(Start(capacity), before);
    StartHolds(capacity);
    RunKeeps(Start(capacity), before);
    CountedIsValid(t, key, l, at);
    RunStaysOwn(Step(t, Check(key, l, at)), between, key, l, at + l.mitigation);
  }

  lemma CountedIsValid(t: Trace, key: CcKey, l: Limits, at: nat)
    requires Inv(t) && Adds(t, key, l, at)
    ensures Validated(l)
  {
    if key in t.worker.entries { assert RingOk(t.worker.entries[key], t.hits, key, t.clock); }
  }

  /** The order in which a check decides: the node's saturation first, then its denials, then room for a
      new key; only what passes those can be allowed. A request is counted exactly when it passes them,
      is valid, uses the limits of its entry and meets no running block. */
  lemma CheckDecidesInOrder(w: Worker, key: CcKey, l: Limits, now: nat)
    requires forall k :: k in w.entries ==> Ringed(w.entries[k])
    ensures var d := CheckOn(w, key, l, now).1;
            var saturated := w.dispositions.Some? && w.dispositions.value.saturatedUntil > now;
            var denied := w.dispositions.Some? && key in w.dispositions.value.blockedUntil && w.dispositions.value.blockedUntil[key] > now;
            var full := key !in w.entries && |w.entries| >= w.capacity;
            && (d.Overloaded? <==> saturated || (!denied && full))
            && (denied && !saturated ==> d.Block?)
            && (saturated || denied || full ==> CheckOn(w, key, l, now).0 == w)
            && (d.Invalid? <==> !saturated && !denied && !full && (if key in w.entries then w.entries[key].limits != l else !Validated(l)))
            && (!saturated && !denied && key in w.entries && w.entries[key].limits == l && w.entries[key].blockedUntil > now ==>
                  d.Block? && CheckOn(w, key, l, now).0 == w)
  {
    if key in w.entries { assert w.entries[key := w.entries[key]] == w.entries; }
  }

  /** A report keeps an entry while it is dirty, blocks, or was used within the window plus one width,
      and drops it otherwise; an acknowledgement only clears the marks. */
  lemma ReportDropsIdle(w: Worker, now: nat, k: CcKey)
    ensures var n, a := ReportOn(w, now), AcknowledgeOn(w);
            && n.sequence == w.sequence + 1 && n.dispositions == w.dispositions && n.capacity == w.capacity
            && (k in n.entries ==> k in w.entries && n.entries[k] == w.entries[k])
            && (k in w.entries ==>
                  var e := w.entries[k];
                  k in n.entries <==> e.dirty || e.blockedUntil > now || now < e.lastSeen + e.limits.window + Width(e.limits))
            && (k in a.entries <==> k in w.entries) && (k in a.entries ==> a.entries[k] == w.entries[k].(dirty := false))
            && a.sequence == w.sequence && a.dispositions == w.dispositions
  {
  }

  /** A worker holds the newest dispositions it was given. */
  lemma NewestDispositionsHold(w: Worker, d: Dispositions)
    ensures var n := PublishOn(w, d);
            && n == w.(dispositions := n.dispositions) && n.dispositions.Some?
            && (w.dispositions.Some? && d.sequence <= w.dispositions.value.sequence ==> n == w)
            && (w.dispositions.None? || w.dispositions.value.sequence < d.sequence ==> n.dispositions == Some(d))
  {
  }

  // ---------------------------------------------------------------------------
  // Reports, and the object the source updates in place
  // ---------------------------------------------------------------------------

  /** A record that `report` puts in its batch. */
  predicate Reported(w: Worker, now: nat, r: CountRecord) {
    && r.key in w.entries && w.entries[r.key].dirty && w.entries[r.key].limits == r.limits
    && r.count > 0 && Live(r.bucket, now, r.limits)
    && Bucket(r.bucket, r.count) in w.entries[r.key].buckets
  }

  /** Reported counts are absolute: the number of requests counted so far in that slot. */
  lemma ReportedCountsAreExact(t: Trace, r: CountRecord)
    requires Inv(t) && Reported(t.worker, t.clock, r)
    ensures Validated(r.limits) && r.count == Sat(InSlot(t.hits, r.key, r.limits, r.bucket))
  {
    var e := t.worker.entries[r.key];
    var i :| 0 <= i < RING && e.buckets[i] == Bucket(r.bucket, r.count);
    assert PlaceOk(e.buckets[i], i, t.hits, r.key, e.limits, t.clock);
  }

  class Limiter {
    var sequence: nat
    var capacity: nat
    var entries: map<CcKey, Entry>
    var dispositions: Option<Dispositions>

    function State(): (w: Worker)
      reads this
    {
      Worker(sequence, capacity, entries, dispositions)
    }

    ghost predicate Valid()
      reads this
    {
      forall k :: k in entries ==> Ringed(entries[k])
    }

    constructor (size: nat)
      ensures Valid() && State() == Start(size).worker
    {
      sequence, capacity, entries, dispositions := 0, size, map[], None;
    }

    method SumLive(buckets: seq<Bucket>, now: nat, l: Limits) returns (sum: nat)
      ensures sum == LiveSum(buckets, 0, now, l, 0)
    {
      sum := 0;
      var i := 0;
      while i < |buckets|
        invariant 0 <= i <= |buckets|
        invariant LiveSum(buckets, i, now, l, sum) == LiveSum(buckets, 0, now, l, 0)
      {
        if Live(buckets[i].slot, now, l) {
          sum := Add(sum, buckets[i].count);
        }
        i := i + 1;
      }
    }

    method CheckRequest(key: CcKey, l: Limits, now: nat) returns (decision: Decision)
      requires Valid()
      modifies this`entries
      ensures Valid() && (State(), decision) == CheckOn(old(State()), key, l, now)
    {
      if dispositions.Some? && dispositions.value.saturatedUntil > now {
        return Overloaded;
      }
      if Denied(State(), key, now) {
        return Block;
      }
      if key !in entries {
        if |entries| >= capacity {
          return Overloaded;
        }
        if !Validated(l) {
          return Invalid;
        }
        entries := entries[key := Fresh(l)];
      }
      ghost var admitted := entries;
      assert old(entries)[key := entries[key]] == admitted;
      var value := entries[key];
      if value.limits != l {
        return Invalid;
      }
      if value.blockedUntil > now {
        return Block;
      }
      value := Counted(value, now);
      var sum := SumLive(value.buckets, now, l);
      decision := Allow;
      if sum > l.requests {
        value := value.(blockedUntil := now + l.mitigation);
        decision := Block;
      }
      entries := entries[key := value];
      assert entries == old(entries)[key := value];
    }

    /** report: evicts, then lists the live buckets of every dirty entry. */
    method ReportCounts(now: nat) returns (counts: seq<CountRecord>)
      requires Valid()
      modifies this`entries, this`sequence
      ensures Valid() && State() == ReportOn(old(State()), now)
      ensures forall r :: r in counts <==> Reported(State(), now, r)
    {
      sequence := sequence + 1;
      entries := map k | k in entries && !Evictable(entries[k], now) :: entries[k];
      counts := [];
      var keys := entries.Keys;
      while keys != {}
        invariant keys <= entries.Keys && Valid() && State() == ReportOn(old(State()), now)
        invariant forall r :: r in counts <==> r.key !in keys && Reported(State(), now, r)
        decreases |keys|
      {
        var k :| k in keys;
        if entries[k].dirty {
          var more := ReportEntry(k, entries[k], now);
          counts := counts + more;
        }
        keys := keys - {k};
      }
    }

    method ReportEntry(k: CcKey, e: Entry, now: nat) returns (counts: seq<CountRecord>)
      ensures forall r :: r in counts <==>
                r.key == k && r.limits == e.limits && r.count > 0 && Live(r.bucket, now, e.limits) && Bucket(r.bucket, r.count) in e.buckets
    {
      counts := [];
      var i := 0;
      while i < |e.buckets|
        invariant 0 <= i <= |e.buckets|
        invariant forall r :: r in counts <==>
                    r.key == k && r.limits == e.limits && r.count > 0 && Live(r.bucket, now, e.limits) && Bucket(r.bucket, r.count) in e.buckets[..i]
      {
        var b := e.buckets[i];
        assert e.buckets[..i + 1] == e.buckets[..i] + [b];
        if b.count > 0 && Live(b.slot, now, e.limits) {
          counts := counts + [CountRecord(k, e.limits, b.slot, b.count)];
        }
        i := i + 1;
      }
      assert e.buckets[..i] == e.buckets;
    }

    method AcknowledgeReport()
      requires Valid()
      modifies this`entries
      ensures Valid() && State() == AcknowledgeOn(old(State()))
    {
      var next := AcknowledgeOn(State());
      assert forall k :: k in next.entries ==> Ringed(next.entries[k]) by {
        forall k | k in next.entries ensures Ringed(next.entries[k]) { assert Ringed(entries[k]); }
      }
      entries := map k | k in entries :: entries[k].(dirty := false);
    }

    method PublishDispositions(d: Dispositions)
      requires Valid()
      modifies this`dispositions
      ensures Valid() && State() == PublishOn(old(State()), d)
    {
      if dispositions.None? || d.sequence > dispositions.value.sequence {
        dispositions := Some(d);
      }
    }
  }
}
