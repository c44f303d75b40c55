/** The rate limiter of a whole node: every worker's counters, the channel of their reports and the aggregator. */
module CcNode {
  import opened Wrappers
  import opened CcWindow
  import W = CcWorker
  import A = CcAggregator

  // Workers report absolute counts into a bounded channel (node/data/data_worker.h, report_cc); the
  // control loop merges what it receives and sends its snapshots back (node/data/data_plane.h, run_cc).

  /** `sent` holds every batch ever reported, `channel` those accepted and not yet taken, `published`
      every snapshot. `inOrder`: so far each merged batch was the head of the channel and not from
      the future. `failed`: a merge threw, which ends the control loop. */
  datatype Node = Node(
    workers: seq<W.Trace>, sent: set<A.Batch>, channel: seq<A.Batch>, run: A.Run,
    published: set<W.Dispositions>, inOrder: bool, failed: bool)

  /** Deliver allows any batch ever reported, at any time and any number of times. */
  datatype Step =
    | Check(worker: nat, key: W.CcKey, limits: Limits, now: nat)
    | Report(worker: nat, now: nat, counts: seq<W.CountRecord>, accepted: bool)
    | Inform(worker: nat, dispositions: W.Dispositions)
    | Deliver(batch: A.Batch, now: nat)
    | Snapshot(now: nat)

  predicate Ringed(t: W.Trace) { forall k :: k in t.worker.entries ==> W.Ringed(t.worker.entries[k]) }

  predicate Shaped(n: Node) {
    (forall j :: 0 <= j < |n.workers| ==> Ringed(n.workers[j])) && A.AllJointed(n.run.agg)
  }

  function ReportedBatch(n: Node, w: nat, now: nat, counts: seq<W.CountRecord>): (b: A.Batch)
    requires w < |n.workers|
  {
    A.Batch(w, n.workers[w].worker.sequence + 1, now, counts)
  }

  /** report, and acknowledge at once when there is nothing to send or the channel took the batch. */
  function AfterReport(t: W.Trace, now: nat, acknowledged: bool): (r: W.Trace)
    requires Ringed(t)
    ensures Ringed(r)
  {
    var reported := W.Step(t, W.Report(now));
    if acknowledged then W.Step(reported, W.Acknowledge) else reported
  }

  ghost predicate Enabled(n: Node, s: Step)
    requires Shaped(n)
  {
    match s
    case Check(w, key, limits, now) => w < |n.workers| && n.workers[w].clock <= now
    case Report(w, now, counts, accepted) =>
      && w < |n.workers| && n.workers[w].clock <= now
      && forall r :: r in counts <==> W.Reported(W.ReportOn(n.workers[w].worker, now), now, r)
    case Inform(w, d) => w < |n.workers| && d in n.published
    case Deliver(b, now) => !n.failed && b in n.sent && n.run.clock <= now
    case Snapshot(now) => !n.failed && n.run.clock <= now
  }

  function Apply(n: Node, s: Step): (r: Node)
    requires Shaped(n) && (s.Check? || s.Report? || s.Inform? ==> s.worker < |n.workers|)
    ensures Shaped(r) && |r.workers| == |n.workers|
  {
    match s
    case Check(w, key, limits, now) => n.(workers := n.workers[w := W.Step(n.workers[w], W.Check(key, limits, now))])
    case Report(w, now, counts, accepted) =>
      var b := ReportedBatch(n, w, now, counts);
      n.(workers := n.workers[w := AfterReport(n.workers[w], now, counts == [] || accepted)],
         sent := n.sent + {b},
         channel := if counts != [] && accepted then n.channel + [b] else n.channel)
    case Inform(w, d) => n.(workers := n.workers[w := W.Step(n.workers[w], W.Publish(d))])
    case Deliver(b, now) =>
      n.(run := A.Step(n.run, A.Merge(b, now)),
         channel := if n.channel != [] && n.channel[0] == b then n.channel[1..] else n.channel,
         inOrder := n.inOrder && n.channel != [] && n.channel[0] == b && b.observed <= now,
         failed := !A.MergeOn(n.run.agg, b, now).1)
    case Snapshot(now) =>
      n.(run := A.Step(n.run, A.Snapshot(now)), published := n.published + {A.SnapshotOn(n.run.agg, now).1})
  }

  function Start(workers: nat, workerCapacity: nat, capacity: nat): (n: Node)
    ensures Shaped(n)
  {
    Node(seq(workers, _ => W.Start(workerCapacity)), {}, [], A.Run(A.StartAggregator(workers, capacity), [], 0), {}, true, false)
  }

  ghost predicate IsRun(n: Node, steps: seq<Step>)
    requires Shaped(n)
    ensures IsRun(n, steps) ==> forall k :: 0 <= k <= |steps| ==> IsRun(n, steps[..k])
    decreases |steps|, 0
  {
    if steps == [] then true
    else
      var before := steps[..|steps| - 1];
      assert forall k :: 0 <= k < |steps| ==> steps[..k] == before[..k];
      assert steps[..|steps|] == steps;
      IsRun(n, before) && Enabled(Exec(n, before), steps[|steps| - 1])
  }

  ghost function Exec(n: Node, steps: seq<Step>): (r: Node)
    requires Shaped(n) && IsRun(n, steps)
    ensures Shaped(r) && |r.workers| == |n.workers|
    decreases |steps|, 1
  {
    if steps == [] then n else Apply(Exec(n, steps[..|steps| - 1]), steps[|steps| - 1])
  }

  // ---------------------------------------------------------------------------
  // What the node as a whole counted
  // ---------------------------------------------------------------------------

  /** Requests of a slot counted by the first `j` workers. */
  function SlotTraffic(ws: seq<W.Trace>, j: nat, key: W.CcKey, l: Limits, slot: nat): (sum: nat)
    requires Validated(l) && j <= |ws|
  {
    if j == 0 then 0 else SlotTraffic(ws, j - 1, key, l, slot) + W.InSlot(ws[j - 1].hits, key, l, slot)
  }

  /** Their requests of live slots on ring places below `places`. */
  function LiveTraffic(ws: seq<W.Trace>, j: nat, key: W.CcKey, l: Limits, now: nat, places: nat): (sum: nat)
    requires Validated(l) && j <= |ws|
  {
    if j == 0 then 0 else LiveTraffic(ws, j - 1, key, l, now, places) + W.LiveIn(ws[j - 1].hits, key, l, now, places)
  }

  /** Their requests within the last `span` milliseconds. */
  function RecentTraffic(ws: seq<W.Trace>, j: nat, key: W.CcKey, l: Limits, now: nat, span: nat): (sum: nat)
    requires j <= |ws|
  {
    if j == 0 then 0 else RecentTraffic(ws, j - 1, key, l, now, span) + W.Recent(ws[j - 1].hits, key, l, now, span)
  }

  // ---------------------------------------------------------------------------
  // The aggregator never counts more than the workers did
  // ---------------------------------------------------------------------------

  /** Every count a place holds is at most what its worker has counted in that slot. */
  ghost predicate Backed(b: A.Shared, i: nat, ws: seq<W.Trace>, key: W.CcKey, l: Limits)
    requires Validated(l)
  {
    && b.total == Sat(A.SumSources(b, |ws|)) && (b.slot % RING == i || b.total == 0)
    && (forall j: nat :: j < |ws| ==> A.Source(b, j) <= W.InSlot(ws[j].hits, key, l, b.slot))
  }

  ghost predicate AllBacked(a: A.Aggregator, ws: seq<W.Trace>) {
    && a.workers == |ws| && A.AllJointed(a)
    && (forall k :: k in a.entries ==>
          forall i :: 0 <= i < RING ==> Backed(a.entries[k].buckets[i], i, ws, k, a.entries[k].limits))
  }

  /** A count is valid and at most what its worker has counted in that slot by now. */
  ghost predicate Truthful(c: W.CountRecord, w: nat, ws: seq<W.Trace>) {
    w < |ws| && Validated(c.limits) && c.count <= Sat(W.InSlot(ws[w].hits, c.key, c.limits, c.bucket))
  }

  ghost predicate BatchTruthful(b: A.Batch, ws: seq<W.Trace>) { forall c :: c in b.counts ==> Truthful(c, b.instance, ws) }

  ghost predicate Sound(n: Node) {
    && |n.workers| == n.run.agg.workers && Shaped(n)
    && (forall j :: 0 <= j < |n.workers| ==> W.Inv(n.workers[j]))
    && A.Inv(n.run)
    && (forall b :: b in n.sent ==> BatchTruthful(b, n.workers))
    && AllBacked(n.run.agg, n.workers)
  }

  ghost predicate Grown(ws: seq<W.Trace>, xs: seq<W.Trace>) {
    |ws| == |xs| && forall j :: 0 <= j < |ws| ==> ws[j].hits <= xs[j].hits
  }

  lemma {:induction false} InSlotGrows(a: seq<W.Hit>, b: seq<W.Hit>, key: W.CcKey, l: Limits, slot: nat)
    requires Validated(l) && a <= b
    ensures W.InSlot(a, key, l, slot) <= W.InSlot(b, key, l, slot)
    decreases |b|
  {
    if a != b {
      assert a <= b[..|b| - 1];
      InSlotGrows(a, b[..|b| - 1], key, l, slot);
    } else {
      assert a == b;
    }
  }

  lemma GrownKeepsTruth(b: A.Batch, ws: seq<W.Trace>, xs: seq<W.Trace>)
    requires BatchTruthful(b, ws) && Grown(ws, xs)
    ensures BatchTruthful(b, xs)
  {
    forall c | c in b.counts ensures Truthful(c, b.instance, xs) {
      assert Truthful(c, b.instance, ws);
      InSlotGrows(ws[b.instance].hits, xs[b.instance].hits, c.key, c.limits, c.bucket);
    }
  }

  lemma GrownKeepsBacked(b: A.Shared, i: nat, ws: seq<W.Trace>, xs: seq<W.Trace>, key: W.CcKey, l: Limits)
    requires Validated(l) && Backed(b, i, ws, key, l) && Grown(ws, xs)
    ensures Backed(b, i, xs, key, l)
  {
    forall j: nat | j < |xs| ensures A.Source(b, j) <= W.InSlot(xs[j].hits, key, l, b.slot) {
      InSlotGrows(ws[j].hits, xs[j].hits, key, l, b.slot);
    }
  }

  /** A worker's step only adds requests, so nothing the rest of the node holds becomes untrue. */
  lemma WorkerStepKeeps(n: Node, w: nat, t: W.Trace)
    requires Sound(n) && w < |n.workers| && W.Inv(t) && Ringed(t) && n.workers[w].hits <= t.hits
    ensures Sound(n.(workers := n.workers[w := t]))
  {
    var xs := n.workers[w := t];
    assert Grown(n.workers, xs);
    forall b | b in n.sent ensures BatchTruthful(b, xs) { GrownKeepsTruth(b, n.workers, xs); }
    forall k | k in n.run.agg.entries
      ensures forall i :: 0 <= i < RING ==> Backed(n.run.agg.entries[k].buckets[i], i, xs, k, n.run.agg.entries[k].limits)
    {
      forall i | 0 <= i < RING ensures Backed(n.run.agg.entries[k].buckets[i], i, xs, k, n.run.agg.entries[k].limits) {
        GrownKeepsBacked(n.run.agg.entries[k].buckets[i], i, n.workers, xs, k, n.run.agg.entries[k].limits);
      }
    }
  }

  lemma JoinedBacked(b: A.Shared, ws: seq<W.Trace>, key: W.CcKey, l: Limits, slot: nat, instance: nat, count: nat)
    requires Validated(l) && Backed(b, slot % RING, ws, key, l)
    requires instance < |ws| && count <= Sat(W.InSlot(ws[instance].hits, key, l, slot))
    ensures Backed(A.Joined(b, slot, instance, count), slot % RING, ws, key, l)
  {
    var held := if b.slot != slot then A.EMPTY.(slot := slot) else b;
    var r := A.Joined(b, slot, instance, count);
    A.SumSourcesEmpty(A.EMPTY.(slot := slot), |ws|);
    A.SumSourcesUpdate(held, r, instance, |ws|);
    if count > A.Source(held, instance) { AddSaturates(A.SumSources(held, |ws|), count - A.Source(held, instance)); }
  }

  lemma MergeCountBacked(a: A.Aggregator, ws: seq<W.Trace>, instance: nat, observed: nat, now: nat, c: W.CountRecord)
    requires AllBacked(a, ws) && Truthful(c, instance, ws)
    ensures AllBacked(A.MergeCount(a, instance, observed, now, c).0, ws)
  {
    var e := if c.key in a.entries then a.entries[c.key] else A.NewJoint(c.limits);
    if e.limits == c.limits {
      A.SumSourcesEmpty(A.EMPTY, |ws|);
      assert forall i :: 0 <= i < RING ==> Backed(e.buckets[i], i, ws, c.key, c.limits);
      JoinedBacked(e.buckets[c.bucket % RING], ws, c.key, c.limits, c.bucket, instance, c.count);
    }
  }

  lemma {:induction false} MergeCountsBacked(a: A.Aggregator, ws: seq<W.Trace>, instance: nat, observed: nat, now: nat, counts: seq<W.CountRecord>)
    requires AllBacked(a, ws) && forall c :: c in counts ==> Truthful(c, instance, ws)
    ensures AllBacked(A.MergeCounts(a, instance, observed, now, counts).0, ws)
    decreases |counts|
  {
    if counts != [] {
      MergeCountBacked(a, ws, instance, observed, now, counts[0]);
      MergeCountsBacked(A.MergeCount(a, instance, observed, now, counts[0]).0, ws, instance, observed, now, counts[1..]);
    }
  }

  lemma SnapshotBacked(a: A.Aggregator, ws: seq<W.Trace>, now: nat)
    requires AllBacked(a, ws)
    ensures AllBacked(A.SnapshotOn(a, now).0, ws)
  {
    A.SumSourcesEmpty(A.EMPTY, |ws|);
    var n := A.SnapshotOn(a, now).0;
    forall k, i | k in n.entries && 0 <= i < RING ensures Backed(n.entries[k].buckets[i], i, ws, k, n.entries[k].limits) {
      assert Backed(a.entries[k].buckets[i], i, ws, k, a.entries[k].limits);
    }
  }

  lemma ReportSound(n: Node, w: nat, now: nat, counts: seq<W.CountRecord>, accepted: bool)
    requires Sound(n) && Enabled(n, Report(w, now, counts, accepted))
    ensures Sound(Apply(n, Report(w, now, counts, accepted)))
  {
    var t := n.workers[w];
    W.StepKeeps(t, W.Report(now));
    var reported := W.Step(t, W.Report(now));
    W.StepKeeps(reported, W.Acknowledge);
    var xs := n.workers[w := AfterReport(t, now, counts == [] || accepted)];
    WorkerStepKeeps(n, w, xs[w]);
    var b := ReportedBatch(n, w, now, counts);
    forall c | c in counts ensures Truthful(c, w, xs) { W.ReportedCountsAreExact(reported, c); }
    assert BatchTruthful(b, xs);
  }

  lemma DeliverSound(n: Node, b: A.Batch, now: nat)
    requires Sound(n) && Enabled(n, Deliver(b, now))
    ensures Sound(Apply(n, Deliver(b, now))) && A.Enabled(n.run, A.Merge(b, now))
  {
    assert forall c :: c in b.counts ==> Truthful(c, b.instance, n.workers);
    A.StepKeeps(n.run, A.Merge(b, now));
    if A.Accepts(n.run.agg, b, now) {
      MergeCountsBacked(n.run.agg.(sequences := n.run.agg.sequences[b.instance := b.sequence]), n.workers, b.instance, b.observed, now, b.counts);
    }
  }

  lemma StepSound(n: Node, s: Step)
    requires Sound(n) && Enabled(n, s)
    ensures Sound(Apply(n, s))
  {
    match s {
      case Check(w, key, l, now) =>
        W.StepKeeps(n.workers[w], W.Check(key, l, now));
        WorkerStepKeeps(n, w, W.Step(n.workers[w], W.Check(key, l, now)));
      case Report(w, now, counts, accepted) => ReportSound(n, w, now, counts, accepted);
      case Inform(w, d) =>
        W.StepKeeps(n.workers[w], W.Publish(d));
        WorkerStepKeeps(n, w, W.Step(n.workers[w], W.Publish(d)));
      case Deliver(b, now) => DeliverSound(n, b, now);
      case Snapshot(now) =>
        A.StepKeeps(n.run, A.Snapshot(now));
        SnapshotBacked(n.run.agg, n.workers, now);
    }
  }

  lemma {:induction false} RunSound(workers: nat, workerCapacity: nat, capacity: nat, steps: seq<Step>)
    requires IsRun(Start(workers, workerCapacity, capacity), steps)
    ensures Sound(Exec(Start(workers, workerCapacity, capacity), steps))
    decreases |steps|
  {
    var start := Start(workers, workerCapacity, capacity);
    if steps == [] {
      W.StartHolds(workerCapacity);
      A.StartHolds(workers, capacity);
    } else {
      RunSound(workers, workerCapacity, capacity, steps[..|steps| - 1]);
      StepSound(Exec(start, steps[..|steps| - 1]), steps[|steps| - 1]);
    }
  }

  // ---------------------------------------------------------------------------
  // Sums over the workers
  // ---------------------------------------------------------------------------

  lemma {:induction false} SourcesBounded(b: A.Shared, ws: seq<W.Trace>, j: nat, key: W.CcKey, l: Limits)
    requires Validated(l) && j <= |ws| && forall i: nat :: i < |ws| ==> A.Source(b, i) <= W.InSlot(ws[i].hits, key, l, b.slot)
    ensures A.SumSources(b, j) <= SlotTraffic(ws, j, key, l, b.slot)
  {
    if j > 0 { SourcesBounded(b, ws, j - 1, key, l); }
  }

  /** One ring place more adds at least the requests of any live slot of that place. */
  lemma {:induction false} PlaceAdds(hits: seq<W.Hit>, key: W.CcKey, l: Limits, now: nat, slot: nat)
    requires Validated(l) && Live(slot, now, l)
    ensures W.LiveIn(hits, key, l, now, slot % RING) + W.InSlot(hits, key, l, slot) <= W.LiveIn(hits, key, l, now, slot % RING + 1)
  {
    if hits != [] { PlaceAdds(hits[..|hits| - 1], key, l, now, slot); }
  }

  lemma {:induction false} PlacesGrow(hits: seq<W.Hit>, key: W.CcKey, l: Limits, now: nat, places: nat)
    requires Validated(l)
    ensures W.LiveIn(hits, key, l, now, places) <= W.LiveIn(hits, key, l, now, places + 1)
  {
    if hits != [] { PlacesGrow(hits[..|hits| - 1], key, l, now, places); }
  }

  lemma {:induction false} TrafficOfPlace(ws: seq<W.Trace>, j: nat, key: W.CcKey, l: Limits, now: nat, slot: nat, i: nat)
    requires Validated(l) && j <= |ws|
    ensures LiveTraffic(ws, j, key, l, now, i) <= LiveTraffic(ws, j, key, l, now, i + 1)
    ensures Live(slot, now, l) && slot % RING == i ==>
              LiveTraffic(ws, j, key, l, now, i) + SlotTraffic(ws, j, key, l, slot) <= LiveTraffic(ws, j, key, l, now, i + 1)
  {
    if j > 0 {
      TrafficOfPlace(ws, j - 1, key, l, now, slot, i);
      PlacesGrow(ws[j - 1].hits, key, l, now, i);
      if Live(slot, now, l) && slot % RING == i { PlaceAdds(ws[j - 1].hits, key, l, now, slot); }
    }
  }

  /** What a snapshot compares with the limit is at most the node's requests of live slots. */
  lemma {:induction false} SumBounded(e: A.Joint, ws: seq<W.Trace>, key: W.CcKey, now: nat, i: nat, sum: nat)
    requires A.Jointed(e) && i <= RING && sum <= Sat(LiveTraffic(ws, |ws|, key, e.limits, now, i))
    requires forall p :: 0 <= p < RING ==> Backed(e.buckets[p], p, ws, key, e.limits)
    ensures A.JointSum(e.buckets, i, now, e.limits, sum) <= Sat(LiveTraffic(ws, |ws|, key, e.limits, now, RING))
    decreases RING - i
  {
    if i < RING {
      var b := e.buckets[i];
      assert Backed(b, i, ws, key, e.limits);
      SourcesBounded(b, ws, |ws|, key, e.limits);
      TrafficOfPlace(ws, |ws|, key, e.limits, now, b.slot, i);
      SumBounded(e, ws, key, now, i + 1, if Live(b.slot, now, e.limits) then Add(sum, b.total) else sum);
    }
  }

  lemma {:induction false} LiveIsRecent(hits: seq<W.Hit>, key: W.CcKey, l: Limits, now: nat)
    requires Validated(l)
    ensures W.LiveIn(hits, key, l, now, RING) <= W.Recent(hits, key, l, now, l.window + Width(l))
  {
    if hits != [] {
      var at := hits[|hits| - 1].at;
      if at <= now { WindowMeansLive(at, now, l); }
      LiveIsRecent(hits[..|hits| - 1], key, l, now);
    }
  }

  lemma {:induction false} LiveTrafficIsRecent(ws: seq<W.Trace>, j: nat, key: W.CcKey, l: Limits, now: nat)
    requires Validated(l) && j <= |ws|
    ensures LiveTraffic(ws, j, key, l, now, RING) <= RecentTraffic(ws, j, key, l, now, l.window + Width(l))
  {
    if j > 0 {
      LiveTrafficIsRecent(ws, j - 1, key, l, now);
      LiveIsRecent(ws[j - 1].hits, key, l, now);
    }
  }

  lemma {:induction false} LiveTrafficZero(ws: seq<W.Trace>, j: nat, key: W.CcKey, l: Limits, now: nat)
    requires Validated(l) && j <= |ws|
    ensures LiveTraffic(ws, j, key, l, now, 0) == 0
  {
    if j > 0 {
      LiveTrafficZero(ws, j - 1, key, l, now);
      NoPlaces(ws[j - 1].hits, key, l, now);
    }
  }

  lemma {:induction false} NoPlaces(hits: seq<W.Hit>, key: W.CcKey, l: Limits, now: nat)
    requires Validated(l)
    ensures W.LiveIn(hits, key, l, now, 0) == 0
  {
    if hits != [] { NoPlaces(hits[..|hits| - 1], key, l, now); }
  }

  // ---------------------------------------------------------------------------
  // Main results: for every run of a node
  // ---------------------------------------------------------------------------

  /** Whatever is delivered, in any order, any number of times or never, and whether or not keys were
      refused for capacity: no slot's total exceeds the requests the workers counted in it. */
  lemma TotalsNeverExceedTraffic(workers: nat, workerCapacity: nat, capacity: nat, steps: seq<Step>, key: W.CcKey, l: Limits, slot: nat)
    requires IsRun(Start(workers, workerCapacity, capacity), steps) && Validated(l)
    ensures var n := Exec(Start(workers, workerCapacity, capacity), steps);
            A.TotalOf(n.run.agg, key, l, slot) <= Sat(SlotTraffic(n.workers, |n.workers|, key, l, slot))
  {
    RunSound(workers, workerCapacity, capacity, steps);
    var n := Exec(Start(workers, workerCapacity, capacity), steps);
    if key in n.run.agg.entries {
      var b := n.run.agg.entries[key].buckets[slot % RING];
      assert Backed(b, slot % RING, n.workers, key, n.run.agg.entries[key].limits);
      SourcesBounded(b, n.workers, |n.workers|, key, n.run.agg.entries[key].limits);
    }
  }

  /** The node as a whole had counted more than the permitted requests of the key in the window
      ending at `at`, one bucket width longer. */
  predicate Exceeded(n: Node, key: W.CcKey, l: Limits, at: nat) {
    Validated(l) && RecentTraffic(n.workers, |n.workers|, key, l, at, l.window + Width(l)) > l.requests
  }

  /** A snapshot that starts a mitigation sees real excess. */
  lemma MitigationNeedsExcess(n: Node, now: nat, key: W.CcKey)
    requires Sound(n) && key in n.run.agg.entries
    ensures var e := n.run.agg.entries[key];
            A.Judged(e, now).blockedUntil == e.blockedUntil
            || (A.Judged(e, now).blockedUntil == now + e.limits.mitigation && Exceeded(n, key, e.limits, now))
  {
    var e := n.run.agg.entries[key];
    LiveTrafficZero(n.workers, |n.workers|, key, e.limits, now);
    SumBounded(e, n.workers, key, now, 0, 0);
    LiveTrafficIsRecent(n.workers, |n.workers|, key, e.limits, now);
  }

  /** Some snapshot of the run started a mitigation ending at `until` on real excess. */
  ghost predicate FoundedAt(start: Node, steps: seq<Step>, key: W.CcKey, until: nat, k: nat, l: Limits)
    requires Shaped(start) && IsRun(start, steps)
  {
    && k < |steps| && steps[k].Snapshot? && until == steps[k].now + l.mitigation
    && Exceeded(Exec(start, steps[..k]), key, l, steps[k].now)
  }

  ghost predicate Founded(start: Node, steps: seq<Step>, key: W.CcKey, until: nat)
    requires Shaped(start) && IsRun(start, steps)
  {
    exists k: nat, l: Limits :: FoundedAt(start, steps, key, until, k, l)
  }

  lemma FoundedAtLater(start: Node, before: seq<Step>, steps: seq<Step>, key: W.CcKey, until: nat, k: nat, l: Limits)
    requires Shaped(start) && IsRun(start, before) && IsRun(start, steps) && before <= steps
    requires FoundedAt(start, before, key, until, k, l)
    ensures FoundedAt(start, steps, key, until, k, l)
  {
    assert before[..k] == steps[..k];
  }

  lemma FoundedLater(start: Node, steps: seq<Step>, key: W.CcKey, until: nat)
    requires Shaped(start) && IsRun(start, steps) && steps != []
    requires Founded(start, steps[..|steps| - 1], key, until)
    ensures Founded(start, steps, key, until)
  {
    var before := steps[..|steps| - 1];
    var k: nat, l: Limits :| FoundedAt(start, before, key, until, k, l);
    FoundedAtLater(start, before, steps, key, until, k, l);
  }

  ghost predicate DeadlinesFounded(start: Node, steps: seq<Step>)
    requires Shaped(start) && IsRun(start, steps)
  {
    var n := Exec(start, steps);
    && (forall k :: k in n.run.agg.entries && n.run.agg.entries[k].blockedUntil > 0 ==>
          Founded(start, steps, k, n.run.agg.entries[k].blockedUntil))
    && (forall d, k :: d in n.published && k in d.blockedUntil ==> Founded(start, steps, k, d.blockedUntil[k]))
    && (forall j :: 0 <= j < |n.workers| && n.workers[j].worker.dispositions.Some? ==>
          n.workers[j].worker.dispositions.value in n.published)
  }

  lemma {:induction false} MergesKeepDeadlines(a: A.Aggregator, instance: nat, observed: nat, now: nat, counts: seq<W.CountRecord>, k: W.CcKey)
    requires A.AllJointed(a)
    ensures var r := A.MergeCounts(a, instance, observed, now, counts).0;
            k in r.entries ==> r.entries[k].blockedUntil == if k in a.entries then a.entries[k].blockedUntil else 0
    ensures k in a.entries ==> k in A.MergeCounts(a, instance, observed, now, counts).0.entries
    decreases |counts|
  {
    if counts != [] {
      MergesKeepDeadlines(A.MergeCount(a, instance, observed, now, counts[0]).0, instance, observed, now, counts[1..], k);
    }
  }

  /** A deadline the aggregator holds after a step was there before, or the step is a founding snapshot. */
  lemma StepDeadline(n: Node, s: Step, k: W.CcKey)
    requires Sound(n) && Enabled(n, s) && k in Apply(n, s).run.agg.entries
    ensures var until := Apply(n, s).run.agg.entries[k].blockedUntil;
            || until == 0
            || (k in n.run.agg.entries && until == n.run.agg.entries[k].blockedUntil)
            || (s.Snapshot? && exists l: Limits :: until == s.now + l.mitigation && Exceeded(n, k, l, s.now))
  {
    match s {
      case Deliver(b, now) =>
        MergesKeepDeadlines(n.run.agg.(sequences := n.run.agg.sequences[b.instance := b.sequence]), b.instance, b.observed, now, b.counts, k);
      case Snapshot(now) => MitigationNeedsExcess(n, now, k);
      case _ =>
    }
  }

  /** So does a deadline that a snapshot publishes. */
  lemma PublishedDeadline(n: Node, now: nat, k: W.CcKey)
    requires Sound(n) && k in A.SnapshotOn(n.run.agg, now).1.blockedUntil
    ensures var until := A.SnapshotOn(n.run.agg, now).1.blockedUntil[k];
            && k in n.run.agg.entries
            && ((until == n.run.agg.entries[k].blockedUntil && until > 0)
                || exists l: Limits :: until == now + l.mitigation && Exceeded(n, k, l, now))
  {
    MitigationNeedsExcess(n, now, k);
  }

  lemma FoundedNow(start: Node, steps: seq<Step>, key: W.CcKey, until: nat, l: Limits)
    requires Shaped(start) && IsRun(start, steps) && steps != [] && steps[|steps| - 1].Snapshot?
    requires until == steps[|steps| - 1].now + l.mitigation
    requires Exceeded(Exec(start, steps[..|steps| - 1]), key, l, steps[|steps| - 1].now)
    ensures Founded(start, steps, key, until)
  {
    assert FoundedAt(start, steps, key, until, |steps| - 1, l);
  }

  lemma StepFounded(start: Node, steps: seq<Step>, key: W.CcKey)
    requires Shaped(start) && IsRun(start, steps) && steps != [] && Sound(Exec(start, steps[..|steps| - 1]))
    requires DeadlinesFounded(start, steps[..|steps| - 1])
    ensures var n := Exec(start, steps);
            key in n.run.agg.entries && n.run.agg.entries[key].blockedUntil > 0 ==> Founded(start, steps, key, n.run.agg.entries[key].blockedUntil)
  {
    var before, s := Exec(start, steps[..|steps| - 1]), steps[|steps| - 1];
    var n := Exec(start, steps);
    if key in n.run.agg.entries && n.run.agg.entries[key].blockedUntil > 0 {
      var until := n.run.agg.entries[key].blockedUntil;
      StepDeadline(before, s, key);
      if key in before.run.agg.entries && until == before.run.agg.entries[key].blockedUntil {
        FoundedLater(start, steps, key, until);
      } else {
        var l: Limits :| until == s.now + l.mitigation && Exceeded(before, key, l, s.now);
        FoundedNow(start, steps, key, until, l);
      }
    }
  }

  lemma PublishedFounded(start: Node, steps: seq<Step>, d: W.Dispositions, key: W.CcKey)
    requires Shaped(start) && IsRun(start, steps) && steps != [] && Sound(Exec(start, steps[..|steps| - 1]))
    requires DeadlinesFounded(start, steps[..|steps| - 1])
    requires d in Exec(start, steps).published && key in d.blockedUntil
    ensures Founded(start, steps, key, d.blockedUntil[key])
  {
    var before, s := Exec(start, steps[..|steps| - 1]), steps[|steps| - 1];
    var until := d.blockedUntil[key];
    if d in before.published {
      FoundedLater(start, steps, key, until);
    } else {
      PublishedDeadline(before, s.now, key);
      if until == before.run.agg.entries[key].blockedUntil && until > 0 {
        FoundedLater(start, steps, key, until);
      } else {
        var l: Limits :| until == s.now + l.mitigation && Exceeded(before, key, l, s.now);
        FoundedNow(start, steps, key, until, l);
      }
    }
  }

  lemma {:induction false} RunFounded(workers: nat, workerCapacity: nat, capacity: nat, steps: seq<Step>)
    requires IsRun(Start(workers, workerCapacity, capacity), steps)
    ensures DeadlinesFounded(Start(workers, workerCapacity, capacity), steps)
    decreases |steps|
  {
    var start := Start(workers, workerCapacity, capacity);
    if steps != [] {
      RunFounded(workers, workerCapacity, capacity, steps[..|steps| - 1]);
      RunSound(workers, workerCapacity, capacity, steps[..|steps| - 1]);
      var n := Exec(start, steps);
      forall k | k in n.run.agg.entries && n.run.agg.entries[k].blockedUntil > 0
        ensures Founded(start, steps, k, n.run.agg.entries[k].blockedUntil)
      {
        StepFounded(start, steps, k);
      }
      forall d, k | d in n.published && k in d.blockedUntil ensures Founded(start, steps, k, d.blockedUntil[k]) {
        PublishedFounded(start, steps, d, k);
      }
      forall j | 0 <= j < |n.workers| && n.workers[j].worker.dispositions.Some?
        ensures n.workers[j].worker.dispositions.value in n.published
      {
        WorkersHearSnapshots(start, steps, j);
      }
    }
  }

  lemma ChecksKeepDispositions(w: W.Worker, key: W.CcKey, l: Limits, now: nat)
    requires forall k :: k in w.entries ==> W.Ringed(w.entries[k])
    ensures W.CheckOn(w, key, l, now).0.dispositions == w.dispositions
  {
  }

  /** A worker knows only dispositions that some snapshot published. */
  lemma StepHears(n: Node, s: Step, j: nat)
    requires Shaped(n) && Enabled(n, s) && j < |n.workers|
    ensures var known := Apply(n, s).workers[j].worker.dispositions;
            known == n.workers[j].worker.dispositions || (known.Some? && known.value in n.published)
    ensures n.published <= Apply(n, s).published
  {
    match s {
      case Check(w, key, l, now) => ChecksKeepDispositions(n.workers[w].worker, key, l, now);
      case _ =>
    }
  }

  lemma WorkersHearSnapshots(start: Node, steps: seq<Step>, j: nat)
    requires Shaped(start) && IsRun(start, steps) && steps != [] && DeadlinesFounded(start, steps[..|steps| - 1])
    requires j < |start.workers|
    ensures var n := Exec(start, steps);
            n.workers[j].worker.dispositions.Some? ==> n.workers[j].worker.dispositions.value in n.published
  {
    var n := Exec(start, steps[..|steps| - 1]);
    StepHears(n, steps[|steps| - 1], j);
  }

  /** No worker denies a key on the node's behalf unless, at some snapshot of the run, the workers
      together had counted more than the permitted requests of it in the window plus one bucket
      width; and the denial ends one mitigation period after that snapshot. */
  lemma DenialsAreFounded(workers: nat, workerCapacity: nat, capacity: nat, steps: seq<Step>, j: nat, key: W.CcKey, now: nat)
    requires IsRun(Start(workers, workerCapacity, capacity), steps) && j < workers
    requires W.Denied(Exec(Start(workers, workerCapacity, capacity), steps).workers[j].worker, key, now)
    ensures var start := Start(workers, workerCapacity, capacity);
            exists k: nat, l: Limits ::
              && k < |steps| && steps[k].Snapshot? && now < steps[k].now + l.mitigation
              && Exceeded(Exec(start, steps[..k]), key, l, steps[k].now)
  {
    var start := Start(workers, workerCapacity, capacity);
    RunFounded(workers, workerCapacity, capacity, steps);
    var d := Exec(start, steps).workers[j].worker.dispositions.value;
    assert Founded(start, steps, key, d.blockedUntil[key]);
    var k: nat, l: Limits :| FoundedAt(start, steps, key, d.blockedUntil[key], k, l);
    assert k < |steps| && steps[k].Snapshot? && now < steps[k].now + l.mitigation && Exceeded(Exec(start, steps[..k]), key, l, steps[k].now);
  }

  // ---------------------------------------------------------------------------
  // Nothing is lost between the counters and the totals
  // ---------------------------------------------------------------------------

  function LastSequence(a: A.Aggregator, j: nat): (s: nat) { if j in a.sequences then a.sequences[j] else 0 }

  /** The channel holds, per worker, batches newer than the last one merged and in rising order. */
  ghost predicate Queued(n: Node) {
    && (forall x :: 0 <= x < |n.channel| ==>
          && n.channel[x] in n.sent && n.channel[x].instance < |n.workers|
          && LastSequence(n.run.agg, n.channel[x].instance) < n.channel[x].sequence <= n.workers[n.channel[x].instance].worker.sequence)
    && (forall x, y :: 0 <= x < y < |n.channel| && n.channel[x].instance == n.channel[y].instance ==>
          n.channel[x].sequence < n.channel[y].sequence)
    && (forall j :: 0 <= j < |n.workers| ==> LastSequence(n.run.agg, j) <= n.workers[j].worker.sequence)
  }

  /** No count reaches beyond the moment its batch was observed. */
  ghost predicate Timely(b: A.Batch) {
    forall c :: c in b.counts ==> Validated(c.limits) && c.bucket <= SlotOf(b.observed, c.limits)
  }

  /** A count is in the channel, or merged, or of a slot that is dead for the aggregator. */
  ghost predicate OnItsWay(n: Node, j: nat, c: W.CountRecord) {
    || (exists b :: b in n.channel && b.instance == j && c in b.counts)
    || A.Merged(c.key, c.limits, c.bucket, j, c.count) in n.run.merged
    || !Live(c.bucket, n.run.clock, c.limits)
  }

  ghost predicate SlotConveyed(n: Node, j: nat, key: W.CcKey, l: Limits, slot: nat)
    requires j < |n.workers| && Validated(l)
  {
    W.InSlot(n.workers[j].hits, key, l, slot) > 0 && Live(slot, n.workers[j].clock, l) ==>
      OnItsWay(n, j, W.CountRecord(key, l, slot, Sat(W.InSlot(n.workers[j].hits, key, l, slot))))
  }

  /** What an acknowledged entry of worker `j` counted in its live slots is on its way. */
  ghost predicate WorkerConveyed(n: Node, j: nat)
    requires j < |n.workers| && Ringed(n.workers[j])
  {
    var entries := n.workers[j].worker.entries;
    forall key, slot: nat :: key in entries && !entries[key].dirty ==> SlotConveyed(n, j, key, entries[key].limits, slot)
  }

  ghost predicate Conveyed(n: Node)
    requires Shaped(n)
  {
    && Queued(n) && (forall b :: b in n.sent ==> Timely(b))
    && (forall j :: 0 <= j < |n.workers| ==> WorkerConveyed(n, j))
  }

  /** The rest of the node is as it was, or further on the way. */
  ghost predicate Further(n: Node, m: Node) {
    n.run.clock <= m.run.clock && forall j, c: W.CountRecord :: OnItsWay(n, j, c) ==> OnItsWay(m, j, c)
  }

  lemma OthersConveyed(n: Node, m: Node, j: nat)
    requires j < |n.workers| == |m.workers| && m.workers[j] == n.workers[j] && Ringed(n.workers[j])
    requires WorkerConveyed(n, j) && Further(n, m)
    ensures WorkerConveyed(m, j)
  {
    var entries := n.workers[j].worker.entries;
    forall key, slot: nat | key in entries && !entries[key].dirty ensures SlotConveyed(m, j, key, entries[key].limits, slot) {
      assert SlotConveyed(n, j, key, entries[key].limits, slot);
    }
  }

  /** An entry that kept its live counts unreported is dirty, so a check conveys nothing new. */
  lemma CheckConveyed(n: Node, j: nat, key: W.CcKey, l: Limits, now: nat)
    requires Sound(n) && Enabled(n, Check(j, key, l, now)) && WorkerConveyed(n, j)
    ensures WorkerConveyed(Apply(n, Check(j, key, l, now)), j)
  {
    var m := Apply(n, Check(j, key, l, now));
    var t, u := n.workers[j], m.workers[j];
    forall k, slot: nat | k in u.worker.entries && !u.worker.entries[k].dirty
      ensures SlotConveyed(m, j, k, u.worker.entries[k].limits, slot)
    {
      CheckedEntry(t, key, l, now, k);
      var e := t.worker.entries[k];
      assert SlotConveyed(n, j, k, e.limits, slot);
      if u.hits != t.hits { W.InSlotAppend(t.hits, u.hits[|t.hits|], k, e.limits, slot); }
      if Live(slot, now, e.limits) { LiveNeverReturns(slot, t.clock, now, e.limits); }
    }
  }

  /** After a check, an entry that is not dirty is an old one, and no request of its key was added. */
  lemma CheckedEntry(t: W.Trace, key: W.CcKey, l: Limits, now: nat, k: W.CcKey)
    requires Ringed(t) && k in W.Step(t, W.Check(key, l, now)).worker.entries
    requires !W.Step(t, W.Check(key, l, now)).worker.entries[k].dirty
    ensures k in t.worker.entries && W.Step(t, W.Check(key, l, now)).worker.entries[k] == t.worker.entries[k]
    ensures var u := W.Step(t, W.Check(key, l, now));
            u.hits == t.hits || (u.hits == t.hits + [u.hits[|t.hits|]] && u.hits[|t.hits|].key != k)
  {
  }

  /** A live slot that holds requests is in the batch that reports its entry, with its exact count. */
  lemma DirtyIsReported(t: W.Trace, key: W.CcKey, slot: nat)
    requires W.Inv(t) && key in t.worker.entries && t.worker.entries[key].dirty
    requires Live(slot, t.clock, t.worker.entries[key].limits)
    requires W.InSlot(t.hits, key, t.worker.entries[key].limits, slot) > 0
    ensures var l := t.worker.entries[key].limits;
            W.Reported(t.worker, t.clock, W.CountRecord(key, l, slot, Sat(W.InSlot(t.hits, key, l, slot))))
  {
    var e := t.worker.entries[key];
    assert W.RingOk(e, t.hits, key, t.clock);
    assert W.PlaceOk(e.buckets[slot % RING], slot % RING, t.hits, key, e.limits, t.clock);
    assert e.buckets[slot % RING] in e.buckets;
  }

  lemma ReportTimely(t: W.Trace, r: W.CountRecord)
    requires W.Inv(t) && W.Reported(t.worker, t.clock, r)
    ensures Validated(r.limits) && r.bucket <= SlotOf(t.clock, r.limits)
  {
    var e := t.worker.entries[r.key];
    var i :| 0 <= i < RING && e.buckets[i] == W.Bucket(r.bucket, r.count);
    assert W.PlaceOk(e.buckets[i], i, t.hits, r.key, e.limits, t.clock);
  }

  lemma ReportConveyed(n: Node, j: nat, now: nat, counts: seq<W.CountRecord>, accepted: bool)
    requires Sound(n) && Enabled(n, Report(j, now, counts, accepted)) && WorkerConveyed(n, j)
    requires Further(n, Apply(n, Report(j, now, counts, accepted)))
    ensures WorkerConveyed(Apply(n, Report(j, now, counts, accepted)), j)
  {
    var m := Apply(n, Report(j, now, counts, accepted));
    var t, u := n.workers[j], m.workers[j];
    W.StepKeeps(t, W.Report(now));
    var reported := W.Step(t, W.Report(now));
    forall k, slot: nat | k in u.worker.entries && !u.worker.entries[k].dirty
      ensures SlotConveyed(m, j, k, u.worker.entries[k].limits, slot)
    {
      var e := t.worker.entries[k];
      assert reported.worker.entries[k] == e && u.worker.entries[k].limits == e.limits;
      if W.InSlot(t.hits, k, e.limits, slot) > 0 && Live(slot, now, e.limits) {
        if e.dirty {
          DirtyIsReported(reported, k, slot);
          var c := W.CountRecord(k, e.limits, slot, Sat(W.InSlot(t.hits, k, e.limits, slot)));
          assert c in counts;
          assert ReportedBatch(n, j, now, counts) in m.channel;
        } else {
          LiveNeverReturns(slot, t.clock, now, e.limits);
          assert SlotConveyed(n, j, k, e.limits, slot);
        }
      }
    }
  }

  lemma {:induction false} TakenCountsAreMerged(r: A.Run, instance: nat, observed: nat, counts: seq<W.CountRecord>)
    requires A.AllJointed(r.agg) && A.MergeCounts(r.agg, instance, observed, r.clock, counts).1
    ensures var n := A.TakeCounts(r, instance, observed, counts);
            && n.agg.sequences == r.agg.sequences && (forall m :: m in r.merged ==> m in n.merged)
            && (forall c :: c in counts ==> Validated(c.limits))
            && (forall c :: c in counts && A.Mergeable(c, observed, r.clock) ==>
                  A.Merged(c.key, c.limits, c.bucket, instance, c.count) in n.merged)
    decreases |counts|
  {
    if counts != [] {
      TakenCountsAreMerged(A.TakeCount(r, instance, observed, counts[0]), instance, observed, counts[1..]);
    }
  }

  /** The head of the channel is taken, all its counts are merged, and nothing else is forgotten. */
  lemma DeliverMerges(n: Node, b: A.Batch, now: nat)
    requires Sound(n) && Queued(n) && Enabled(n, Deliver(b, now))
    requires n.channel != [] && n.channel[0] == b && b.observed <= now && A.MergeOn(n.run.agg, b, now).1
    ensures var m := Apply(n, Deliver(b, now));
            && m.run.clock == now && m.run.agg.sequences == n.run.agg.sequences[b.instance := b.sequence]
            && (forall x :: x in n.run.merged ==> x in m.run.merged)
            && (forall c :: c in b.counts ==> Validated(c.limits))
            && (forall c :: c in b.counts && A.Mergeable(c, b.observed, now) ==>
                  A.Merged(c.key, c.limits, c.bucket, b.instance, c.count) in m.run.merged)
  {
    assert A.Accepts(n.run.agg, b, now);
    var noted := A.Run(n.run.agg.(sequences := n.run.agg.sequences[b.instance := b.sequence]), n.run.merged, now);
    TakenCountsAreMerged(noted, b.instance, b.observed, b.counts);
  }

  lemma HeadTaken(n: Node, m: Node, b: A.Batch)
    requires Queued(n) && n.channel != [] && b == n.channel[0] && m.channel == n.channel[1..]
    requires m.workers == n.workers && m.sent == n.sent
    requires m.run.agg.sequences == n.run.agg.sequences[b.instance := b.sequence]
    ensures Queued(m)
  {
    assert forall x :: 0 <= x < |m.channel| ==> m.channel[x] == n.channel[x + 1];
    assert forall j: nat :: LastSequence(m.run.agg, j) == if j == b.instance then b.sequence else LastSequence(n.run.agg, j);
  }

  lemma DeliverQueued(n: Node, b: A.Batch, now: nat)
    requires Sound(n) && Queued(n) && Enabled(n, Deliver(b, now))
    requires n.channel != [] && n.channel[0] == b && b.observed <= now && A.MergeOn(n.run.agg, b, now).1
    ensures Queued(Apply(n, Deliver(b, now)))
  {
    DeliverMerges(n, b, now);
    HeadTaken(n, Apply(n, Deliver(b, now)), b);
  }

  /** Taking the head of the channel moves its counts into the totals, and forgets only dead slots. */
  lemma DeliverFurther(n: Node, b: A.Batch, now: nat)
    requires Sound(n) && Queued(n) && Timely(b) && Enabled(n, Deliver(b, now))
    requires n.channel != [] && n.channel[0] == b && b.observed <= now && A.MergeOn(n.run.agg, b, now).1
    ensures Further(n, Apply(n, Deliver(b, now)))
  {
    var m := Apply(n, Deliver(b, now));
    DeliverMerges(n, b, now);
    forall j, c: W.CountRecord | OnItsWay(n, j, c) ensures OnItsWay(m, j, c) {
      if d :| d in n.channel && d.instance == j && c in d.counts {
        assert d == b || d in n.channel[1..];
      }
    }
  }

  lemma ChecksKeepSequence(w: W.Worker, key: W.CcKey, l: Limits, now: nat)
    requires forall k :: k in w.entries ==> W.Ringed(w.entries[k])
    ensures W.CheckOn(w, key, l, now).0.sequence == w.sequence
  {
  }

  /** A step of one worker: only its own counters are to be looked at again. */
  lemma WorkerStepConveyed(n: Node, m: Node, w: nat)
    requires Sound(n) && Conveyed(n) && w < |n.workers| == |m.workers| && Shaped(m)
    requires m.run == n.run && m.workers == n.workers[w := m.workers[w]]
    requires Queued(m) && (forall b :: b in m.sent ==> Timely(b)) && Further(n, m) && WorkerConveyed(m, w)
    ensures Conveyed(m)
  {
    forall j | 0 <= j < |m.workers| ensures WorkerConveyed(m, j) {
      if j != w { OthersConveyed(n, m, j); }
    }
  }

  lemma CheckStepConveyed(n: Node, w: nat, key: W.CcKey, l: Limits, now: nat)
    requires Sound(n) && Conveyed(n) && Enabled(n, Check(w, key, l, now))
    ensures Conveyed(Apply(n, Check(w, key, l, now)))
  {
    var m := Apply(n, Check(w, key, l, now));
    CheckConveyed(n, w, key, l, now);
    ChecksKeepSequence(n.workers[w].worker, key, l, now);
    WorkerStepConveyed(n, m, w);
  }

  lemma InformStepConveyed(n: Node, w: nat, d: W.Dispositions)
    requires Sound(n) && Conveyed(n) && Enabled(n, Inform(w, d))
    ensures Conveyed(Apply(n, Inform(w, d)))
  {
    var m := Apply(n, Inform(w, d));
    assert WorkerConveyed(n, w);
    forall key, slot: nat | key in m.workers[w].worker.entries && !m.workers[w].worker.entries[key].dirty
      ensures SlotConveyed(m, w, key, m.workers[w].worker.entries[key].limits, slot)
    {
      assert SlotConveyed(n, w, key, n.workers[w].worker.entries[key].limits, slot);
    }
    WorkerStepConveyed(n, m, w);
  }

  lemma ReportStepConveyed(n: Node, w: nat, now: nat, counts: seq<W.CountRecord>, accepted: bool)
    requires Sound(n) && Conveyed(n) && Enabled(n, Report(w, now, counts, accepted))
    ensures Conveyed(Apply(n, Report(w, now, counts, accepted)))
  {
    var m := Apply(n, Report(w, now, counts, accepted));
    var b := ReportedBatch(n, w, now, counts);
    W.StepKeeps(n.workers[w], W.Report(now));
    forall c | c in counts ensures Validated(c.limits) && c.bucket <= SlotOf(now, c.limits) {
      ReportTimely(W.Step(n.workers[w], W.Report(now)), c);
    }
    assert Timely(b);
    assert forall d :: d in n.channel ==> d in m.channel;
    assert Further(n, m);
    ReportConveyed(n, w, now, counts, accepted);
    ReportQueued(n, w, now, counts, accepted);
    WorkerStepConveyed(n, m, w);
  }

  lemma ReportQueued(n: Node, w: nat, now: nat, counts: seq<W.CountRecord>, accepted: bool)
    requires Shaped(n) && Queued(n) && Enabled(n, Report(w, now, counts, accepted))
    ensures Queued(Apply(n, Report(w, now, counts, accepted)))
  {
    var m := Apply(n, Report(w, now, counts, accepted));
    assert m.workers[w].worker.sequence == n.workers[w].worker.sequence + 1;
  }

  lemma AggregatorStepConveyed(n: Node, m: Node)
    requires Shaped(n) && Conveyed(n) && Shaped(m) && m.workers == n.workers && m.sent == n.sent
    requires Queued(m) && Further(n, m)
    ensures Conveyed(m)
  {
    forall j | 0 <= j < |m.workers| ensures WorkerConveyed(m, j) { OthersConveyed(n, m, j); }
  }

  lemma SnapshotStepConveyed(n: Node, now: nat)
    requires Shaped(n) && Conveyed(n) && Enabled(n, Snapshot(now))
    ensures Conveyed(Apply(n, Snapshot(now)))
  {
    AggregatorStepConveyed(n, Apply(n, Snapshot(now)));
  }

  lemma StepConveyed(n: Node, s: Step)
    requires Sound(n) && Enabled(n, s) && (n.inOrder && !n.failed ==> Conveyed(n))
    ensures Apply(n, s).inOrder && !Apply(n, s).failed ==> Conveyed(Apply(n, s))
  {
    var m := Apply(n, s);
    if m.inOrder && !m.failed {
      match s {
        case Check(w, key, l, now) => CheckStepConveyed(n, w, key, l, now);
        case Report(w, now, counts, accepted) => ReportStepConveyed(n, w, now, counts, accepted);
        case Inform(w, d) => InformStepConveyed(n, w, d);
        case Deliver(b, now) =>
          DeliverFurther(n, b, now);
          DeliverQueued(n, b, now);
          AggregatorStepConveyed(n, m);
        case Snapshot(now) => SnapshotStepConveyed(n, now);
      }
    }
  }

  lemma {:induction false} RunConveyed(workers: nat, workerCapacity: nat, capacity: nat, steps: seq<Step>)
    requires IsRun(Start(workers, workerCapacity, capacity), steps)
    ensures var n := Exec(Start(workers, workerCapacity, capacity), steps);
            n.inOrder && !n.failed ==> Conveyed(n)
    decreases |steps|
  {
    if steps != [] {
      RunConveyed(workers, workerCapacity, capacity, steps[..|steps| - 1]);
      RunSound(workers, workerCapacity, capacity, steps[..|steps| - 1]);
      StepConveyed(Exec(Start(workers, workerCapacity, capacity), steps[..|steps| - 1]), steps[|steps| - 1]);
    }
  }

  /** Nothing of the key is left to report or to merge. */
  predicate Drained(n: Node, key: W.CcKey, l: Limits) {
    && n.inOrder && !n.failed && n.channel == [] && n.run.agg.saturatedUntil == 0
    && (forall j :: 0 <= j < |n.workers| ==>
          key in n.workers[j].worker.entries && n.workers[j].worker.entries[key].limits == l ==> !n.workers[j].worker.entries[key].dirty)
  }

  /** Each worker's count in a slot that lives for all of them has been merged as it stands. */
  lemma DrainedIsMerged(n: Node, key: W.CcKey, l: Limits, slot: nat, j: nat)
    requires Sound(n) && Conveyed(n) && Drained(n, key, l) && j < |n.workers| && Validated(l)
    requires Live(slot, n.run.clock, l) && Live(slot, n.workers[j].clock, l)
    ensures Sat(W.InSlot(n.workers[j].hits, key, l, slot)) <= A.Largest(n.run.merged, key, l, slot, j)
  {
    var t := n.workers[j];
    A.LargestBounds(n.run.merged, key, l, slot, j);
    assert WorkerConveyed(n, j);
    if W.InSlot(t.hits, key, l, slot) > 0 {
      assert !W.Silent(t.hits, key, l, t.clock);
      assert SlotConveyed(n, j, key, t.worker.entries[key].limits, slot);
      var m := A.Merged(key, l, slot, j, Sat(W.InSlot(t.hits, key, l, slot)));
      assert A.About(m, key, l, slot, j);
    }
  }

  lemma {:induction false} LargestCover(ws: seq<W.Trace>, ms: seq<A.Merged>, key: W.CcKey, l: Limits, slot: nat, j: nat)
    requires Validated(l) && j <= |ws|
    requires forall i: nat :: i < |ws| ==> Sat(W.InSlot(ws[i].hits, key, l, slot)) <= A.Largest(ms, key, l, slot, i)
    ensures Sat(SlotTraffic(ws, j, key, l, slot)) <= Sat(A.SumLargest(ms, key, l, slot, j))
  {
    if j > 0 { LargestCover(ws, ms, key, l, slot, j - 1); }
  }

  lemma DrainedSums(n: Node, key: W.CcKey, l: Limits, slot: nat)
    requires Sound(n) && Conveyed(n) && Drained(n, key, l) && Validated(l)
    requires Live(slot, n.run.clock, l) && forall i :: 0 <= i < |n.workers| ==> Live(slot, n.workers[i].clock, l)
    ensures Sat(SlotTraffic(n.workers, |n.workers|, key, l, slot)) <= Sat(A.SumLargest(n.run.merged, key, l, slot, |n.workers|))
  {
    forall i: nat | i < |n.workers| ensures Sat(W.InSlot(n.workers[i].hits, key, l, slot)) <= A.Largest(n.run.merged, key, l, slot, i) {
      DrainedIsMerged(n, key, l, slot, i);
    }
    LargestCover(n.workers, n.run.merged, key, l, slot, |n.workers|);
  }

  /** Reports lose nothing: once the channel is empty and no worker has anything of the key left to
      report, the total of every live slot is exactly the node's number of requests in it. Reports
      refused by a full channel, evictions on both sides and snapshots in between change nothing. */
  lemma DrainedTotalsAreExact(workers: nat, workerCapacity: nat, capacity: nat, steps: seq<Step>, key: W.CcKey, l: Limits, slot: nat)
    requires IsRun(Start(workers, workerCapacity, capacity), steps) && Validated(l)
    ensures var n := Exec(Start(workers, workerCapacity, capacity), steps);
            Drained(n, key, l) && Live(slot, n.run.clock, l)
            && (forall j :: 0 <= j < |n.workers| ==> Live(slot, n.workers[j].clock, l)) ==>
              A.TotalOf(n.run.agg, key, l, slot) == Sat(SlotTraffic(n.workers, |n.workers|, key, l, slot))
  {
    var n := Exec(Start(workers, workerCapacity, capacity), steps);
    RunSound(workers, workerCapacity, capacity, steps);
    RunConveyed(workers, workerCapacity, capacity, steps);
    TotalsNeverExceedTraffic(workers, workerCapacity, capacity, steps, key, l, slot);
    if Drained(n, key, l) && Live(slot, n.run.clock, l) && (forall j :: 0 <= j < |n.workers| ==> Live(slot, n.workers[j].clock, l)) {
      A.LiveTotalIsJoin(n.run, key, l, slot);
      DrainedSums(n, key, l, slot);
    }
  }

  // ---------------------------------------------------------------------------
  // Excess is punished, and the punishment reaches every worker
  // ---------------------------------------------------------------------------

  /** One ring place more: it adds the traffic of the slot the place holds, if no other slot of that
      place has live traffic. */
  lemma {:induction false} PlaceTraffic(ws: seq<W.Trace>, j: nat, key: W.CcKey, l: Limits, now: nat, slot: nat, i: nat)
    requires Validated(l) && j <= |ws|
    requires forall s: nat, x: nat :: x < j && Live(s, now, l) && s % RING == i && s != slot ==> W.InSlot(ws[x].hits, key, l, s) == 0
    ensures LiveTraffic(ws, j, key, l, now, i + 1) == LiveTraffic(ws, j, key, l, now, i)
            + if Live(slot, now, l) && slot % RING == i then SlotTraffic(ws, j, key, l, slot) else 0
  {
    if j > 0 {
      PlaceTraffic(ws, j - 1, key, l, now, slot, i);
      var hits := ws[j - 1].hits;
      forall x | 0 <= x < |hits| && W.Same(hits[x], key, l) && Live(SlotOf(hits[x].at, l), now, l) && SlotOf(hits[x].at, l) % RING == i
        ensures SlotOf(hits[x].at, l) == slot
      {
        W.InSlotPositive(hits, key, l, x);
      }
      W.PlaceShare(hits, key, l, now, i, slot);
    }
  }

  lemma {:induction false} SlotTrafficCovers(ws: seq<W.Trace>, j: nat, key: W.CcKey, l: Limits, slot: nat, x: nat)
    requires Validated(l) && x < j <= |ws|
    ensures W.InSlot(ws[x].hits, key, l, slot) <= SlotTraffic(ws, j, key, l, slot)
  {
    if x < j - 1 { SlotTrafficCovers(ws, j - 1, key, l, slot, x); }
  }

  /** The totals of the entry are exact for every slot that lives at `now`. */
  ghost predicate ExactAt(n: Node, key: W.CcKey, l: Limits, now: nat)
    requires Shaped(n) && Validated(l)
  {
    forall s: nat :: Live(s, now, l) ==> A.TotalOf(n.run.agg, key, l, s) == Sat(SlotTraffic(n.workers, |n.workers|, key, l, s))
  }

  lemma {:induction false} ExactSum(n: Node, key: W.CcKey, now: nat, i: nat)
    requires Sound(n) && key in n.run.agg.entries && i <= RING && ExactAt(n, key, n.run.agg.entries[key].limits, now)
    ensures var e := n.run.agg.entries[key];
            Sat(A.LiveTotals(e.buckets, i, now, e.limits)) == Sat(LiveTraffic(n.workers, |n.workers|, key, e.limits, now, i))
  {
    var e := n.run.agg.entries[key];
    if i == 0 {
      LiveTrafficZero(n.workers, |n.workers|, key, e.limits, now);
    } else {
      var b, p := e.buckets[i - 1], i - 1;
      ExactSum(n, key, now, p);
      assert Backed(b, p, n.workers, key, e.limits);
      forall s: nat, x: nat | x < |n.workers| && Live(s, now, e.limits) && s % RING == p && s != b.slot
        ensures W.InSlot(n.workers[x].hits, key, e.limits, s) == 0
      {
        assert A.TotalOf(n.run.agg, key, e.limits, s) == 0;
        SlotTrafficCovers(n.workers, |n.workers|, key, e.limits, s, x);
      }
      PlaceTraffic(n.workers, |n.workers|, key, e.limits, now, b.slot, p);
      ExactPlace(n, key, now, p);
    }
  }

  /** What the place adds to the sum is the traffic of its slot. */
  lemma ExactPlace(n: Node, key: W.CcKey, now: nat, p: nat)
    requires Sound(n) && key in n.run.agg.entries && p < RING && ExactAt(n, key, n.run.agg.entries[key].limits, now)
    ensures var e := n.run.agg.entries[key];
            var b := e.buckets[p];
            Live(b.slot, now, e.limits) ==>
              b.total == if b.slot % RING == p then Sat(SlotTraffic(n.workers, |n.workers|, key, e.limits, b.slot)) else 0
  {
    var e := n.run.agg.entries[key];
    var b := e.buckets[p];
    assert Backed(b, p, n.workers, key, e.limits);
    if Live(b.slot, now, e.limits) && b.slot % RING == p { assert A.TotalOf(n.run.agg, key, e.limits, b.slot) == b.total; }
  }

  lemma {:induction false} RecentIsLive(ws: seq<W.Trace>, j: nat, key: W.CcKey, l: Limits, now: nat)
    requires Validated(l) && j <= |ws| && forall x :: 0 <= x < |ws| ==> forall h :: h in ws[x].hits ==> h.at <= now
    ensures RecentTraffic(ws, j, key, l, now, l.window) <= LiveTraffic(ws, j, key, l, now, RING)
  {
    if j > 0 {
      RecentIsLive(ws, j - 1, key, l, now);
      W.LiveBrackets(ws[j - 1].hits, key, l, now);
    }
  }

  lemma {:induction false} SomeTraffic(ws: seq<W.Trace>, j: nat, key: W.CcKey, l: Limits, now: nat) returns (slot: nat)
    requires Validated(l) && j <= |ws| && LiveTraffic(ws, j, key, l, now, RING) > 0
    ensures Live(slot, now, l) && SlotTraffic(ws, j, key, l, slot) > 0
  {
    if W.LiveIn(ws[j - 1].hits, key, l, now, RING) > 0 {
      slot := SomeHit(ws[j - 1].hits, key, l, now);
    } else {
      slot := SomeTraffic(ws, j - 1, key, l, now);
    }
  }

  lemma {:induction false} SomeHit(hits: seq<W.Hit>, key: W.CcKey, l: Limits, now: nat) returns (slot: nat)
    requires Validated(l) && W.LiveIn(hits, key, l, now, RING) > 0
    ensures Live(slot, now, l) && W.InSlot(hits, key, l, slot) > 0
  {
    var h := hits[|hits| - 1];
    if W.Same(h, key, l) && Live(SlotOf(h.at, l), now, l) { slot := SlotOf(h.at, l); } else { slot := SomeHit(hits[..|hits| - 1], key, l, now); }
  }

  /** No worker's clock is ahead of `now`. */
  predicate ClocksReach(n: Node, now: nat) { n.run.clock <= now && forall j :: 0 <= j < |n.workers| ==> n.workers[j].clock <= now }

  lemma DrainedIsExact(workers: nat, workerCapacity: nat, capacity: nat, steps: seq<Step>, key: W.CcKey, l: Limits, now: nat)
    requires IsRun(Start(workers, workerCapacity, capacity), steps) && Validated(l)
    requires Drained(Exec(Start(workers, workerCapacity, capacity), steps), key, l)
    requires ClocksReach(Exec(Start(workers, workerCapacity, capacity), steps), now)
    ensures ExactAt(Exec(Start(workers, workerCapacity, capacity), steps), key, l, now)
  {
    var n := Exec(Start(workers, workerCapacity, capacity), steps);
    forall s: nat | Live(s, now, l) ensures A.TotalOf(n.run.agg, key, l, s) == Sat(SlotTraffic(n.workers, |n.workers|, key, l, s)) {
      LiveNeverReturns(s, n.run.clock, now, l);
      forall j | 0 <= j < |n.workers| ensures Live(s, n.workers[j].clock, l) { LiveNeverReturns(s, n.workers[j].clock, now, l); }
      DrainedTotalsAreExact(workers, workerCapacity, capacity, steps, key, l, s);
    }
  }

  /** Once nothing of the key is left to report or merge: if the workers together counted more than
      the permitted requests in the last window, the next snapshot denies the key, by a block that is
      still running or by a new one, unless no count of the key was raised since the last snapshot. */
  lemma ExcessIsPunished(workers: nat, workerCapacity: nat, capacity: nat, steps: seq<Step>, key: W.CcKey, l: Limits, now: nat)
    requires IsRun(Start(workers, workerCapacity, capacity), steps) && Validated(l)
    requires Drained(Exec(Start(workers, workerCapacity, capacity), steps), key, l)
    requires ClocksReach(Exec(Start(workers, workerCapacity, capacity), steps), now)
    requires var n := Exec(Start(workers, workerCapacity, capacity), steps);
             RecentTraffic(n.workers, |n.workers|, key, l, now, l.window) > l.requests
    ensures var n := Exec(Start(workers, workerCapacity, capacity), steps);
            && key in n.run.agg.entries && n.run.agg.entries[key].limits == l
            && (n.run.agg.entries[key].changed || n.run.agg.entries[key].blockedUntil > now ==>
                  var d := A.SnapshotOn(n.run.agg, now).1;
                  key in d.blockedUntil && now < d.blockedUntil[key]
                  && d.blockedUntil[key] == if n.run.agg.entries[key].blockedUntil > now then n.run.agg.entries[key].blockedUntil else now + l.mitigation)
  {
    var n := Exec(Start(workers, workerCapacity, capacity), steps);
    RunSound(workers, workerCapacity, capacity, steps);
    DrainedIsExact(workers, workerCapacity, capacity, steps, key, l, now);
    ExcessIsSeen(n, key, l, now);
  }

  lemma ExcessIsSeen(n: Node, key: W.CcKey, l: Limits, now: nat)
    requires Sound(n) && Validated(l) && ClocksReach(n, now) && ExactAt(n, key, l, now)
    requires RecentTraffic(n.workers, |n.workers|, key, l, now, l.window) > l.requests
    ensures key in n.run.agg.entries && n.run.agg.entries[key].limits == l
    ensures var e, d := n.run.agg.entries[key], A.SnapshotOn(n.run.agg, now).1;
            e.changed || e.blockedUntil > now ==>
              key in d.blockedUntil && now < d.blockedUntil[key]
              && d.blockedUntil[key] == if e.blockedUntil > now then e.blockedUntil else now + l.mitigation
  {
    forall x | 0 <= x < |n.workers| ensures forall h :: h in n.workers[x].hits ==> h.at <= now { assert W.Inv(n.workers[x]); }
    RecentIsLive(n.workers, |n.workers|, key, l, now);
    var slot := SomeTraffic(n.workers, |n.workers|, key, l, now);
    assert A.TotalOf(n.run.agg, key, l, slot) > 0;
    var e := n.run.agg.entries[key];
    ExactSum(n, key, now, RING);
    forall i | 0 <= i < |e.buckets| ensures e.buckets[i].total <= U64_MAX { assert Backed(e.buckets[i], i, n.workers, key, l); }
    A.SnapshotDecides(n.run.agg, now, key);
  }

  /** Published snapshots are numbered in order, a denial that still runs is in the aggregator with that
      deadline, and it is in every snapshot published since. */
  ghost predicate Announced(n: Node) {
    && A.AllJointed(n.run.agg)
    && (forall d :: d in n.published ==> d.sequence <= n.run.agg.sequence)
    && (forall d, k :: d in n.published && k in d.blockedUntil && n.run.clock < d.blockedUntil[k] ==>
          k in n.run.agg.entries && n.run.agg.entries[k].blockedUntil == d.blockedUntil[k])
    && (forall d, e, k :: d in n.published && e in n.published && d.sequence <= e.sequence
                          && k in d.blockedUntil && n.run.clock < d.blockedUntil[k] ==>
          k in e.blockedUntil && e.blockedUntil[k] == d.blockedUntil[k])
  }

  /** Nothing that was published is unsaid when deadlines and numbers stay as they are. */
  lemma QuietlyAnnounced(n: Node, m: Node)
    requires Announced(n) && A.AllJointed(m.run.agg) && m.published == n.published && n.run.clock <= m.run.clock
    requires m.run.agg.sequence == n.run.agg.sequence
    requires forall k :: k in n.run.agg.entries ==>
               k in m.run.agg.entries && m.run.agg.entries[k].blockedUntil == n.run.agg.entries[k].blockedUntil
    ensures Announced(m)
  {
  }

  lemma DeliverAnnounced(n: Node, b: A.Batch, now: nat)
    requires Announced(n) && Shaped(n) && Enabled(n, Deliver(b, now))
    ensures Announced(Apply(n, Deliver(b, now)))
  {
    var m := Apply(n, Deliver(b, now));
    var noted := n.run.agg.(sequences := n.run.agg.sequences[b.instance := b.sequence]);
    forall k | k in n.run.agg.entries ensures k in m.run.agg.entries && m.run.agg.entries[k].blockedUntil == n.run.agg.entries[k].blockedUntil {
      A.MarksStay(noted, b.instance, b.observed, now, b.counts, k);
    }
    MergesKeepSequence(noted, b.instance, b.observed, now, b.counts);
    QuietlyAnnounced(n, m);
  }

  lemma {:induction false} MergesKeepSequence(a: A.Aggregator, instance: nat, observed: nat, now: nat, counts: seq<W.CountRecord>)
    requires A.AllJointed(a)
    ensures A.MergeCounts(a, instance, observed, now, counts).0.sequence == a.sequence
    decreases |counts|
  {
    if counts != [] { MergesKeepSequence(A.MergeCount(a, instance, observed, now, counts[0]).0, instance, observed, now, counts[1..]); }
  }

  /** A block that runs at a snapshot is denied by it and stays in the aggregator. */
  lemma RunningBlockStays(a: A.Aggregator, now: nat, k: W.CcKey)
    requires A.AllJointed(a) && k in a.entries && now < a.entries[k].blockedUntil
    ensures var (m, d) := A.SnapshotOn(a, now);
            && k in d.blockedUntil && d.blockedUntil[k] == a.entries[k].blockedUntil
            && k in m.entries && m.entries[k].blockedUntil == a.entries[k].blockedUntil
  {
  }

  lemma DeniedIsKept(a: A.Aggregator, now: nat, k: W.CcKey)
    requires A.AllJointed(a) && k in A.SnapshotOn(a, now).1.blockedUntil
    ensures var (m, d) := A.SnapshotOn(a, now);
            k in m.entries && m.entries[k].blockedUntil == d.blockedUntil[k]
  {
  }

  /** What a snapshot published at `now` says about every denial that runs past `now`. */
  lemma SnapshotRepeats(n: Node, now: nat, d: W.Dispositions, k: W.CcKey)
    requires Announced(n) && n.run.clock <= now && k in d.blockedUntil && now < d.blockedUntil[k]
    requires d in n.published || d == A.SnapshotOn(n.run.agg, now).1
    ensures var (m, newest) := A.SnapshotOn(n.run.agg, now);
            && k in m.entries && m.entries[k].blockedUntil == d.blockedUntil[k]
            && k in newest.blockedUntil && newest.blockedUntil[k] == d.blockedUntil[k]
  {
    if d in n.published { RunningBlockStays(n.run.agg, now, k); } else { DeniedIsKept(n.run.agg, now, k); }
  }

  lemma LaterAgrees(n: Node, now: nat, d: W.Dispositions, e: W.Dispositions, k: W.CcKey)
    requires Announced(n) && n.run.clock <= now && k in d.blockedUntil && now < d.blockedUntil[k] && d.sequence <= e.sequence
    requires d in n.published || d == A.SnapshotOn(n.run.agg, now).1
    requires e in n.published || e == A.SnapshotOn(n.run.agg, now).1
    ensures k in e.blockedUntil && e.blockedUntil[k] == d.blockedUntil[k]
  {
    SnapshotRepeats(n, now, d, k);
    assert A.SnapshotOn(n.run.agg, now).1.sequence == n.run.agg.sequence + 1;
  }

  lemma NewestAnnounced(n: Node, m: Node, now: nat)
    requires Announced(n) && n.run.clock <= now && A.AllJointed(m.run.agg)
    requires m.run.agg == A.SnapshotOn(n.run.agg, now).0 && m.run.clock == now
    requires m.published == n.published + {A.SnapshotOn(n.run.agg, now).1}
    ensures Announced(m)
  {
    forall d, k | d in m.published && k in d.blockedUntil && now < d.blockedUntil[k]
      ensures k in m.run.agg.entries && m.run.agg.entries[k].blockedUntil == d.blockedUntil[k]
    {
      SnapshotRepeats(n, now, d, k);
    }
    forall d, e, k | d in m.published && e in m.published && d.sequence <= e.sequence && k in d.blockedUntil && now < d.blockedUntil[k]
      ensures k in e.blockedUntil && e.blockedUntil[k] == d.blockedUntil[k]
    {
      LaterAgrees(n, now, d, e, k);
    }
    assert m.run.agg.sequence == n.run.agg.sequence + 1;
  }

  lemma SnapshotAnnounced(n: Node, now: nat)
    requires Announced(n) && Shaped(n) && Enabled(n, Snapshot(now))
    ensures Announced(Apply(n, Snapshot(now)))
  {
    NewestAnnounced(n, Apply(n, Snapshot(now)), now);
  }

  lemma StepAnnounced(n: Node, s: Step)
    requires Announced(n) && Shaped(n) && Enabled(n, s)
    ensures Announced(Apply(n, s))
  {
    match s {
      case Deliver(b, now) => DeliverAnnounced(n, b, now);
      case Snapshot(now) => SnapshotAnnounced(n, now);
      case _ => QuietlyAnnounced(n, Apply(n, s));
    }
  }

  lemma {:induction false} RunAnnounced(workers: nat, workerCapacity: nat, capacity: nat, steps: seq<Step>)
    requires IsRun(Start(workers, workerCapacity, capacity), steps)
    ensures Announced(Exec(Start(workers, workerCapacity, capacity), steps))
    decreases |steps|
  {
    if steps != [] {
      var before := steps[..|steps| - 1];
      RunAnnounced(workers, workerCapacity, capacity, before);
      StepAnnounced(Exec(Start(workers, workerCapacity, capacity), before), steps[|steps| - 1]);
    }
  }

  /** The number of the newest snapshot a worker knows. */
  function Known(n: Node, j: nat): (s: int)
    requires j < |n.workers|
  {
    if n.workers[j].worker.dispositions.Some? then n.workers[j].worker.dispositions.value.sequence else -1
  }

  lemma StepLearns(n: Node, s: Step, j: nat)
    requires Shaped(n) && Enabled(n, s) && j < |n.workers|
    ensures Known(n, j) <= Known(Apply(n, s), j)
  {
    match s {
      case Check(w, key, l, now) => ChecksKeepDispositions(n.workers[w].worker, key, l, now);
      case _ =>
    }
  }

  lemma {:induction false} RunLearns(start: Node, steps: seq<Step>, k: nat, j: nat)
    requires Shaped(start) && IsRun(start, steps) && k <= |steps| && j < |start.workers|
    ensures Known(Exec(start, steps[..k]), j) <= Known(Exec(start, steps), j)
    decreases |steps|
  {
    if k < |steps| {
      var before := steps[..|steps| - 1];
      assert before[..k] == steps[..k];
      RunLearns(start, before, k, j);
      StepLearns(Exec(start, before), steps[|steps| - 1], j);
    } else {
      assert steps[..k] == steps;
    }
  }

  /** A snapshot's numbers and those the worker holds. */
  lemma KnownIsPublished(workers: nat, workerCapacity: nat, capacity: nat, steps: seq<Step>, j: nat)
    requires IsRun(Start(workers, workerCapacity, capacity), steps) && j < workers
    ensures var n := Exec(Start(workers, workerCapacity, capacity), steps);
            n.workers[j].worker.dispositions.Some? ==> n.workers[j].worker.dispositions.value in n.published
  {
    RunFounded(workers, workerCapacity, capacity, steps);
  }

  lemma StepPublishes(n: Node, s: Step)
    requires Shaped(n) && Enabled(n, s)
    ensures n.published <= Apply(n, s).published
  {
  }

  lemma {:induction false} PublishedStays(start: Node, steps: seq<Step>, k: nat)
    requires Shaped(start) && IsRun(start, steps) && k <= |steps|
    ensures Exec(start, steps[..k]).published <= Exec(start, steps).published
    decreases |steps|
  {
    if k < |steps| {
      var before := steps[..|steps| - 1];
      assert before[..k] == steps[..k];
      PublishedStays(start, before, k);
      StepPublishes(Exec(start, before), steps[|steps| - 1]);
    } else {
      assert steps[..k] == steps;
    }
  }

  /** Once a worker has been told that a key is denied until `until`, it allows and counts no request of
      that key before then, in whatever order later snapshots reach it, as long as no clock of the
      aggregator is ahead of the request's. */
  lemma DenialsAreEnforced(workers: nat, workerCapacity: nat, capacity: nat, steps: seq<Step>, k: nat, j: nat, key: W.CcKey, l: Limits, now: nat)
    requires IsRun(Start(workers, workerCapacity, capacity), steps) && k <= |steps| && j < workers
    requires var known := Exec(Start(workers, workerCapacity, capacity), steps[..k]).workers[j].worker.dispositions;
             known.Some? && key in known.value.blockedUntil && now < known.value.blockedUntil[key]
    requires Exec(Start(workers, workerCapacity, capacity), steps).run.clock <= now
    ensures var t := Exec(Start(workers, workerCapacity, capacity), steps).workers[j];
            !W.CheckOn(t.worker, key, l, now).1.Allow? && W.Step(t, W.Check(key, l, now)).hits == t.hits
  {
    var start := Start(workers, workerCapacity, capacity);
    var n, d := Exec(start, steps), Exec(start, steps[..k]).workers[j].worker.dispositions.value;
    RunAnnounced(workers, workerCapacity, capacity, steps);
    KnownIsPublished(workers, workerCapacity, capacity, steps[..k], j);
    KnownIsPublished(workers, workerCapacity, capacity, steps, j);
    PublishedStays(start, steps, k);
    RunLearns(start, steps, k, j);
    var e := n.workers[j].worker.dispositions.value;
    assert d in n.published && e in n.published && d.sequence <= e.sequence;
    W.CheckDecidesInOrder(n.workers[j].worker, key, l, now);
  }
}
