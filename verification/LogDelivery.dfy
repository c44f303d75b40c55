/** Log delivery as a step system (node/control/log_delivery.h). */
module LogDelivery {
  // Two receiving coroutines, one per batch source, and the sender of the current session share
  // bounded queues on one worker. A step is what one of them does between two suspension points.
  // `arrived` and `delivered` are the history of a source.

  import opened Wrappers

  const MAX_EVENTS: nat := 512
  const MAX_BYTES: nat := 1024 * 1024
  const IDENTITY_WIRE: nat := 128

  /** `id` stands for the content of the event. */
  datatype Event = Event(id: nat, bytes: nat)

  /** A queued batch and its first event that is not in a delivery yet. */
  datatype Batch = Batch(events: seq<Event>, next: nat)

  function VarintSize(n: nat): (size: nat)
    ensures size >= 1
  {
    if n < 0x80 then 1 else 1 + VarintSize(n / 0x80)
  }

  function Groups(k: nat): (n: nat) { if k == 0 then 1 else 0x80 * Groups(k - 1) }

  /** A varint takes one byte for each seven bits of the number, and at least one. */
  lemma {:induction false} VarintHolds(n: nat)
    ensures n < Groups(VarintSize(n)) && (VarintSize(n) > 1 ==> Groups(VarintSize(n) - 1) <= n)
  {
    if n >= 0x80 { VarintHolds(n / 0x80); }
  }

  function EventWire(bytes: nat): (wire: nat)
    ensures wire > bytes
  {
    1 + VarintSize(bytes) + bytes
  }

  /** log_batch::event_wire_bytes: one byte for the field, the length in groups of seven bits, the event. */
  method EventWireBytes(bytes: nat) returns (wire: nat)
    ensures wire == EventWire(bytes)
    ensures wire >= bytes + 2
    ensures var k := wire - bytes - 1; bytes < Groups(k) && (k > 1 ==> Groups(k - 1) <= bytes)
  {
    VarintHolds(bytes);
    var value, size := bytes, 2;
    while value >= 0x80
      invariant size + VarintSize(value) == 2 + VarintSize(bytes)
    {
      size, value := size + 1, value / 0x80;
    }
    wire := size + bytes;
  }

  function Bytes(events: seq<Event>): (n: nat) { if events == [] then 0 else events[0].bytes + Bytes(events[1..]) }

  function Wire(events: seq<Event>): (n: nat) { if events == [] then 0 else EventWire(events[0].bytes) + Wire(events[1..]) }

  /** What the constructor of log_batch admits. */
  predicate Sealed(events: seq<Event>) { 0 < |events| <= MAX_EVENTS && Wire(events) <= MAX_BYTES - IDENTITY_WIRE }

  /** The events of a queue that are not in a delivery yet. */
  function Remaining(pending: seq<Batch>): (events: seq<Event>)
    requires Queued(pending)
  {
    if pending == [] then [] else pending[0].events[pending[0].next..] + Remaining(pending[1..])
  }

  predicate Queued(pending: seq<Batch>) { forall b :: b in pending ==> Sealed(b.events) && b.next < |b.events| }

  // ---------------------------------------------------------------------------
  // Sums
  // ---------------------------------------------------------------------------

  lemma {:induction false} SumsAppend(a: seq<Event>, b: seq<Event>)
    ensures Bytes(a + b) == Bytes(a) + Bytes(b) && Wire(a + b) == Wire(a) + Wire(b)
  {
    if a == [] { assert a + b == b; } else { SumsAppend(a[1..], b); assert (a + b)[1..] == a[1..] + b; }
  }

  lemma {:induction false} BytesWithinWire(events: seq<Event>)
    ensures Bytes(events) <= Wire(events) && |events| <= Wire(events)
  {
    if events != [] { BytesWithinWire(events[1..]); }
  }

  lemma {:induction false} EventWithinWire(events: seq<Event>, i: nat)
    requires i < |events|
    ensures EventWire(events[i].bytes) <= Wire(events)
  {
    if i > 0 { EventWithinWire(events[1..], i - 1); }
  }

  lemma {:induction false} RemainingAppend(pending: seq<Batch>, b: Batch)
    requires Queued(pending + [b])
    ensures Queued(pending) && Remaining(pending + [b]) == Remaining(pending) + b.events[b.next..]
  {
    assert forall x :: x in pending ==> x in pending + [b];
    if pending == [] { assert [b][1..] == []; } else {
      assert (pending + [b])[1..] == pending[1..] + [b];
      RemainingAppend(pending[1..], b);
    }
  }

  // ---------------------------------------------------------------------------
  // Filling a delivery
  // ---------------------------------------------------------------------------

  /** The events taken and the queue left. */
  datatype Taken = Taken(events: seq<Event>, pending: seq<Batch>)

  function AfterOne(pending: seq<Batch>): (rest: seq<Batch>)
    requires Queued(pending) && pending != []
    ensures Queued(rest)
  {
    var b := pending[0];
    if b.next + 1 == |b.events| then pending[1..] else [b.(next := b.next + 1)] + pending[1..]
  }

  lemma SliceHead(events: seq<Event>, next: nat)
    requires next < |events|
    ensures events[next..] == [events[next]] + events[next + 1..]
    ensures next + 1 == |events| ==> events[next + 1..] == []
  {
  }

  lemma Prepend(a: seq<Event>, b: seq<Event>, c: seq<Event>)
    ensures (a + b) + c == a + (b + c)
  {
  }

  lemma OneTaken(pending: seq<Batch>)
    requires Queued(pending) && pending != []
    ensures Remaining(pending) == [Next(pending)] + Remaining(AfterOne(pending))
  {
    var b, later := pending[0], pending[1..];
    assert b in pending;
    SliceHead(b.events, b.next);
    Prepend([b.events[b.next]], b.events[b.next + 1..], Remaining(later));
    if b.next + 1 < |b.events| {
      var rest := [b.(next := b.next + 1)] + later;
      assert rest[1..] == later && rest[0].events[rest[0].next..] == b.events[b.next + 1..];
      assert Remaining(rest) == b.events[b.next + 1..] + Remaining(later);
    } else {
      assert [] + Remaining(later) == Remaining(later);
    }
  }

  /** Filling goes on from the events taken so far, whose wire size `wire` includes. */
  function FillFrom(pending: seq<Batch>, wire: nat, taken: seq<Event>): (t: Taken)
    requires Queued(pending) && |taken| <= MAX_EVENTS
    ensures Queued(t.pending)
    decreases MAX_EVENTS - |taken|
  {
    if pending == [] || |taken| == MAX_EVENTS || !NextFits(pending, wire) then Taken(taken, pending)
    else FillFrom(AfterOne(pending), wire + NextWire(pending), taken + [Next(pending)])
  }

  function Fill(pending: seq<Batch>, wire: nat): (t: Taken)
    requires Queued(pending)
    ensures Queued(t.pending)
  {
    FillFrom(pending, wire, [])
  }

  function Next(pending: seq<Batch>): Event
    requires Queued(pending) && pending != []
  {
    pending[0].events[pending[0].next]
  }

  function NextWire(pending: seq<Batch>): nat
    requires Queued(pending) && pending != []
  {
    EventWire(Next(pending).bytes)
  }

  predicate NextFits(pending: seq<Batch>, wire: nat)
    requires Queued(pending) && pending != []
  {
    wire + NextWire(pending) <= MAX_BYTES
  }

  /** Filling a delivery moves a prefix of the queue. */
  lemma {:induction false} FillConserves(pending: seq<Batch>, wire: nat, taken: seq<Event>)
    requires Queued(pending) && |taken| <= MAX_EVENTS
    ensures var t := FillFrom(pending, wire, taken); t.events + Remaining(t.pending) == taken + Remaining(pending)
    decreases MAX_EVENTS - |taken|
  {
    if pending != [] && |taken| < MAX_EVENTS && NextFits(pending, wire) {
      OneTaken(pending);
      FillConserves(AfterOne(pending), wire + NextWire(pending), taken + [Next(pending)]);
      Prepend(taken, [Next(pending)], Remaining(AfterOne(pending)));
    }
  }

  /** The events fit both limits beside `wire` bytes, and one more would not. */
  predicate LongestFit(t: Taken, wire: nat)
    requires Queued(t.pending)
  {
    && |t.events| <= MAX_EVENTS
    && (t.events != [] ==> wire + Wire(t.events) <= MAX_BYTES)
    && (|t.events| == MAX_EVENTS || t.pending == [] || !NextFits(t.pending, wire + Wire(t.events)))
  }

  lemma {:induction false} FillIsLongest(pending: seq<Batch>, wire: nat, taken: seq<Event>, start: nat)
    requires Queued(pending) && |taken| <= MAX_EVENTS
    requires wire == start + Wire(taken) && (taken != [] ==> wire <= MAX_BYTES)
    ensures LongestFit(FillFrom(pending, wire, taken), start)
    decreases MAX_EVENTS - |taken|
  {
    if pending != [] && |taken| < MAX_EVENTS && NextFits(pending, wire) {
      SumsOfOneMore(taken, Next(pending));
      FillIsLongest(AfterOne(pending), wire + NextWire(pending), taken + [Next(pending)], start);
    }
  }

  lemma SumsOfOneMore(events: seq<Event>, event: Event)
    ensures Bytes(events + [event]) == Bytes(events) + event.bytes && Wire(events + [event]) == Wire(events) + EventWire(event.bytes)
  {
    SumsAppend(events, [event]);
  }

  /** A delivery is the longest prefix of the queue that fits both limits. */
  lemma FillTakesLongestPrefix(pending: seq<Batch>, wire: nat)
    requires Queued(pending)
    ensures var t := Fill(pending, wire); t.events + Remaining(t.pending) == Remaining(pending) && LongestFit(t, wire)
  {
    FillConserves(pending, wire, []);
    FillIsLongest(pending, wire, [], wire);
    assert [] + Remaining(pending) == Remaining(pending);
  }

  lemma {:induction false} FillKeepsTaken(pending: seq<Batch>, wire: nat, taken: seq<Event>)
    requires Queued(pending) && |taken| <= MAX_EVENTS
    ensures |FillFrom(pending, wire, taken).events| >= |taken|
    decreases MAX_EVENTS - |taken|
  {
    if pending != [] && |taken| < MAX_EVENTS && NextFits(pending, wire) {
      FillKeepsTaken(AfterOne(pending), wire + NextWire(pending), taken + [Next(pending)]);
    }
  }

  /** No delivery is empty while the node identity keeps to the bytes reserved for it. */
  lemma DeliveriesAreNotEmpty(pending: seq<Batch>, wire: nat)
    requires Queued(pending) && pending != []
    ensures Fill(pending, wire).events != [] <==> NextFits(pending, wire)
    ensures wire <= IDENTITY_WIRE ==> Fill(pending, wire).events != []
  {
    assert pending[0] in pending;
    EventWithinWire(pending[0].events, pending[0].next);
    if NextFits(pending, wire) { FillKeepsTaken(AfterOne(pending), wire + NextWire(pending), [] + [Next(pending)]); }
  }

  // ---------------------------------------------------------------------------
  // The state
  // ---------------------------------------------------------------------------

  /** Where the receiving coroutine of a source is suspended. */
  datatype Receiver = Receiving | Blocked | Ended

  datatype Limits = Limits(events: nat, bytes: nat)

  /** `space` is the token of the capacity-one channel space_receiver_. */
  datatype Source = Source(
    limits: Limits,
    pending: seq<Batch>,
    waiting: Option<seq<Event>>,
    receiver: Receiver,
    space: bool,
    closed: bool,
    retainedEvents: int,
    retainedBytes: int,
    received: int,
    acknowledged: int,
    arrived: seq<Event>,
    delivered: seq<Event>)

  datatype Which = Data | Control

  datatype Flight = Flight(which: Which, events: seq<Event>, count: int, bytes: int)

  datatype Sender = NoSession | AwaitReady | Sending | Retrying

  /** `ready` is the token of the capacity-one channel ready_receiver_. */
  datatype State = State(data: Source, control: Source, ready: bool, sender: Sender, flight: Option<Flight>)

  function Of(st: State, which: Which): Source { if which.Data? then st.data else st.control }

  function With(st: State, which: Which, source: Source): State {
    if which.Data? then st.(data := source) else st.(control := source)
  }

  function NewSource(limits: Limits): Source {
    Source(limits, [], None, Receiving, false, false, 0, 0, 0, 0, [], [])
  }

  const DATA_LIMITS := Limits(8192, 64 * 1024 * 1024)
  const CONTROL_LIMITS := Limits(1024, 8 * 1024 * 1024)

  /** Limits that hold any one batch. */
  predicate Wide(limits: Limits) { limits.events >= MAX_EVENTS && limits.bytes >= MAX_BYTES }

  lemma LimitsAreWide()
    ensures Wide(DATA_LIMITS) && Wide(CONTROL_LIMITS)
  {
  }

  function Initial(data: Limits, control: Limits): State { State(NewSource(data), NewSource(control), false, NoSession, None) }

  // ---------------------------------------------------------------------------
  // The receiving side
  // ---------------------------------------------------------------------------

  predicate Fits(s: Source)
    requires s.waiting.Some?
  {
    s.retainedEvents + |s.waiting.value| <= s.limits.events && s.retainedBytes + Bytes(s.waiting.value) <= s.limits.bytes
  }

  /** From the capacity check on: wait for space, stop with the batch in hand, or queue it. */
  function OfferOn(s: Source, stop: bool): Source
    requires s.waiting.Some?
  {
    if !Fits(s) then s.(receiver := if stop then Ended else Blocked)
    else if stop then s.(receiver := Ended)
    else
      s.(pending := s.pending + [Batch(s.waiting.value, 0)],
         waiting := None,
         receiver := Receiving,
         retainedEvents := s.retainedEvents + |s.waiting.value|,
         retainedBytes := s.retainedBytes + Bytes(s.waiting.value))
  }

  /** A queued batch wakes the sender. */
  function Offer(st: State, which: Which, stop: bool): State
    requires Of(st, which).waiting.Some?
  {
    With(st, which, OfferOn(Of(st, which), stop)).(ready := st.ready || (Fits(Of(st, which)) && !stop))
  }

  /** A batch arrives from the producers' channel. */
  function Arrive(st: State, which: Which, events: seq<Event>, stop: bool): State {
    Offer(With(st, which, ArriveOn(Of(st, which), events)), which, stop)
  }

  function ArriveOn(s: Source, events: seq<Event>): Source {
    s.(waiting := Some(events), received := s.received + |events|, arrived := s.arrived + events)
  }

  // ---------------------------------------------------------------------------
  // The sending side
  // ---------------------------------------------------------------------------

  /** The top of the session loop: keep what is in flight, or prepare control events before data. */
  function Proceed(st: State, stop: bool, wire: nat): State
    requires Queued(st.data.pending) && Queued(st.control.pending)
  {
    if stop then st.(sender := NoSession)
    else if st.flight.Some? then st.(sender := Sending)
    else if st.control.pending != [] then PrepareFrom(st, Control, wire)
    else if st.data.pending != [] then PrepareFrom(st, Data, wire)
    else if st.data.closed && st.control.closed then st.(sender := NoSession)
    else st.(sender := AwaitReady)
  }

  function PrepareFrom(st: State, which: Which, wire: nat): State
    requires Queued(Of(st, which).pending)
  {
    var t := Fill(Of(st, which).pending, wire);
    With(st, which, Of(st, which).(pending := t.pending)).(
      sender := Sending,
      flight := Some(Flight(which, t.events, |t.events|, Bytes(t.events))))
  }

  /** The acknowledgement of what is in flight. */
  function Settle(st: State): State
    requires st.flight.Some?
  {
    With(st, st.flight.value.which, SettleOn(Of(st, st.flight.value.which), st.flight.value)).(flight := None)
  }

  function SettleOn(s: Source, f: Flight): Source {
    s.(retainedEvents := s.retainedEvents - f.count,
       retainedBytes := s.retainedBytes - f.bytes,
       acknowledged := s.acknowledged + f.count,
       space := true,
       delivered := s.delivered + f.events)
  }

  // ---------------------------------------------------------------------------
  // Steps
  // ---------------------------------------------------------------------------

  /** `stop` is what the stop token says when the coroutine looks at it; `wire` the wire size of the
      node identity of the session. */
  datatype Step =
    | BatchArrives(which: Which, events: seq<Event>, stop: bool)
    | ReceiveEnds(which: Which, stop: bool)
    | SpaceFrees(which: Which, stop: bool)
    | SpaceStops(which: Which)
    | ReceiverRestarts(which: Which)
    | SessionStarts(stop: bool, wire: nat)
    | ReadyWakes(stop: bool, wire: nat)
    | ReadyStops
    | Acknowledged(stop: bool, wire: nat)
    | Failed(stop: bool)
    | RetryElapses(stop: bool, wire: nat)
    | RetryStops

  predicate Enabled(st: State, step: Step) {
    match step
    case BatchArrives(which, events, _) => Of(st, which).receiver.Receiving? && Sealed(events)
    case ReceiveEnds(which, _) => Of(st, which).receiver.Receiving?
    case SpaceFrees(which, _) => Of(st, which).receiver.Blocked? && Of(st, which).space && Of(st, which).waiting.Some?
    case SpaceStops(which) => Of(st, which).receiver.Blocked?
    case ReceiverRestarts(which) => Of(st, which).receiver.Ended?
    case SessionStarts(_, _) => st.sender.NoSession?
    case ReadyWakes(_, _) => st.sender.AwaitReady? && st.ready
    case ReadyStops => st.sender.AwaitReady?
    case Acknowledged(_, _) => st.sender.Sending? && st.flight.Some?
    case Failed(_) => st.sender.Sending?
    case RetryElapses(_, _) => st.sender.Retrying?
    case RetryStops => st.sender.Retrying?
  }

  function Apply(st: State, step: Step): State
    requires Inv(st) && Enabled(st, step)
  {
    match step
    case BatchArrives(which, events, stop) => Arrive(st, which, events, stop)
    case ReceiveEnds(which, stop) =>
      With(st, which, Of(st, which).(closed := Of(st, which).closed || !stop, receiver := Ended)).(ready := true)
    case SpaceFrees(which, stop) => Offer(With(st, which, Of(st, which).(space := false)), which, stop)
    case SpaceStops(which) => With(st, which, Of(st, which).(receiver := Ended))
    case ReceiverRestarts(which) =>
      if Of(st, which).waiting.Some? then Offer(st, which, false) else With(st, which, Of(st, which).(receiver := Receiving))
    case SessionStarts(stop, wire) => Proceed(st, stop, wire)
    case ReadyWakes(stop, wire) => Proceed(st.(ready := false), stop, wire)
    case ReadyStops => st.(sender := NoSession)
    case Acknowledged(stop, wire) => SettledKeepsQueues(st); Proceed(Settle(st), stop, wire)
    case Failed(stop) => st.(sender := if stop then NoSession else Retrying)
    case RetryElapses(stop, wire) => Proceed(st, stop, wire)
    case RetryStops => st.(sender := NoSession)
  }

  lemma SettledKeepsQueues(st: State)
    requires st.flight.Some?
    ensures Settle(st).data.pending == st.data.pending && Settle(st).control.pending == st.control.pending
  {
  }

  // ---------------------------------------------------------------------------
  // Invariant
  // ---------------------------------------------------------------------------

  function Carried(st: State, which: Which): seq<Event> {
    if st.flight.Some? && st.flight.value.which == which then st.flight.value.events else []
  }

  /** Per source: acknowledged, in flight, queued and waiting events are the arrived ones in order,
      and the counters say so. `carried` is what is in flight. */
  predicate Accounted(s: Source, carried: seq<Event>) {
    && Queued(s.pending)
    && (s.waiting.Some? ==> Sealed(s.waiting.value))
    && s.arrived == s.delivered + carried + Remaining(s.pending) + s.waiting.UnwrapOr([])
    && s.retainedEvents == |carried| + |Remaining(s.pending)|
    && s.retainedBytes == Bytes(carried) + Bytes(Remaining(s.pending))
    && s.retainedEvents <= s.limits.events && s.retainedBytes <= s.limits.bytes
    && s.received == |s.arrived| && s.acknowledged == |s.delivered|
  }

  /** No wake-up of a receiver is lost. */
  predicate Wakeable(s: Source) {
    && (s.receiver.Receiving? ==> s.waiting.None?)
    && (s.receiver.Blocked? ==> s.waiting.Some? && (s.space || !Fits(s)))
  }

  predicate FlightSound(st: State) {
    && (st.flight.Some? ==>
          st.flight.value.count == |st.flight.value.events| <= MAX_EVENTS && st.flight.value.bytes == Bytes(st.flight.value.events))
    && (st.sender.Sending? || st.sender.Retrying? ==> st.flight.Some?)
  }

  /** No wake-up of the sender is lost: it only sleeps without a token when there is nothing to do. */
  predicate SenderWakeable(st: State) {
    st.sender.AwaitReady? ==>
      st.flight.None? && (st.ready || (st.data.pending == [] && st.control.pending == [] && !(st.data.closed && st.control.closed)))
  }

  predicate Inv(st: State) {
    && Wide(st.data.limits) && Wide(st.control.limits)
    && Accounted(st.data, Carried(st, Data)) && Accounted(st.control, Carried(st, Control))
    && Wakeable(st.data) && Wakeable(st.control)
    && FlightSound(st) && SenderWakeable(st)
  }

  // ---------------------------------------------------------------------------
  // Every step keeps it
  // ---------------------------------------------------------------------------

  lemma OfferKeeps(s: Source, carried: seq<Event>, stop: bool)
    requires Accounted(s, carried) && s.waiting.Some?
    ensures Accounted(OfferOn(s, stop), carried) && Wakeable(OfferOn(s, stop))
  {
    var events := s.waiting.value;
    var batch := Batch(events, 0);
    if Fits(s) && !stop {
      assert forall b :: b in s.pending + [batch] <==> b in s.pending || b == batch;
      RemainingAppend(s.pending, batch);
      assert events[0..] == events;
      SumsAppend(Remaining(s.pending), events);
      OrderKept(s.delivered, carried, Remaining(s.pending), events);
    }
  }

  lemma OrderKept(a: seq<Event>, b: seq<Event>, c: seq<Event>, d: seq<Event>)
    ensures a + b + c + d == a + b + (c + d) + []
    ensures a + b + c + d == (a + b) + [] + c + d
    ensures a + [] + (b + c) + d == a + b + c + d
  {
  }

  lemma ArriveKeeps(s: Source, carried: seq<Event>, events: seq<Event>)
    requires Accounted(s, carried) && s.waiting.None? && Sealed(events)
    ensures Accounted(ArriveOn(s, events), carried)
  {
    var front := s.delivered + carried + Remaining(s.pending);
    assert front + [] == front;
  }

  lemma SettleKeeps(s: Source, f: Flight)
    requires Accounted(s, f.events) && f.count == |f.events| && f.bytes == Bytes(f.events)
    requires Wakeable(s)
    ensures Accounted(SettleOn(s, f), []) && Wakeable(SettleOn(s, f))
  {
    OrderKept(s.delivered, f.events, Remaining(s.pending), s.waiting.UnwrapOr([]));
  }

  lemma PrepareKeeps(s: Source, wire: nat)
    requires Accounted(s, [])
    ensures var t := Fill(s.pending, wire);
            |t.events| <= MAX_EVENTS && Accounted(s.(pending := t.pending), t.events)
  {
    var t := Fill(s.pending, wire);
    FillTakesLongestPrefix(s.pending, wire);
    SumsAppend(t.events, Remaining(t.pending));
    OrderKept(s.delivered, t.events, Remaining(t.pending), s.waiting.UnwrapOr([]));
  }

  /** What the sender relies on before it decides what to do next. */
  predicate Steady(st: State) {
    && Wide(st.data.limits) && Wide(st.control.limits)
    && Accounted(st.data, Carried(st, Data)) && Accounted(st.control, Carried(st, Control))
    && Wakeable(st.data) && Wakeable(st.control)
    && (st.flight.Some? ==>
          st.flight.value.count == |st.flight.value.events| <= MAX_EVENTS && st.flight.value.bytes == Bytes(st.flight.value.events))
  }

  lemma PrepareFromKeeps(st: State, which: Which, wire: nat)
    requires Steady(st) && st.flight.None?
    ensures Inv(PrepareFrom(st, which, wire))
  {
    PrepareKeeps(Of(st, which), wire);
  }

  lemma ProceedKeeps(st: State, stop: bool, wire: nat)
    requires Steady(st)
    ensures Inv(Proceed(st, stop, wire))
  {
    if !stop && st.flight.None? {
      if st.control.pending != [] { PrepareFromKeeps(st, Control, wire); }
      else if st.data.pending != [] { PrepareFromKeeps(st, Data, wire); }
    }
  }

  lemma SettleIsSteady(st: State)
    requires Inv(st) && st.flight.Some?
    ensures Steady(Settle(st))
  {
    SettleKeeps(Of(st, st.flight.value.which), st.flight.value);
  }

  /** Replacing one source, with a token for the sender when it has more to send. */
  lemma SourceReplaced(st: State, which: Which, s: Source, ready: bool)
    requires Inv(st) && s.limits == Of(st, which).limits && Accounted(s, Carried(st, which)) && Wakeable(s)
    requires (st.ready ==> ready) && (ready || (s.pending == Of(st, which).pending && s.closed == Of(st, which).closed))
    ensures Inv(With(st, which, s).(ready := ready))
  {
  }

  lemma OfferIsKept(st: State, which: Which, s: Source, stop: bool)
    requires Inv(st) && s.waiting.Some? && s.limits == Of(st, which).limits && Accounted(s, Carried(st, which))
    requires s.pending == Of(st, which).pending && s.closed == Of(st, which).closed
    ensures Inv(Offer(With(st, which, s), which, stop))
  {
    OfferKeeps(s, Carried(st, which), stop);
    SourceReplaced(st, which, OfferOn(s, stop), st.ready || (Fits(s) && !stop));
  }

  predicate OfReceiver(step: Step) { step.BatchArrives? || step.ReceiveEnds? || step.SpaceFrees? || step.SpaceStops? || step.ReceiverRestarts? }

  lemma ArrivalKeeps(st: State, which: Which, events: seq<Event>, stop: bool)
    requires Inv(st) && Of(st, which).receiver.Receiving? && Sealed(events)
    ensures Inv(Arrive(st, which, events, stop))
  {
    ArriveKeeps(Of(st, which), Carried(st, which), events);
    OfferIsKept(st, which, ArriveOn(Of(st, which), events), stop);
  }

  lemma RestartKeeps(st: State, which: Which)
    requires Inv(st)
    ensures Inv(if Of(st, which).waiting.Some? then Offer(st, which, false) else With(st, which, Of(st, which).(receiver := Receiving)))
  {
    if Of(st, which).waiting.Some? { OfferIsKept(st, which, Of(st, which), false); }
    else { SourceReplaced(st, which, Of(st, which).(receiver := Receiving), st.ready); }
  }

  lemma EndKeeps(st: State, which: Which, closed: bool, ready: bool)
    requires Inv(st) && (st.ready ==> ready) && (ready || closed == Of(st, which).closed)
    ensures Inv(With(st, which, Of(st, which).(closed := closed, receiver := Ended)).(ready := ready))
  {
    SourceReplaced(st, which, Of(st, which).(closed := closed, receiver := Ended), ready);
  }

  lemma SpaceKeeps(st: State, which: Which, stop: bool)
    requires Inv(st) && Of(st, which).waiting.Some?
    ensures Inv(Offer(With(st, which, Of(st, which).(space := false)), which, stop))
  {
    OfferIsKept(st, which, Of(st, which).(space := false), stop);
  }

  lemma ReceiverKeeps(st: State, step: Step)
    requires Inv(st) && Enabled(st, step) && OfReceiver(step)
    ensures Inv(Apply(st, step))
  {
    match step
    case BatchArrives(which, events, stop) => ArrivalKeeps(st, which, events, stop);
    case ReceiveEnds(which, stop) => EndKeeps(st, which, Of(st, which).closed || !stop, true);
    case SpaceFrees(which, stop) => SpaceKeeps(st, which, stop);
    case SpaceStops(which) => EndKeeps(st, which, Of(st, which).closed, st.ready);
    case ReceiverRestarts(which) => RestartKeeps(st, which);
  }

  lemma SenderKeeps(st: State, step: Step)
    requires Inv(st) && Enabled(st, step) && !OfReceiver(step)
    ensures Inv(Apply(st, step))
  {
    match step
    case SessionStarts(stop, wire) => ProceedKeeps(st, stop, wire);
    case ReadyWakes(stop, wire) => ProceedKeeps(st.(ready := false), stop, wire);
    case ReadyStops =>
    case Acknowledged(stop, wire) => SettleIsSteady(st); ProceedKeeps(Settle(st), stop, wire);
    case Failed(_) =>
    case RetryElapses(stop, wire) => ProceedKeeps(st, stop, wire);
    case RetryStops =>
  }

  lemma StepKeeps(st: State, step: Step)
    requires Inv(st) && Enabled(st, step)
    ensures Inv(Apply(st, step))
  {
    if OfReceiver(step) { ReceiverKeeps(st, step); } else { SenderKeeps(st, step); }
  }

  // ---------------------------------------------------------------------------
  // Runs
  // ---------------------------------------------------------------------------

  predicate IsRun(st: State, steps: seq<Step>)
    requires Inv(st)
    decreases |steps|
  {
    steps != [] ==> Enabled(st, steps[0]) && (StepKeeps(st, steps[0]); IsRun(Apply(st, steps[0]), steps[1..]))
  }

  function Exec(st: State, steps: seq<Step>): (r: State)
    requires Inv(st) && IsRun(st, steps)
    ensures Inv(r)
    decreases |steps|
  {
    if steps == [] then st else StepKeeps(st, steps[0]); Exec(Apply(st, steps[0]), steps[1..])
  }

  /** The states of runs of the program, under any limits wide enough for a batch. */
  ghost predicate Reachable(st: State) {
    exists data, control, steps: seq<Step> ::
      Wide(data) && Wide(control) && (InitialIsSound(data, control); IsRun(Initial(data, control), steps) && Exec(Initial(data, control), steps) == st)
  }

  lemma InitialIsSound(data: Limits, control: Limits)
    requires Wide(data) && Wide(control)
    ensures Inv(Initial(data, control))
  {
    var none: seq<Event> := [];
    assert none + none + none + none == none;
  }

  /** Conservation and order: whatever interleaves, every event that arrived is acknowledged, in
      flight, queued or waiting, in arrival order, exactly once. */
  lemma EventsAreConserved(st: State, which: Which)
    requires Reachable(st)
    ensures Queued(Of(st, which).pending)
    ensures var s := Of(st, which);
            s.arrived == s.delivered + Carried(st, which) + Remaining(s.pending) + s.waiting.UnwrapOr([])
  {
  }

  /** The retained counters are the sizes of what is kept, and stay within the limits. */
  lemma RetentionIsBounded(st: State, which: Which)
    requires Reachable(st)
    ensures Queued(Of(st, which).pending)
    ensures var s, kept := Of(st, which), Carried(st, which) + Remaining(Of(st, which).pending);
            && s.retainedEvents == |kept| <= s.limits.events
            && s.retainedBytes == Bytes(kept) <= s.limits.bytes
  {
    SumsAppend(Carried(st, which), Remaining(Of(st, which).pending));
  }

  /** Deciding what to do next acknowledges nothing and leaves what is in flight alone. */
  lemma ProceedAcknowledgesNothing(st: State, stop: bool, wire: nat, which: Which)
    requires Steady(st)
    ensures Of(Proceed(st, stop, wire), which).delivered == Of(st, which).delivered
    ensures st.flight.Some? ==> Proceed(st, stop, wire).flight == st.flight
  {
  }

  lemma OfferAcknowledgesNothing(st: State, from: Which, s: Source, stop: bool, which: Which)
    requires s.waiting.Some? && s.delivered == Of(st, from).delivered
    ensures var next := Offer(With(st, from, s), from, stop); Of(next, which).delivered == Of(st, which).delivered && next.flight == st.flight
  {
  }

  lemma ReceivingAcknowledgesNothing(st: State, step: Step, which: Which)
    requires Inv(st) && Enabled(st, step) && OfReceiver(step)
    ensures Of(Apply(st, step), which).delivered == Of(st, which).delivered && Apply(st, step).flight == st.flight
  {
    match step
    case BatchArrives(from, events, stop) => OfferAcknowledgesNothing(st, from, ArriveOn(Of(st, from), events), stop, which);
    case SpaceFrees(from, stop) => OfferAcknowledgesNothing(st, from, Of(st, from).(space := false), stop, which);
    case ReceiverRestarts(from) =>
      if Of(st, from).waiting.Some? { OfferAcknowledgesNothing(st, from, Of(st, from), false, which); }
    case _ =>
  }

  lemma SettlingAcknowledgesFlight(st: State, which: Which)
    requires Inv(st) && st.flight.Some?
    ensures Of(Settle(st), which).delivered == Of(st, which).delivered + Carried(st, which)
  {
  }

  /** What is in flight is sent again unchanged until it is acknowledged, across retries, ended
      sessions and restarted receivers; nothing is acknowledged otherwise. */
  lemma FlightIsKeptUntilAcknowledged(st: State, step: Step, which: Which)
    requires Inv(st) && Enabled(st, step)
    ensures var next := Apply(st, step);
            if step.Acknowledged? then Of(next, which).delivered == Of(st, which).delivered + Carried(st, which)
            else Of(next, which).delivered == Of(st, which).delivered && (st.flight.Some? ==> next.flight == st.flight)
  {
    if OfReceiver(step) { ReceivingAcknowledgesNothing(st, step, which); } else {
      match step
      case SessionStarts(stop, wire) => ProceedAcknowledgesNothing(st, stop, wire, which);
      case ReadyWakes(stop, wire) => ProceedAcknowledgesNothing(st.(ready := false), stop, wire, which);
      case Acknowledged(stop, wire) =>
        SettlingAcknowledgesFlight(st, which);
        SettleIsSteady(st);
        ProceedAcknowledgesNothing(Settle(st), stop, wire, which);
      case RetryElapses(stop, wire) => ProceedAcknowledgesNothing(st, stop, wire, which);
      case _ =>
    }
  }

  /** A batch in hand fits an empty queue, so a receiver is only held up by events still on their way. */
  lemma BlockedMeansRetained(st: State, which: Which)
    requires Reachable(st) && Of(st, which).receiver.Blocked? && !Of(st, which).space
    ensures Carried(st, which) != [] || Of(st, which).pending != []
  {
    var s := Of(st, which);
    BytesWithinWire(s.waiting.value);
  }

  /** No deadlock: when the sender sleeps without a token, no receiver sleeps without one. */
  lemma NobodyWaitsForNothing(st: State, which: Which)
    requires Reachable(st) && st.sender.AwaitReady? && !st.ready
    ensures Of(st, which).receiver.Blocked? ==> Of(st, which).space
  {
    if Of(st, which).receiver.Blocked? && !Of(st, which).space { BlockedMeansRetained(st, which); }
  }

  // ---------------------------------------------------------------------------
  // Statistics
  // ---------------------------------------------------------------------------

  /** The producers' counters, taken at another moment. */
  datatype Production = Production(published: nat, queued: nat)

  function Outstanding(s: Source, p: Production): int { Max(p.published, s.received) - s.acknowledged + p.queued }

  function QueuedEvents(st: State, data: Production, control: Production): int {
    Outstanding(st.data, data) + Outstanding(st.control, control)
  }

  lemma OutstandingIs(s: Source, carried: seq<Event>, p: Production)
    requires Accounted(s, carried)
    ensures Outstanding(s, p) == |carried| + |Remaining(s.pending)| + |s.waiting.UnwrapOr([])|
                                   + (Max(p.published, s.received) - s.received) + p.queued
  {
  }

  /** The subtraction never underflows: what it leaves is at least every event not acknowledged. */
  lemma QueuedEventsCountsUndelivered(st: State, which: Which, p: Production)
    requires Reachable(st)
    ensures Queued(Of(st, which).pending)
    ensures var s := Of(st, which);
            Outstanding(s, p) == |Carried(st, which)| + |Remaining(s.pending)| + |s.waiting.UnwrapOr([])|
                                   + (Max(p.published, s.received) - s.received) + p.queued
  {
    OutstandingIs(Of(st, which), Carried(st, which), p);
  }

  // ---------------------------------------------------------------------------
  // What the sender does next
  // ---------------------------------------------------------------------------

  /** Whenever the sender decides: it ends when it is told to stop; it sends what is in flight again; else
      it sends control events first, then data, always from the front of that queue; it sleeps only
      with both queues empty, and ends by itself only when both sources have closed as well. */
  lemma SenderChooses(st: State, stop: bool, wire: nat)
    requires Steady(st)
    ensures var next := Proceed(st, stop, wire);
            && (stop ==> next == st.(sender := NoSession))
            && (!stop && st.flight.Some? ==> next == st.(sender := Sending))
            && (!stop && st.flight.None? ==>
                  var queued := st.control.pending != [] || st.data.pending != [];
                  && (next.sender.Sending? <==> queued) && (next.flight.Some? <==> queued)
                  && (next.sender.AwaitReady? <==> !queued && !(st.data.closed && st.control.closed))
                  && (queued ==>
                        var which := if st.control.pending != [] then Control else Data;
                        && next.flight.value.which == which
                        && next.flight.value.events + Remaining(Of(next, which).pending) == Remaining(Of(st, which).pending)
                        && (which.Control? ==> next.data == st.data) && (which.Data? ==> next.control == st.control))
                  && (!queued ==> next == st.(sender := next.sender)))
  {
    if !stop && st.flight.None? {
      if st.control.pending != [] { FillTakesLongestPrefix(st.control.pending, wire); }
      else if st.data.pending != [] { FillTakesLongestPrefix(st.data.pending, wire); }
    }
  }

  lemma ProceedClosesNothing(st: State, stop: bool, wire: nat, which: Which)
    requires Steady(st)
    ensures Of(Proceed(st, stop, wire), which).closed == Of(st, which).closed
  {
  }

  lemma OfferClosesNothing(st: State, from: Which, s: Source, stop: bool, which: Which)
    requires s.waiting.Some? && s.closed == Of(st, from).closed
    ensures Of(Offer(With(st, from, s), from, stop), which).closed == Of(st, which).closed
  {
  }

  lemma ReceivingCloses(st: State, step: Step, which: Which)
    requires Inv(st) && Enabled(st, step) && OfReceiver(step)
    ensures Of(Apply(st, step), which).closed <==> Of(st, which).closed || step == ReceiveEnds(which, false)
  {
    match step
    case BatchArrives(from, events, stop) => OfferClosesNothing(st, from, ArriveOn(Of(st, from), events), stop, which);
    case SpaceFrees(from, stop) => OfferClosesNothing(st, from, Of(st, from).(space := false), stop, which);
    case ReceiverRestarts(from) => if Of(st, from).waiting.Some? { OfferClosesNothing(st, from, Of(st, from), false, which); }
    case _ =>
  }

  /** A source closes only when its channel ends without a stop, and stays closed. */
  lemma SourcesCloseByThemselves(st: State, step: Step, which: Which)
    requires Inv(st) && Enabled(st, step)
    ensures Of(Apply(st, step), which).closed <==> Of(st, which).closed || step == ReceiveEnds(which, false)
  {
    if OfReceiver(step) { ReceivingCloses(st, step, which); } else {
      match step
      case SessionStarts(stop, wire) => ProceedClosesNothing(st, stop, wire, which);
      case ReadyWakes(stop, wire) => ProceedClosesNothing(st.(ready := false), stop, wire, which);
      case Acknowledged(stop, wire) =>
        SettleIsSteady(st);
        ProceedClosesNothing(Settle(st), stop, wire, which);
      case RetryElapses(stop, wire) => ProceedClosesNothing(st, stop, wire, which);
      case _ =>
    }
  }

  /** A batch is queued exactly when it fits what is retained and no stop was asked for; until then the
      receiver keeps it in hand, asleep or, after a stop, ended. */
  lemma OffersExactly(s: Source, stop: bool)
    requires s.waiting.Some?
    ensures var n := OfferOn(s, stop);
            var fits := s.retainedEvents + |s.waiting.value| <= s.limits.events && s.retainedBytes + Bytes(s.waiting.value) <= s.limits.bytes;
            && (n.waiting.None? <==> fits && !stop)
            && (n.waiting.None? ==> n.receiver.Receiving? && n.pending == s.pending + [Batch(s.waiting.value, 0)])
            && (n.waiting.Some? ==> n.pending == s.pending && n.waiting == s.waiting && n.receiver == if stop then Ended else Blocked)
  {
  }
}
