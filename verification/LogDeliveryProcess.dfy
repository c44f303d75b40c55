/** The delivery object of the control worker, step by step (node/control/log_delivery.h). */
module LogDeliveryProcess {
  // Its methods run from one suspension point to the next; the view of its fields is a state of
  // module LogDelivery.

  import opened Wrappers
  import opened LogDelivery

  class Delivery {
    var data: Source
    var control: Source
    var ready: bool
    var sender: Sender
    var flight: Option<Flight>

    function View(): State reads this { State(data, control, ready, sender, flight) }

    ghost predicate Valid() reads this { Inv(View()) }

    constructor ()
      ensures Valid() && View() == Initial(DATA_LIMITS, CONTROL_LIMITS)
    {
      data, control, ready, sender, flight := NewSource(DATA_LIMITS), NewSource(CONTROL_LIMITS), false, NoSession, None;
      LimitsAreWide();
      InitialIsSound(DATA_LIMITS, CONTROL_LIMITS);
    }

    /** queued_events: what both sources still owe, whatever the producers report. */
    method CountQueued(fromData: Production, fromControl: Production) returns (n: int)
      requires Valid()
      ensures n == QueuedEvents(View(), fromData, fromControl)
      ensures n >= |Carried(View(), Data)| + |Remaining(data.pending)| + |data.waiting.UnwrapOr([])|
                   + |Carried(View(), Control)| + |Remaining(control.pending)| + |control.waiting.UnwrapOr([])|
    {
      OutstandingIs(data, Carried(View(), Data), fromData);
      OutstandingIs(control, Carried(View(), Control), fromControl);
      var published := Max(fromData.published, data.received);
      n := published - data.acknowledged + fromData.queued;
      published := Max(fromControl.published, control.received);
      n := n + published - control.acknowledged + fromControl.queued;
    }

    method Store(which: Which, source: Source)
      modifies this`data, this`control
      ensures View() == With(old(View()), which, source)
    {
      if which.Data? { data := source; } else { control := source; }
    }

    /** receive_source, once a batch has come. */
    method ReceiveBatch(which: Which, events: seq<Event>, stop: bool)
      requires Valid() && Of(View(), which).receiver.Receiving? && Sealed(events)
      modifies this
      ensures Valid() && View() == Apply(old(View()), BatchArrives(which, events, stop))
    {
      StepKeeps(View(), BatchArrives(which, events, stop));
      TakeBatch(which, events, stop);
    }

    method TakeBatch(which: Which, events: seq<Event>, stop: bool)
      modifies this
      ensures View() == Arrive(old(View()), which, events, stop)
    {
      var source := Of(View(), which);
      Store(which, source.(waiting := Some(events), received := source.received + |events|, arrived := source.arrived + events));
      OfferWaiting(which, stop);
    }

    /** receive_source, woken by the space token. */
    method SpaceReceived(which: Which, stop: bool)
      requires Valid() && Enabled(View(), SpaceFrees(which, stop))
      modifies this
      ensures Valid() && View() == Apply(old(View()), SpaceFrees(which, stop))
    {
      StepKeeps(View(), SpaceFrees(which, stop));
      Store(which, Of(View(), which).(space := false));
      OfferWaiting(which, stop);
    }

    /** receive_source, from the measuring of the batch in hand to the next suspension. */
    method OfferWaiting(which: Which, stop: bool)
      requires Of(View(), which).waiting.Some?
      modifies this
      ensures View() == Offer(old(View()), which, stop)
    {
      var source := Of(View(), which);
      var events := |source.waiting.value|;
      var bytes := MeasureEvents(source.waiting.value);
      if source.retainedEvents + events > source.limits.events || source.retainedBytes + bytes > source.limits.bytes {
        Store(which, source.(receiver := if stop then Ended else Blocked));
        return;
      }
      if stop {
        Store(which, source.(receiver := Ended));
        return;
      }
      Store(which, source.(
        pending := source.pending + [Batch(source.waiting.value, 0)],
        waiting := None,
        receiver := Receiving,
        retainedEvents := source.retainedEvents + events,
        retainedBytes := source.retainedBytes + bytes));
      ready := true;
    }

    /** run, from the top of the loop to its next suspension. */
    method Advance(stop: bool, wire: nat)
      requires Steady(View())
      modifies this
      ensures Valid() && View() == Proceed(old(View()), stop, wire)
    {
      ProceedKeeps(View(), stop, wire);
      if stop {
        sender := NoSession;
      } else if flight.Some? {
        sender := Sending;
      } else if control.pending != [] {
        PrepareDelivery(Control, wire);
      } else if data.pending != [] {
        PrepareDelivery(Data, wire);
      } else if data.closed && control.closed {
        sender := NoSession;
      } else {
        sender := AwaitReady;
      }
    }

    method PrepareDelivery(which: Which, wire: nat)
      requires Queued(Of(View(), which).pending)
      modifies this
      ensures View() == PrepareFrom(old(View()), which, wire)
    {
      var events, bytes, pending := FillDelivery(Of(View(), which).pending, wire);
      Store(which, Of(View(), which).(pending := pending));
      flight, sender := Some(Flight(which, events, |events|, bytes)), Sending;
    }

    /** run, once the control plane has acknowledged. */
    method Acknowledge(stop: bool, wire: nat)
      requires Valid() && sender.Sending? && flight.Some?
      modifies this
      ensures Valid() && View() == Apply(old(View()), Acknowledged(stop, wire))
    {
      AcknowledgedIs(View(), stop, wire);
      SettleFlight();
      Advance(stop, wire);
    }

    method SettleFlight()
      requires flight.Some?
      modifies this
      ensures View() == Settle(old(View()))
    {
      var f := flight.value;
      var source := Of(View(), f.which);
      flight := None;
      Store(f.which, source.(
        retainedEvents := source.retainedEvents - f.count,
        retainedBytes := source.retainedBytes - f.bytes,
        acknowledged := source.acknowledged + f.count,
        delivered := source.delivered + f.events,
        space := true));
    }
  }

  lemma AcknowledgedIs(st: State, stop: bool, wire: nat)
    requires Inv(st) && st.sender.Sending? && st.flight.Some?
    ensures Steady(Settle(st)) && Apply(st, Acknowledged(stop, wire)) == Proceed(Settle(st), stop, wire)
  {
    SettleIsSteady(st);
  }

  method MeasureEvents(events: seq<Event>) returns (bytes: nat)
    ensures bytes == Bytes(events)
  {
    bytes := 0;
    var i := 0;
    while i < |events|
      invariant i <= |events| && bytes + Bytes(events[i..]) == Bytes(events)
    {
      bytes, i := bytes + events[i].bytes, i + 1;
    }
  }

  /** The loop of prepare_delivery. */
  method FillDelivery(queue: seq<Batch>, wire: nat) returns (events: seq<Event>, bytes: nat, pending: seq<Batch>)
    requires Queued(queue)
    ensures Taken(events, pending) == Fill(queue, wire) && bytes == Bytes(events)
  {
    var used: nat := wire;
    events, bytes, pending := [], 0, queue;
    while pending != [] && |events| < MAX_EVENTS
      invariant Queued(pending) && |events| <= MAX_EVENTS && bytes == Bytes(events)
      invariant FillFrom(pending, used, events) == Fill(queue, wire)
      decreases MAX_EVENTS - |events|
    {
      var event := Next(pending);
      var size := EventWireBytes(event.bytes);
      if used + size > MAX_BYTES {
        break;
      }
      SumsOfOneMore(events, event);
      events, bytes, used, pending := events + [event], bytes + event.bytes, used + size, AfterOne(pending);
    }
  }
}
