/** The control-loop FIFO lease `data_plane_operations` (node/data/data_plane.h). */
module OperationLease {
  // Each acquire call is identified by the ticket it draws; a suspended caller may be resumed with
  // the grant, or leave because its timeout or stop token fired, possibly after the grant was sent.

  /** `holders` own a lease, `granted` were sent the grant and have not resumed yet, `suspended`
      have not returned from acquire. `served` lists every ticket that ever received the lock. */
  datatype Lock = Lock(
    busy: bool, waiters: seq<nat>, granted: set<nat>, holders: set<nat>, suspended: set<nat>,
    next: nat, served: seq<nat>)

  const FREE := Lock(false, [], {}, {}, {}, 0, [])

  datatype Event =
    | Acquire
    | Resume(ticket: nat)
    | Leave(ticket: nat, refused: set<nat>)
    | Release(ticket: nat, refused: set<nat>)

  /** release: the first waiter whose channel accepts gets the grant; refused waiters lose their place. */
  function Pass(l: Lock, refused: set<nat>): (r: Lock)
    decreases |l.waiters|
  {
    if l.waiters == [] then l.(busy := false)
    else
      var first := l.waiters[0];
      var rest := l.(waiters := l.waiters[1..]);
      if first in refused then Pass(rest, refused)
      else rest.(granted := l.granted + {first}, served := l.served + [first])
  }

  predicate Enabled(l: Lock, e: Event) {
    match e
    case Acquire => true
    case Resume(t) => t in l.granted
    case Leave(t, _) => t in l.suspended
    case Release(t, _) => t in l.holders
  }

  function Without(s: seq<nat>, t: nat): (r: seq<nat>)
    ensures forall x :: x in r <==> x in s && x != t
  {
    if s == [] then [] else if s[0] == t then Without(s[1..], t) else [s[0]] + Without(s[1..], t)
  }

  function Step(l: Lock, e: Event): (r: Lock) {
    match e
    case Acquire =>
      var t := l.next;
      if !l.busy then l.(busy := true, holders := l.holders + {t}, next := t + 1, served := l.served + [t])
      else l.(waiters := l.waiters + [t], suspended := l.suspended + {t}, next := t + 1)
    case Resume(t) => l.(granted := l.granted - {t}, suspended := l.suspended - {t}, holders := l.holders + {t})
    case Leave(t, refused) =>
      var gone := l.(waiters := Without(l.waiters, t), suspended := l.suspended - {t}, granted := l.granted - {t});
      if t in l.granted then Pass(gone, refused) else gone
    case Release(t, refused) => Pass(l.(holders := l.holders - {t}), refused)
  }

  predicate IsRun(l: Lock, events: seq<Event>)
    decreases |events|
  {
    events == [] || (Enabled(l, events[0]) && IsRun(Step(l, events[0]), events[1..]))
  }

  function Exec(l: Lock, events: seq<Event>): (r: Lock)
    decreases |events|
  {
    if events == [] then l else Exec(Step(l, events[0]), events[1..])
  }

  // ---------------------------------------------------------------------------
  // Invariant
  // ---------------------------------------------------------------------------

  predicate Ascending(s: seq<nat>) { forall i, j :: 0 <= i < j < |s| ==> s[i] < s[j] }

  predicate Before(s: seq<nat>, t: seq<nat>) { forall x, y :: x in s && y in t ==> x < y }

  function Owners(l: Lock): set<nat> { l.holders + l.granted }

  /** Everything except the accounting of the owner. */
  predicate Queued(l: Lock) {
    && Ascending(l.waiters) && Ascending(l.served) && Before(l.served, l.waiters)
    && (forall t :: t in l.waiters ==> t < l.next && t in l.suspended)
    && (forall t :: t in l.served ==> t < l.next)
    && (forall t :: t in l.suspended ==> t < l.next)
    && (forall t :: t in Owners(l) ==> t in l.served)
    && l.granted <= l.suspended && l.holders !! l.suspended
  }

  predicate Inv(l: Lock) {
    && Queued(l)
    && (l.busy <==> Owners(l) != {})
    && (forall t, u :: t in Owners(l) && u in Owners(l) ==> t == u)
    && (!l.busy ==> l.waiters == [])
  }

  lemma AscendingConcat(s: seq<nat>, t: seq<nat>)
    requires Ascending(s) && Ascending(t) && Before(s, t)
    ensures Ascending(s + t)
  {
    var u := s + t;
    forall i, j | 0 <= i < j < |u| ensures u[i] < u[j] {
      if i < |s| <= j { assert u[i] in s && u[j] in t; }
    }
  }

  lemma {:induction false} WithoutKeepsOrder(s: seq<nat>, t: nat)
    requires Ascending(s)
    ensures Ascending(Without(s, t))
  {
    if s != [] {
      WithoutKeepsOrder(s[1..], t);
      forall x | x in Without(s[1..], t) ensures s[0] < x { assert x in s[1..]; }
      AscendingConcat([s[0]], Without(s[1..], t));
    }
  }

  lemma {:induction false} PassKeeps(l: Lock, refused: set<nat>)
    requires Queued(l) && l.busy && Owners(l) == {}
    ensures Inv(Pass(l, refused))
    decreases |l.waiters|
  {
    if l.waiters != [] {
      var first := l.waiters[0];
      var rest := l.(waiters := l.waiters[1..]);
      assert first in l.waiters;
      assert forall t :: t in rest.waiters ==> t in l.waiters && first < t;
      if first in refused {
        PassKeeps(rest, refused);
      } else {
        assert forall x :: x in l.served ==> x < first;
        AscendingConcat(l.served, [first]);
      }
    }
  }

  lemma AcquireKeeps(l: Lock)
    requires Inv(l)
    ensures Inv(Step(l, Acquire))
  {
    AscendingConcat(l.waiters, [l.next]);
    AscendingConcat(l.served, [l.next]);
  }

  lemma LeaveKeeps(l: Lock, t: nat, refused: set<nat>)
    requires Inv(l) && Enabled(l, Leave(t, refused))
    ensures Inv(Step(l, Leave(t, refused)))
  {
    var gone := l.(waiters := Without(l.waiters, t), suspended := l.suspended - {t}, granted := l.granted - {t});
    WithoutKeepsOrder(l.waiters, t);
    if t in l.granted {
      assert Owners(gone) == {};
      PassKeeps(gone, refused);
    }
  }

  lemma ReleaseKeeps(l: Lock, t: nat, refused: set<nat>)
    requires Inv(l) && Enabled(l, Release(t, refused))
    ensures Inv(Step(l, Release(t, refused)))
  {
    assert Owners(l.(holders := l.holders - {t})) == {};
    PassKeeps(l.(holders := l.holders - {t}), refused);
  }

  lemma StepKeeps(l: Lock, e: Event)
    requires Inv(l) && Enabled(l, e)
    ensures Inv(Step(l, e))
  {
    match e {
      case Acquire => AcquireKeeps(l);
      case Resume(t) =>
      case Leave(t, refused) => LeaveKeeps(l, t, refused);
      case Release(t, refused) => ReleaseKeeps(l, t, refused);
    }
  }

  lemma {:induction false} RunKeeps(l: Lock, events: seq<Event>)
    requires Inv(l) && IsRun(l, events)
    ensures Inv(Exec(l, events))
    decreases |events|
  {
    if events != [] {
      StepKeeps(l, events[0]);
      RunKeeps(Step(l, events[0]), events[1..]);
    }
  }

  // ---------------------------------------------------------------------------
  // Main results: for every run
  // ---------------------------------------------------------------------------

  /** At most one caller holds the lease or has an unclaimed grant; the lock is busy exactly
      when there is one, so a grant that raced with a timeout is never lost; and a free lock has
      nobody queued. */
  lemma MutualExclusion(events: seq<Event>)
    requires IsRun(FREE, events)
    ensures var l := Exec(FREE, events);
            && |l.holders| + |l.granted| == (if l.busy then 1 else 0)
            && (!l.busy ==> l.waiters == [])
  {
    RunKeeps(FREE, events);
    var l := Exec(FREE, events);
    if l.busy {
      var t :| t in Owners(l);
      assert Owners(l) == {t};
      assert l.holders * l.granted == {};
      assert l.holders == {t} || l.holders == {};
      assert l.granted == {t} || l.granted == {};
    } else {
      assert l.holders == {} && l.granted == {};
    }
  }

  /** The lock is handed out strictly in the order of the acquire calls, and never past a caller
      that is still queued. */
  lemma GrantsFollowArrival(events: seq<Event>)
    requires IsRun(FREE, events)
    ensures var l := Exec(FREE, events);
            && Ascending(l.served)
            && (forall s, w :: s in l.served && w in l.waiters ==> s < w)
  {
    RunKeeps(FREE, events);
  }

  /** The place of the first queued waiter whose channel accepts, or the length of the queue. */
  function FirstWilling(waiters: seq<nat>, refused: set<nat>): (k: nat)
    ensures k <= |waiters| && (forall j :: 0 <= j < k ==> waiters[j] in refused)
    ensures k < |waiters| ==> waiters[k] !in refused
  {
    if waiters == [] || waiters[0] !in refused then 0 else 1 + FirstWilling(waiters[1..], refused)
  }

  /** Passing the lock on serves the first queued waiter whose channel accepts and drops those before
      it, or frees the lock when every channel refuses. */
  lemma {:induction false} PassServesFirstWilling(l: Lock, refused: set<nat>)
    ensures var k := FirstWilling(l.waiters, refused);
            Pass(l, refused) ==
            if k == |l.waiters| then l.(busy := false, waiters := [])
            else l.(waiters := l.waiters[k + 1..], granted := l.granted + {l.waiters[k]}, served := l.served + [l.waiters[k]])
    decreases |l.waiters|
  {
    if l.waiters != [] && l.waiters[0] in refused {
      var rest := l.(waiters := l.waiters[1..]);
      PassServesFirstWilling(rest, refused);
      var k := FirstWilling(rest.waiters, refused);
      assert k < |rest.waiters| ==> rest.waiters[k] == l.waiters[k + 1] && rest.waiters[k + 1..] == l.waiters[k + 2..];
    }
  }

  // ---------------------------------------------------------------------------
  // The object the source updates in place
  // ---------------------------------------------------------------------------

  class Operations {
    var busy: bool
    var waiters: seq<nat>
    var granted: set<nat>
    var holders: set<nat>
    var suspended: set<nat>
    var next: nat
    var served: seq<nat>

    function State(): (l: Lock)
      reads this
    {
      Lock(busy, waiters, granted, holders, suspended, next, served)
    }

    constructor ()
      ensures State() == FREE
    {
      busy, waiters, granted, holders, suspended, next, served := false, [], {}, {}, {}, 0, [];
    }

    method AcquireLease() returns (ticket: nat, immediate: bool)
      requires Inv(State())
      modifies this
      ensures State() == Step(old(State()), Acquire) && Inv(State())
      ensures ticket == old(next) && (immediate <==> ticket in holders)
    {
      StepKeeps(State(), Acquire);
      ticket, immediate := next, !busy;
      next := next + 1;
      if immediate {
        busy, holders, served := true, holders + {ticket}, served + [ticket];
      } else {
        waiters, suspended := waiters + [ticket], suspended + {ticket};
      }
    }

    /** release: pops waiters until one accepts the grant. */
    method ReleaseNext(refused: set<nat>)
      modifies this
      ensures State() == Pass(old(State()), refused)
    {
      while waiters != []
        invariant Pass(State(), refused) == Pass(old(State()), refused)
        decreases |waiters|
      {
        var first := waiters[0];
        waiters := waiters[1..];
        if first !in refused {
          granted, served := granted + {first}, served + [first];
          return;
        }
      }
      busy := false;
    }

    method ResumeWaiter(ticket: nat)
      requires Inv(State()) && ticket in granted
      modifies this
      ensures State() == Step(old(State()), Resume(ticket)) && Inv(State())
    {
      StepKeeps(State(), Resume(ticket));
      granted, suspended, holders := granted - {ticket}, suspended - {ticket}, holders + {ticket};
    }

    /** The waiter's destructor after a timeout or cancellation. */
    method LeaveWaiter(ticket: nat, refused: set<nat>)
      requires Inv(State()) && ticket in suspended
      modifies this
      ensures State() == Step(old(State()), Leave(ticket, refused)) && Inv(State())
    {
      StepKeeps(State(), Leave(ticket, refused));
      var pass := ticket in granted;
      waiters, suspended, granted := Without(waiters, ticket), suspended - {ticket}, granted - {ticket};
      if pass {
        ReleaseNext(refused);
      }
    }

    method ReleaseLease(ticket: nat, refused: set<nat>)
      requires Inv(State()) && ticket in holders
      modifies this
      ensures State() == Step(old(State()), Release(ticket, refused)) && Inv(State())
    {
      StepKeeps(State(), Release(ticket, refused));
      holders := holders - {ticket};
      ReleaseNext(refused);
    }
  }
}
