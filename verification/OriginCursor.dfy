/** The request-local cursor over a plan (node/data/origin_selection.h, origin_cursor). It walks
    each role from its pivot, first for the healthy origins and then for the others. */
module OriginCursor {
  import opened Wrappers
  import opened OriginSelection

  /** The plan of a request: two roles, their pivots and the identifiers known to be unhealthy. */
  datatype Course = Course(roles: seq<seq<Candidate>>, pivots: seq<nat>, unhealthy: set<string>)

  predicate Sound(p: Course) {
    |p.roles| == |p.pivots| == 2 && forall r :: 0 <= r < 2 ==> p.pivots[r] < |p.roles[r]| || (p.roles[r] == [] && p.pivots[r] == 0)
  }

  predicate Healthy(p: Course, c: Candidate) { c.origin.id !in p.unhealthy }

  /** The `n` candidates from `index` on, around the end of the list. */
  function Window(c: seq<Candidate>, index: nat, n: nat): (w: seq<Candidate>)
    requires n > 0 ==> index < |c|
    decreases n
  {
    if n == 0 then [] else [c[index]] + Window(c, Following(c, index), n - 1)
  }

  function Following(c: seq<Candidate>, index: nat): (next: nat)
    requires index < |c|
    ensures next < |c|
  {
    if index + 1 == |c| then 0 else index + 1
  }

  function Pick(p: Course, list: seq<Candidate>, healthy: bool): (r: seq<Candidate>) {
    if list == [] then []
    else if Healthy(p, list[0]) == healthy then [list[0]] + Pick(p, list[1..], healthy)
    else Pick(p, list[1..], healthy)
  }

  /** A role in the order of this request. */
  function Turn(p: Course, role: nat): (r: seq<Candidate>)
    requires Sound(p) && role < 2
  {
    Window(p.roles[role], p.pivots[role], |p.roles[role]|)
  }

  /** One traversal from a role on. */
  function PassFrom(p: Course, role: nat, healthy: bool): (r: seq<Candidate>)
    requires Sound(p) && role <= 2
    decreases 2 - role
  {
    if role == 2 then [] else Pick(p, Turn(p, role), healthy) + PassFrom(p, role + 1, healthy)
  }

  /** The whole order: healthy primaries, healthy backups, the other primaries, the other backups. */
  function Order(p: Course): (r: seq<Candidate>)
    requires Sound(p)
  {
    PassFrom(p, 0, true) + PassFrom(p, 0, false)
  }

  // ---------------------------------------------------------------------------
  // Every candidate exactly once
  // ---------------------------------------------------------------------------

  lemma {:induction false} WindowInside(c: seq<Candidate>, index: nat, n: nat)
    requires index < |c| && index + n <= |c|
    ensures Window(c, index, n) == c[index..index + n]
    decreases n
  {
    if n > 1 { WindowInside(c, index + 1, n - 1); }
    if n == 1 { assert Window(c, Following(c, index), 0) == []; }
  }

  lemma {:induction false} WindowAround(c: seq<Candidate>, index: nat, n: nat)
    requires index < |c| <= index + n <= |c| + index
    ensures Window(c, index, n) == c[index..] + c[..index + n - |c|]
    decreases n
  {
    var later := Window(c, Following(c, index), n - 1);
    if index + 1 < |c| {
      WindowAround(c, index + 1, n - 1);
      Grouped([c[index]], c[index + 1..], c[..index + n - |c|]);
      assert c[index..] == [c[index]] + c[index + 1..];
    } else {
      WindowInside(c, 0, n - 1);
      assert c[index..] == [c[index]] && c[0..n - 1] == c[..n - 1];
    }
  }

  /** A turn is the role's list rotated to begin at its pivot. */
  lemma TurnIsRotation(p: Course, role: nat)
    requires Sound(p) && role < 2
    ensures var c, k := p.roles[role], p.pivots[role]; k <= |c| && Turn(p, role) == c[k..] + c[..k]
    ensures multiset(Turn(p, role)) == multiset(p.roles[role])
  {
    var c, k := p.roles[role], p.pivots[role];
    if c != [] {
      WindowAround(c, k, |c|);
      assert c == c[..k] + c[k..];
    }
  }

  lemma {:induction false} PickSplits(p: Course, list: seq<Candidate>)
    ensures multiset(Pick(p, list, true)) + multiset(Pick(p, list, false)) == multiset(list)
  {
    if list != [] {
      PickSplits(p, list[1..]);
      assert list == [list[0]] + list[1..];
    }
  }

  lemma OrderIsComplete(p: Course)
    requires Sound(p)
    ensures multiset(Order(p)) == multiset(p.roles[0]) + multiset(p.roles[1])
  {
    TurnIsRotation(p, 0);
    TurnIsRotation(p, 1);
    PickSplits(p, Turn(p, 0));
    PickSplits(p, Turn(p, 1));
    PassIs(p, true);
    PassIs(p, false);
  }

  lemma PassIs(p: Course, healthy: bool)
    requires Sound(p)
    ensures PassFrom(p, 0, healthy) == Pick(p, Turn(p, 0), healthy) + Pick(p, Turn(p, 1), healthy)
  {
    assert PassFrom(p, 2, healthy) == [];
    assert PassFrom(p, 1, healthy) == Pick(p, Turn(p, 1), healthy) + [];
  }

  // ---------------------------------------------------------------------------
  // Healthy ones first
  // ---------------------------------------------------------------------------

  predicate Sick(c: Candidate, unhealthy: set<string>) { c.origin.id in unhealthy }

  /** The rising places of `list` from which `part` was taken. */
  predicate TakenFrom(part: seq<Candidate>, places: seq<nat>, list: seq<Candidate>) {
    && |part| == |places|
    && (forall i :: 0 <= i < |places| ==> places[i] < |list| && part[i] == list[places[i]])
    && (forall i, j :: 0 <= i < j < |places| ==> places[i] < places[j])
  }

  /** `part` lists, in their order and as often as they occur, exactly the origins of `list` that are known
      to be unhealthy, or exactly those that are not. */
  ghost predicate IsPart(part: seq<Candidate>, list: seq<Candidate>, unhealthy: set<string>, sick: bool) {
    && (exists places: seq<nat> :: TakenFrom(part, places, list))
    && (forall c :: multiset(part)[c] == if Sick(c, unhealthy) == sick then multiset(list)[c] else 0)
  }

  function Later(places: seq<nat>): (r: seq<nat>)
    ensures |r| == |places| && forall i :: 0 <= i < |places| ==> r[i] == places[i] + 1
  {
    seq(|places|, i requires 0 <= i < |places| => places[i] + 1)
  }

  lemma TakenLater(part: seq<Candidate>, places: seq<nat>, list: seq<Candidate>)
    requires list != [] && TakenFrom(part, places, list[1..])
    ensures TakenFrom(part, Later(places), list) && TakenFrom([list[0]] + part, [0] + Later(places), list)
  {
    assert forall i :: 0 <= i < |places| ==> list[Later(places)[i]] == list[1..][places[i]];
  }

  lemma {:induction false} PickTakes(p: Course, list: seq<Candidate>, healthy: bool) returns (places: seq<nat>)
    ensures TakenFrom(Pick(p, list, healthy), places, list)
  {
    places := [];
    if list != [] {
      var rest := PickTakes(p, list[1..], healthy);
      TakenLater(Pick(p, list[1..], healthy), rest, list);
      places := if Healthy(p, list[0]) == healthy then [0] + Later(rest) else Later(rest);
    }
  }

  lemma {:induction false} PickCounts(p: Course, list: seq<Candidate>, healthy: bool, c: Candidate)
    ensures multiset(Pick(p, list, healthy))[c] == if Sick(c, p.unhealthy) != healthy then multiset(list)[c] else 0
  {
    if list != [] {
      PickCounts(p, list[1..], healthy, c);
      assert list == [list[0]] + list[1..];
    }
  }

  lemma PickIsPart(p: Course, list: seq<Candidate>, healthy: bool)
    ensures IsPart(Pick(p, list, healthy), list, p.unhealthy, !healthy)
  {
    var places := PickTakes(p, list, healthy);
    forall c ensures multiset(Pick(p, list, healthy))[c] == if Sick(c, p.unhealthy) == !healthy then multiset(list)[c] else 0 {
      PickCounts(p, list, healthy, c);
    }
  }

  /** The role's list from its pivot on, around its end. */
  function Rotated(p: Course, role: nat): (r: seq<Candidate>)
    requires Sound(p) && role < 2
  {
    p.roles[role][p.pivots[role]..] + p.roles[role][..p.pivots[role]]
  }

  /** The order of a request: first the origins not known to be unhealthy, primaries before backups, then
      the unhealthy ones in the same way, each role from its pivot on and around. */
  lemma HealthyGoFirst(p: Course) returns (a: seq<Candidate>, b: seq<Candidate>, c: seq<Candidate>, d: seq<Candidate>)
    requires Sound(p)
    ensures Order(p) == a + b + c + d
    ensures IsPart(a, Rotated(p, 0), p.unhealthy, false) && IsPart(b, Rotated(p, 1), p.unhealthy, false)
    ensures IsPart(c, Rotated(p, 0), p.unhealthy, true) && IsPart(d, Rotated(p, 1), p.unhealthy, true)
  {
    TurnIsRotation(p, 0);
    TurnIsRotation(p, 1);
    PassIs(p, true);
    PassIs(p, false);
    a, b, c, d := Pick(p, Turn(p, 0), true), Pick(p, Turn(p, 1), true), Pick(p, Turn(p, 0), false), Pick(p, Turn(p, 1), false);
    Grouped(a + b, c, d);
    PickIsPart(p, Turn(p, 0), true);
    PickIsPart(p, Turn(p, 1), true);
    PickIsPart(p, Turn(p, 0), false);
    PickIsPart(p, Turn(p, 1), false);
  }

  // ---------------------------------------------------------------------------
  // The cursor
  // ---------------------------------------------------------------------------

  datatype Spot = Spot(role: nat, index: nat, remaining: nat, unhealthyPass: bool, sawUnhealthy: bool)

  function Ahead(p: Course, s: Spot, healthy: bool): (r: seq<Candidate>)
    requires Placed(p, s)
  {
    Pick(p, Window(p.roles[s.role], s.index, s.remaining), healthy) + PassFrom(p, s.role + 1, healthy)
  }

  predicate Placed(p: Course, s: Spot) {
    Sound(p) && s.role < 2 && (s.remaining > 0 ==> s.index < |p.roles[s.role]|)
  }

  /** What the cursor still has to return. */
  function Rest(p: Course, s: Spot): (r: seq<Candidate>)
    requires Placed(p, s)
  {
    if s.unhealthyPass then Ahead(p, s, false) else Ahead(p, s, true) + PassFrom(p, 0, false)
  }

  /** While no unhealthy origin has been seen, all of them are still ahead. */
  predicate Tracks(p: Course, s: Spot)
    requires Placed(p, s)
  {
    !s.unhealthyPass && !s.sawUnhealthy ==> Ahead(p, s, false) == PassFrom(p, 0, false)
  }

  function StartOf(p: Course, role: nat, s: Spot): Spot
    requires Sound(p) && role < 2
  {
    s.(role := role, index := p.pivots[role], remaining := |p.roles[role]|)
  }

  /** The candidate under the cursor: it is returned, or skipped without losing anything. */
  lemma OneVisited(p: Course, s: Spot)
    requires Placed(p, s) && Tracks(p, s) && s.remaining > 0
    ensures var c := p.roles[s.role][s.index];
            var next := Spot(s.role, Following(p.roles[s.role], s.index), s.remaining - 1, s.unhealthyPass, s.sawUnhealthy || !Healthy(p, c));
            && Placed(p, next) && Tracks(p, next)
            && if Healthy(p, c) != s.unhealthyPass then Rest(p, s) != [] && Rest(p, s)[0] == c && Rest(p, s)[1..] == Rest(p, next)
               else Rest(p, s) == Rest(p, next)
  {
    var list := p.roles[s.role];
    var c, later := list[s.index], Window(list, Following(list, s.index), s.remaining - 1);
    assert Window(list, s.index, s.remaining)[1..] == later;
    var next := Spot(s.role, Following(list, s.index), s.remaining - 1, s.unhealthyPass, s.sawUnhealthy || !Healthy(p, c));
    VisitAhead(p, s, c, next, true);
    VisitAhead(p, s, c, next, false);
    RestOfVisit(p, s, c, next);
  }

  /** The candidate is the head of what is left exactly when this traversal wants it. */
  lemma RestOfVisit(p: Course, s: Spot, c: Candidate, next: Spot)
    requires Placed(p, s) && Placed(p, next) && next.unhealthyPass == s.unhealthyPass
    requires forall healthy :: Ahead(p, s, healthy) == (if Healthy(p, c) == healthy then [c] else []) + Ahead(p, next, healthy)
    ensures if Healthy(p, c) != s.unhealthyPass then Rest(p, s) != [] && Rest(p, s)[0] == c && Rest(p, s)[1..] == Rest(p, next)
            else Rest(p, s) == Rest(p, next)
  {
    assert Ahead(p, s, true) == (if Healthy(p, c) then [c] else []) + Ahead(p, next, true);
    assert Ahead(p, s, false) == (if Healthy(p, c) then [] else [c]) + Ahead(p, next, false);
    if !s.unhealthyPass {
      Grouped(if Healthy(p, c) then [c] else [], Ahead(p, next, true), PassFrom(p, 0, false));
    }
  }

  lemma VisitAhead(p: Course, s: Spot, c: Candidate, next: Spot, healthy: bool)
    requires Placed(p, s) && s.remaining > 0 && c == p.roles[s.role][s.index]
    requires next.role == s.role && next.index == Following(p.roles[s.role], s.index) && next.remaining == s.remaining - 1
    ensures Placed(p, next) && Ahead(p, s, healthy) == (if Healthy(p, c) == healthy then [c] else []) + Ahead(p, next, healthy)
  {
    var list := p.roles[s.role];
    assert Window(list, s.index, s.remaining)[1..] == Window(list, next.index, next.remaining);
    Grouped(if Healthy(p, c) == healthy then [c] else [], Pick(p, Window(list, next.index, next.remaining), healthy), PassFrom(p, s.role + 1, healthy));
    var tail := Pick(p, Window(list, next.index, next.remaining), healthy);
    assert [] + tail == tail;
  }

  lemma Grouped(a: seq<Candidate>, b: seq<Candidate>, c: seq<Candidate>)
    ensures (a + b) + c == a + (b + c)
  {
  }

  /** A role that is used up gives way to the next one. */
  lemma RoleEnds(p: Course, s: Spot)
    requires Placed(p, s) && Tracks(p, s) && s.remaining == 0 && s.role == 0
    ensures var next := StartOf(p, 1, s); Placed(p, next) && Tracks(p, next) && Rest(p, next) == Rest(p, s)
  {
    var next := StartOf(p, 1, s);
    RoleAhead(p, s, true);
    RoleAhead(p, s, false);
  }

  lemma RoleAhead(p: Course, s: Spot, healthy: bool)
    requires Placed(p, s) && s.remaining == 0 && s.role == 0
    ensures Ahead(p, StartOf(p, 1, s), healthy) == Ahead(p, s, healthy)
  {
    assert [] + PassFrom(p, 1, healthy) == PassFrom(p, 1, healthy);
  }

  /** The end of a traversal: nothing is left, or only the unhealthy ones. */
  lemma PassEnds(p: Course, s: Spot)
    requires Placed(p, s) && Tracks(p, s) && s.remaining == 0 && s.role == 1
    ensures s.unhealthyPass || !s.sawUnhealthy ==> Rest(p, s) == []
    ensures var next := StartOf(p, 0, s).(unhealthyPass := true);
            !s.unhealthyPass ==> Placed(p, next) && Tracks(p, next) && Rest(p, next) == Rest(p, s)
  {
    assert Ahead(p, s, true) == [] && Ahead(p, s, false) == [];
    assert [] + PassFrom(p, 0, false) == PassFrom(p, 0, false);
  }

  lemma StartIsSound(p: Course)
    requires Sound(p)
    ensures var s := StartOf(p, 0, Spot(0, 0, 0, false, false)); Placed(p, s) && Tracks(p, s) && Rest(p, s) == Order(p)
  {
  }

  class Cursor {
    var course: Option<Course>
    var role: nat
    var index: nat
    var remaining: nat
    var unhealthyPass: bool
    var sawUnhealthy: bool

    function Here(): Spot reads this { Spot(role, index, remaining, unhealthyPass, sawUnhealthy) }

    ghost predicate Valid() reads this { course.Some? ==> Placed(course.value, Here()) && Tracks(course.value, Here()) }

    /** The origins that this cursor has yet to return, in order. */
    ghost function Remaining(): seq<Candidate>
      requires Valid()
      reads this
    {
      if course.None? then [] else Rest(course.value, Here())
    }

    constructor (primaries: seq<Candidate>, backups: seq<Candidate>, sequence: nat, unhealthy: set<string>)
      requires Compiled(primaries) && Compiled(backups)
      ensures Valid() && course.Some? && Sound(course.value) && course.value.roles == [primaries, backups] && course.value.unhealthy == unhealthy
      ensures Remaining() == Order(course.value)
      ensures primaries != [] ==> Weight(primaries) > 0 && IsPivot(primaries, sequence, course.value.pivots[0])
      ensures backups != [] ==> Weight(backups) > 0 && IsPivot(backups, sequence, course.value.pivots[1])
    {
      var first := SelectPivot(primaries, sequence);
      var second := SelectPivot(backups, sequence);
      var p := Course([primaries, backups], [first, second], unhealthy);
      StartIsSound(p);
      course, role, index, remaining, unhealthyPass, sawUnhealthy := Some(p), 0, first, |primaries|, false, false;
    }

    /** Returns the next origin of the order, and nothing from then on when it is used up. */
    method Next() returns (origin: Option<Candidate>)
      requires Valid()
      modifies this
      ensures Valid()
      ensures if old(Remaining()) == [] then origin == None && Remaining() == []
              else origin == Some(old(Remaining())[0]) && Remaining() == old(Remaining())[1..]
    {
      if course.None? {
        return None;
      }
      ghost var owed := Remaining();
      while true
        invariant course.Some? && Valid() && Remaining() == owed
        decreases !unhealthyPass, 2 - role, remaining
      {
        if remaining == 0 {
          var ended := NextRole();
          if ended {
            return None;
          }
          continue;
        }
        var candidate, wanted := Visit();
        if wanted {
          return Some(candidate);
        }
      }
    }

    /** The role at hand is used up: go to the next one, begin the second traversal, or end. */
    method NextRole() returns (ended: bool)
      requires Valid() && course.Some? && remaining == 0
      modifies this
      ensures Valid()
      ensures ended ==> course.None? && old(Remaining()) == []
      ensures !ended ==> course.Some? && Remaining() == old(Remaining())
      ensures !ended ==> (unhealthyPass && !old(unhealthyPass)) || (unhealthyPass == old(unhealthyPass) && role > old(role))
    {
      var p := course.value;
      if role == 1 {
        PassEnds(p, Here());
        if unhealthyPass || !sawUnhealthy {
          course := None;
          return true;
        }
        unhealthyPass, role := true, 0;
      } else {
        RoleEnds(p, Here());
        role := role + 1;
      }
      index, remaining, ended := p.pivots[role], |p.roles[role]|, false;
    }

    /** Pass over the candidate under the cursor; it is wanted if this traversal returns it. */
    method Visit() returns (candidate: Candidate, wanted: bool)
      requires Valid() && course.Some? && remaining > 0
      modifies this
      ensures Valid() && course.Some? && unhealthyPass == old(unhealthyPass) && role == old(role) && remaining == old(remaining) - 1
      ensures wanted ==> old(Remaining()) != [] && candidate == old(Remaining())[0] && Remaining() == old(Remaining())[1..]
      ensures !wanted ==> Remaining() == old(Remaining())
    {
      var p := course.value;
      candidate := p.roles[role][index];
      OneVisited(p, Here());
      remaining, index := remaining - 1, Following(p.roles[role], index);
      var healthy := Healthy(p, candidate);
      if !healthy { sawUnhealthy := true; }
      wanted := healthy != unhealthyPass;
    }
  }

  method SelectPivot(c: seq<Candidate>, sequence: nat) returns (pivot: nat)
    requires Compiled(c)
    ensures pivot < |c| || (c == [] && pivot == 0)
    ensures c != [] ==> Weight(c) > 0 && IsPivot(c, sequence, pivot)
  {
    pivot := 0;
    if c != [] {
      assert AddsUp(c, |c| - 1);
      pivot := PivotOf(c, sequence % Weight(c));
    }
  }

  lemma HeadMoves(a: seq<Candidate>, b: seq<Candidate>)
    requires b != []
    ensures (a + [b[0]]) + b[1..] == a + b
  {
    assert b == [b[0]] + b[1..];
  }

  /** Draining a cursor yields every candidate exactly once, in the order of the request. */
  method Drain(cursor: Cursor) returns (all: seq<Candidate>)
    requires cursor.Valid()
    modifies cursor
    ensures all == old(cursor.Remaining()) && cursor.Valid() && cursor.Remaining() == []
  {
    all := [];
    ghost var rest := cursor.Remaining();
    assert all + rest == rest;
    while true
      invariant cursor.Valid() && cursor.Remaining() == rest && all + rest == old(cursor.Remaining())
      decreases |rest|
    {
      var origin := cursor.Next();
      if origin.None? { break; }
      HeadMoves(all, rest);
      all, rest := all + [origin.value], rest[1..];
    }
  }
}
