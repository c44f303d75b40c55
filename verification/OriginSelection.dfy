/** Weighted origin selection (node/data/origin_selection.h): the compiled plan, the cursor with its
    healthy and its unhealthy traversal, and how often each origin comes first. */
module OriginSelection {
  import opened Wrappers

  datatype Origin = Origin(id: string, enabled: bool, weight: nat, role: string, group: string)

  /** An origin of one role; `end` is the total weight up to and including it. */
  datatype Candidate = Candidate(origin: Origin, end: nat)

  // ---------------------------------------------------------------------------
  // The plan
  // ---------------------------------------------------------------------------

  const ROLES := ["primary", "backup"]

  function GroupName(group: string): string { if group == "" then "default" else group }

  /** Which origins a plan for a group, or for explicit identifiers, takes into a role. */
  predicate Chosen(o: Origin, role: string, group: string, ids: seq<string>) {
    && o.enabled && o.weight > 0 && o.role == role
    && if ids == [] then GroupName(o.group) == GroupName(group) else o.id in ids
  }

  function ChosenOnes(origins: seq<Origin>, role: string, group: string, ids: seq<string>): (r: seq<Origin>) {
    if origins == [] then []
    else
      var n := |origins| - 1;
      var front := ChosenOnes(origins[..n], role, group, ids);
      if Chosen(origins[n], role, group, ids) then front + [origins[n]] else front
  }

  function Origins(c: seq<Candidate>): (r: seq<Origin>)
    ensures |r| == |c| && forall i :: 0 <= i < |c| ==> r[i] == c[i].origin
  {
    if c == [] then [] else Origins(c[..|c| - 1]) + [c[|c| - 1].origin]
  }

  /** Positive weights, added up along the list. */
  predicate Compiled(c: seq<Candidate>) {
    forall i :: 0 <= i < |c| ==> AddsUp(c, i)
  }

  /** Where candidate `i` begins on the line of weights. */
  function Begin(c: seq<Candidate>, i: nat): (b: nat)
    requires i < |c|
  {
    if i == 0 then 0 else c[i - 1].end
  }

  predicate AddsUp(c: seq<Candidate>, i: nat)
    requires i < |c|
  {
    c[i].origin.weight > 0 && c[i].end == Begin(c, i) + c[i].origin.weight
  }

  predicate CompiledFor(c: seq<Candidate>, origins: seq<Origin>, role: string, group: string, ids: seq<string>) {
    Compiled(c) && Origins(c) == ChosenOnes(origins, role, group, ids)
  }

  /** Where the weights of a role add up to. */
  function Weight(c: seq<Candidate>): nat { if c == [] then 0 else c[|c| - 1].end }

  method AddCandidate(c: seq<Candidate>, o: Origin) returns (next: seq<Candidate>)
    requires Compiled(c) && o.weight > 0
    ensures Compiled(next) && Origins(next) == Origins(c) + [o]
  {
    var total := if c == [] then 0 else c[|c| - 1].end;
    next := c + [Candidate(o, total + o.weight)];
    assert next[..|next| - 1] == c;
    forall i | 0 <= i < |next| ensures AddsUp(next, i) { if i < |c| { assert AddsUp(c, i); } }
  }

  method BuildPlan(origins: seq<Origin>, group: string, ids: seq<string>) returns (primaries: seq<Candidate>, backups: seq<Candidate>)
    ensures CompiledFor(primaries, origins, ROLES[0], group, ids)
    ensures CompiledFor(backups, origins, ROLES[1], group, ids)
  {
    primaries, backups := [], [];
    var i := 0;
    while i < |origins|
      invariant 0 <= i <= |origins|
      invariant CompiledFor(primaries, origins[..i], ROLES[0], group, ids)
      invariant CompiledFor(backups, origins[..i], ROLES[1], group, ids)
    {
      var o := origins[i];
      assert origins[..i + 1][..i] == origins[..i];
      i := i + 1;
      if !o.enabled || o.weight == 0 { continue; }
      if o.role != "primary" && o.role != "backup" { continue; }
      var selected := if ids == [] then GroupName(o.group) == GroupName(group) else o.id in ids;
      if !selected { continue; }
      if o.role == "primary" {
        primaries := AddCandidate(primaries, o);
      } else {
        backups := AddCandidate(backups, o);
      }
    }
    assert origins[..i] == origins;
  }

  /** Which origins a role of a plan holds: the enabled ones of that role that have a weight and belong to
      the group asked for, where no name means "default", or are among the identifiers asked for. */
  lemma {:induction false} PlanHoldsExactly(origins: seq<Origin>, role: string, group: string, ids: seq<string>, o: Origin)
    ensures o in ChosenOnes(origins, role, group, ids) <==>
            && o in origins && o.enabled && o.weight != 0 && o.role == role
            && (ids != [] ==> o.id in ids)
            && (ids == [] ==> o.group == group || (o.group in {"", "default"} && group in {"", "default"}))
  {
    if origins != [] {
      PlanHoldsExactly(origins[..|origins| - 1], role, group, ids, o);
      assert origins == origins[..|origins| - 1] + [origins[|origins| - 1]];
    }
  }

  // ---------------------------------------------------------------------------
  // The pivot
  // ---------------------------------------------------------------------------

  lemma {:induction false} EndsGrow(c: seq<Candidate>, i: nat, j: nat)
    requires Compiled(c) && i <= j < |c|
    ensures c[i].end <= c[j].end && c[i].origin.weight <= c[i].end
    decreases j - i
  {
    assert AddsUp(c, i) && AddsUp(c, j);
    if i < j { EndsGrow(c, i, j - 1); }
  }

  /** upper_bound: the first candidate whose end lies beyond the selected weight. */
  method PivotOf(c: seq<Candidate>, selected: nat) returns (pivot: nat)
    requires Compiled(c) && selected < Weight(c)
    ensures pivot < |c| && Begin(c, pivot) <= selected < c[pivot].end
  {
    pivot := 0;
    while c[pivot].end <= selected
      invariant pivot < |c| && Begin(c, pivot) <= selected
      decreases |c| - pivot
    {
      pivot := pivot + 1;
    }
  }

  /** Candidate `i` is the pivot of a sequence number. */
  predicate IsPivot(c: seq<Candidate>, sequence: nat, i: nat)
    requires Compiled(c) && i < |c| && Weight(c) > 0
  {
    Begin(c, i) <= sequence % Weight(c) < c[i].end
  }

  lemma PivotIsUnique(c: seq<Candidate>, sequence: nat, i: nat, j: nat)
    requires Compiled(c) && i < |c| && j < |c| && Weight(c) > 0
    requires IsPivot(c, sequence, i) && IsPivot(c, sequence, j)
    ensures i == j
  {
    if i < j { EndsGrow(c, i, j - 1); }
    if j < i { EndsGrow(c, j, i - 1); }
  }

  /** How many of the `n` sequence numbers from `start` on have a remainder in a .. b. */
  function Hits(start: nat, n: nat, modulus: nat, a: nat, b: nat): (h: nat)
    requires modulus > 0
  {
    if n == 0 then 0 else Hits(start, n - 1, modulus, a, b) + if a <= (start + n - 1) % modulus < b then 1 else 0
  }

  lemma {:induction false} HitsFromNext(start: nat, n: nat, modulus: nat, a: nat, b: nat)
    requires modulus > 0
    ensures Hits(start, n + 1, modulus, a, b) == (if a <= start % modulus < b then 1 else 0) + Hits(start + 1, n, modulus, a, b)
  {
    if n > 0 { HitsFromNext(start, n - 1, modulus, a, b); }
  }

  lemma {:induction false} AddModulus(x: nat, modulus: nat)
    requires modulus > 0
    ensures (x + modulus) % modulus == x % modulus
  {
    var q, r := x / modulus, x % modulus;
    assert x == q * modulus + r;
    assert x + modulus == (q + 1) * modulus + r;
    QuotientIsUnique(x + modulus, modulus, q + 1, r);
  }

  lemma QuotientIsUnique(x: nat, modulus: nat, q: nat, r: nat)
    requires modulus > 0 && r < modulus && x == q * modulus + r
    ensures x % modulus == r
  {
    var p, s := x / modulus, x % modulus;
    assert x == p * modulus + s;
    assert p < q ==> (p + 1) * modulus <= q * modulus;
    assert q < p ==> (q + 1) * modulus <= p * modulus;
  }

  lemma {:induction false} AnyPeriodHitsAlike(start: nat, modulus: nat, a: nat, b: nat)
    requires modulus > 0
    ensures Hits(start, modulus, modulus, a, b) == Hits(0, modulus, modulus, a, b)
  {
    if start > 0 {
      AnyPeriodHitsAlike(start - 1, modulus, a, b);
      HitsFromNext(start - 1, modulus, modulus, a, b);
      AddModulus(start - 1, modulus);
    }
  }

  lemma {:induction false} FirstPeriodHits(n: nat, modulus: nat, a: nat, b: nat)
    requires modulus > 0 && n <= modulus && a <= b <= modulus
    ensures Hits(0, n, modulus, a, b) == Max(0, Min(n, b) - a)
  {
    if n > 0 {
      FirstPeriodHits(n - 1, modulus, a, b);
      QuotientIsUnique(n - 1, modulus, 0, n - 1);
    }
  }

  /** How often candidate `i` is the pivot among `n` consecutive sequence numbers. */
  function PivotCount(c: seq<Candidate>, start: nat, n: nat, i: nat): (h: nat)
    requires Compiled(c) && i < |c| && Weight(c) > 0
  {
    if n == 0 then 0 else PivotCount(c, start, n - 1, i) + if IsPivot(c, start + n - 1, i) then 1 else 0
  }

  lemma {:induction false} PivotCountIsHits(c: seq<Candidate>, start: nat, n: nat, i: nat)
    requires Compiled(c) && i < |c| && Weight(c) > 0
    ensures PivotCount(c, start, n, i) == Hits(start, n, Weight(c), Begin(c, i), c[i].end)
  {
    if n > 0 { PivotCountIsHits(c, start, n - 1, i); }
  }

  /** Fairness: over any full period each origin comes first exactly as often as its weight says. */
  lemma EachOriginLeadsItsWeight(c: seq<Candidate>, start: nat, i: nat)
    requires Compiled(c) && i < |c|
    ensures Weight(c) > 0 && PivotCount(c, start, Weight(c), i) == c[i].origin.weight
  {
    EndsGrow(c, i, |c| - 1);
    assert AddsUp(c, i);
    PivotCountIsHits(c, start, Weight(c), i);
    AnyPeriodHitsAlike(start, Weight(c), Begin(c, i), c[i].end);
    FirstPeriodHits(Weight(c), Weight(c), Begin(c, i), c[i].end);
  }
}
