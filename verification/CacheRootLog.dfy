/** The shared cache under compare-and-swap is a run of atomic operations (node/data/response_cache.h). */
module CacheRootLog {
  // The published object is the root together with the history that CacheRuns keeps beside it. A
  // worker loads the root at the start of an operation, so it knows the tickets it was handed before.

  import opened Wrappers
  import opened CacheRoot
  import opened CacheRuns
  import opened CachePublication

  /** What one operation of the cache computes from the object a worker loaded. */
  ghost predicate Operates(c: Cache, n: Cache) {
    exists e: Event :: CacheRoot.Enabled(c, e) && CacheRoot.Apply(c, e) == n
  }

  ghost predicate Reaches(c: Cache, n: Cache) {
    exists events: seq<Event> :: CacheRoot.IsRun(c, events) && CacheRoot.Exec(c, events) == n
  }

  lemma {:induction false} RunThen(c: Cache, events: seq<Event>, e: Event)
    requires CacheRoot.IsRun(c, events) && CacheRoot.Enabled(CacheRoot.Exec(c, events), e)
    ensures CacheRoot.IsRun(c, events + [e]) && CacheRoot.Exec(c, events + [e]) == CacheRoot.Apply(CacheRoot.Exec(c, events), e)
    decreases |events|
  {
    if events == [] {
      assert [e][1..] == [];
    } else {
      RunThen(CacheRoot.Apply(c, events[0]), events[1..], e);
      assert (events + [e])[1..] == events[1..] + [e];
    }
  }

  lemma ReachesOn(c: Cache, m: Cache, n: Cache)
    requires Reaches(c, m) && Operates(m, n)
    ensures Reaches(c, n)
  {
    var events: seq<Event> :| CacheRoot.IsRun(c, events) && CacheRoot.Exec(c, events) == m;
    var e: Event :| CacheRoot.Enabled(m, e) && CacheRoot.Apply(m, e) == n;
    RunThen(c, events, e);
  }

  lemma ReachesItself(c: Cache)
    ensures Reaches(c, c)
  {
    assert CacheRoot.IsRun(c, []) && CacheRoot.Exec(c, []) == c;
  }

  function Published(start: Cache, steps: seq<Step<Cache>>): (log: seq<Cache>) {
    CachePublication.Exec(Shared([start], map[]), steps).log
  }

  ghost predicate Swaps(start: Cache, steps: seq<Step<Cache>>) {
    CachePublication.IsRun(Shared([start], map[]), steps, Operates)
  }

  /** Workers that load, change a copy and compare-and-swap it, in any interleaving and with any
      failed exchanges, publish the states of one sequential run of the cache's operations. */
  lemma SwapsAreRuns(start: Cache, steps: seq<Step<Cache>>, i: nat, j: nat)
    requires Swaps(start, steps)
    ensures var log := Published(start, steps);
            log != [] && log[0] == start && (i <= j < |log| ==> Reaches(log[i], log[j]))
  {
    PublicationIsAtomic(Shared([start], map[]), steps, Operates);
    var log := Published(start, steps);
    assert log[0] == [start][0];
    if i <= j < |log| {
      forall a, b, c | Reaches(a, b) && Operates(b, c) ensures Reaches(a, c) { ReachesOn(a, b, c); }
      ReachesItself(log[i]);
      ChainCarries(log, i, j, Operates, Reaches);
    }
  }

  /** A published state and the run that leads from it to a later published state. */
  lemma RunBetween(start: Cache, steps: seq<Step<Cache>>, i: nat, j: nat) returns (events: seq<Event>)
    requires CacheRuns.Inv(start) && Swaps(start, steps) && i <= j < |Published(start, steps)|
    ensures var log := Published(start, steps);
            CacheRuns.Inv(log[i]) && CacheRoot.IsRun(log[i], events) && CacheRoot.Exec(log[i], events) == log[j]
  {
    var log := Published(start, steps);
    SwapsAreRuns(start, steps, 0, i);
    SwapsAreRuns(start, steps, i, j);
    var before: seq<Event> :| CacheRoot.IsRun(start, before) && CacheRoot.Exec(start, before) == log[i];
    RunKeeps(start, before);
    events :| CacheRoot.IsRun(log[i], events) && CacheRoot.Exec(log[i], events) == log[j];
  }

  /** Every published root is well formed; between two of them no epoch falls and no identity that
      had left the earlier one is back in the later one. */
  lemma PublishedRootsAreSound(start: Cache, steps: seq<Step<Cache>>, i: nat, j: nat, id: nat, k: EpochKey)
    requires CacheRuns.Inv(start) && Swaps(start, steps)
    ensures var log := Published(start, steps);
            i <= j < |log| ==>
              && EntriesOk(log[j].root) && Unique(log[j].root.entries)
              && log[i].root.Epoch(k) <= log[j].root.Epoch(k)
              && (id <= log[i].root.sequence && id !in Ids(log[i].root) ==> id !in Ids(log[j].root))
  {
    var log := Published(start, steps);
    if i <= j < |log| {
      var events := RunBetween(start, steps, i, j);
      RunKeeps(log[i], events);
      EpochsGrow(log[i], events, k);
      if id <= log[i].root.sequence && id !in Ids(log[i].root) { NoResurrection(log[i], events, id); }
    }
  }

  /** No claim is handed out twice and none publishes twice, whatever the interleaving. */
  lemma SharedClaimsPublishOnce(start: Cache, steps: seq<Step<Cache>>, j: nat)
    requires Start(start) && Swaps(start, steps)
    ensures var log := Published(start, steps);
            j < |log| ==>
              && (forall p, q :: p in log[j].tickets && q in log[j].tickets && p.0.claim == q.0.claim ==> p == q)
              && (forall a, b :: 0 <= a < b < |log[j].published| ==> log[j].published[a] != log[j].published[b])
  {
    var log := Published(start, steps);
    if j < |log| {
      SwapsAreRuns(start, steps, 0, 0);
      var events := RunBetween(start, steps, 0, j);
      ClaimsPublishAtMostOnce(start, events);
    }
  }

  /** A claim that is in no entry of the claim map of one published root is in none of a later one:
      its ticket can neither publish, renew nor release anything there. */
  lemma SharedClaimsStayLost(start: Cache, steps: seq<Step<Cache>>, i: nat, j: nat, t: Ticket, now: int)
    requires CacheRuns.Inv(start) && Swaps(start, steps)
    ensures var log := Published(start, steps);
            i <= j < |log| && t.claim <= log[i].root.sequence && !Claimed(log[i].root, t.claim) ==>
              && !Claimed(log[j].root, t.claim) && !MayPublish(log[j].root, t)
              && Abandon(log[j].root, t) == log[j].root && Renew(log[j].root, t, now) == log[j].root
  {
    var log := Published(start, steps);
    if i <= j < |log| && t.claim <= log[i].root.sequence && !Claimed(log[i].root, t.claim) {
      var events := RunBetween(start, steps, i, j);
      LostClaimsStayLost(log[i], events, t);
    }
  }

  /** The epoch fence across the swaps: once an invalidation covering a ticket is published, no later
      published root lets that ticket publish. */
  lemma SharedInvalidationFences(start: Cache, steps: seq<Step<Cache>>, i: nat, j: nat, command: Command, now: int, p: (Ticket, Option<Entry>))
    requires CacheRuns.Inv(start) && Swaps(start, steps)
    requires if command.clean then p.0.key.policy == command.policy else p.0.key.website in command.websites
    ensures var log := Published(start, steps);
            i + 1 <= j < |log| && p in log[i].tickets && log[i + 1] == CacheRoot.Apply(log[i], Invalidated(command, now)) ==>
              !MayPublish(log[j].root, p.0)
  {
    var log := Published(start, steps);
    if i + 1 <= j < |log| && p in log[i].tickets && log[i + 1] == CacheRoot.Apply(log[i], Invalidated(command, now)) {
      var at := RunBetween(start, steps, i, i);
      var events := RunBetween(start, steps, i + 1, j);
      InvalidationFencesTickets(log[i], command, now, events, p);
    }
  }
}
