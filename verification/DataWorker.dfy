/** The worker half of the two-phase configuration reload (node/data/data_worker.h). */
module DataWorker {
  // A worker holds one runtime and at most one reload participant. Before the vote the
  // participant holds the candidate; after the vote the same slots hold the displaced runtime.
  // The value functions below specify the methods of module DataWorkerProcess.

  import opened Wrappers

  /** The parts of a compiled configuration that the protocol looks at. Each identity
      stands for the immutable object the source shares by pointer. */
  datatype Config = Config(
    specRevision: nat, specDigest: string,
    releaseGeneration: nat, releaseId: string, releaseDigest: string,
    enabled: bool, hasCertificates: bool, endpoints: seq<Endpoint>)

  datatype Endpoint = Endpoint(v6: bool, httpPort: nat, httpsPort: nat)

  datatype ListenerKey = ListenerKey(secure: bool, v6: bool, port: nat)

  type ListenerId = nat

  /** Health membership: origin key to the identity of its health entry. */
  type Health = map<string, nat>

  datatype Runtime = Runtime(
    execution: Option<Config>, tls: Option<Config>, health: Health,
    listeners: map<ListenerKey, ListenerId>)

  datatype Resources =
    | Retained
    | Replacement(tls: Option<Config>, health: Health, listeners: map<ListenerKey, ListenerId>,
                  additions: set<ListenerId>, retired: set<ListenerId>)

  datatype Phase = Prepared | Tentative

  datatype Participant = Participant(sequence: nat, execution: Option<Config>, resources: Resources, phase: Phase)

  /** `stopped` collects the listeners that have been asked to stop; the identities below `created`
      are those of the listeners ever owned. */
  datatype Worker = Worker(
    runtime: Runtime, reload: Option<Participant>, settled: nat, stopping: bool,
    stopped: set<ListenerId>, created: nat)

  const FRESH_WORKER := Worker(Runtime(None, None, map[], map[]), None, 0, false, {}, 0)

  datatype Operation =
    | Prepare(config: Option<Config>) | Activate | Finalize | Rollback | Discard
    | Report | Drain | StopAccepting | RetiredNotice | CacheCommand | CcDispositions

  datatype Request = Request(op: Operation, sequence: nat, committed: nat)

  /** What the worker's surroundings decide while one request runs: whether its deadline has
      passed at each check, whether building resources throws, and the new health entries. */
  datatype Surroundings = Surroundings(expiredBefore: bool, buildFails: bool, expiredAfter: bool, health: Health)

  // ---------------------------------------------------------------------------
  // Value functions
  // ---------------------------------------------------------------------------

  predicate AcceptsNext(current: Option<Config>, next: Config) {
    current.None? ||
    (&& current.value.specRevision <= next.specRevision
     && (current.value.specRevision == next.specRevision ==> current.value.specDigest == next.specDigest)
     && current.value.releaseGeneration <= next.releaseGeneration
     && (current.value.releaseGeneration == next.releaseGeneration ==>
           current.value.releaseId == next.releaseId && current.value.releaseDigest == next.releaseDigest))
  }

  predicate Unchanged(current: Option<Config>, next: Config) {
    current.Some? && current.value.specDigest == next.specDigest && current.value.releaseDigest == next.releaseDigest
  }

  /** Dropping a participant stops its additions only while it is still prepared. */
  function Drop(w: Worker): (r: Worker)
  {
    if w.reload.Some? && w.reload.value.phase.Prepared? && w.reload.value.resources.Replacement?
    then w.(reload := None, stopped := w.stopped + w.reload.value.resources.additions)
    else w.(reload := None)
  }

  /** Swaps the runtime with the participant's slots. */
  function Exchange(runtime: Runtime, p: Participant): (r: (Runtime, Participant)) {
    match p.resources
    case Retained =>
      (runtime.(execution := p.execution), p.(execution := runtime.execution))
    case Replacement(tls, health, listeners, additions, retired) =>
      (Runtime(p.execution, tls, health, listeners),
       p.(execution := runtime.execution,
          resources := Replacement(runtime.tls, runtime.health, runtime.listeners, additions, retired)))
  }

  /** The listener set under construction: the next map, the additions and the next identity. */
  datatype Listening = Listening(listeners: map<ListenerKey, ListenerId>, additions: set<ListenerId>, created: nat)

  function AddListener(current: map<ListenerKey, ListenerId>, l: Listening, key: ListenerKey): (r: Listening) {
    if key in l.listeners then l
    else if key in current then l.(listeners := l.listeners[key := current[key]])
    else Listening(l.listeners[key := l.created], l.additions + {l.created}, l.created + 1)
  }

  function AddEndpoint(current: map<ListenerKey, ListenerId>, l: Listening, config: Config, e: Endpoint): (r: Listening) {
    var plain := AddListener(current, l, ListenerKey(false, e.v6, e.httpPort));
    if config.hasCertificates then AddListener(current, plain, ListenerKey(true, e.v6, e.httpsPort)) else plain
  }

  function AddEndpoints(current: map<ListenerKey, ListenerId>, l: Listening, config: Config, n: nat): (r: Listening)
    requires n <= |config.endpoints|
  {
    if n == 0 then l
    else AddEndpoint(current, AddEndpoints(current, l, config, n - 1), config, config.endpoints[n - 1])
  }

  function Listeners(w: Worker, config: Config): (r: Listening) {
    var start := Listening(map[], {}, w.created);
    if config.enabled then AddEndpoints(w.runtime.listeners, start, config, |config.endpoints|) else start
  }

  /** Listeners of the active map whose key the replacement map does not hold. */
  function RetiredBy(current: map<ListenerKey, ListenerId>, next: map<ListenerKey, ListenerId>): set<ListenerId> {
    set k | k in current && k !in next :: current[k]
  }

  predicate Current(w: Worker, sequence: nat, expired: bool) { w.settled < sequence && !expired }

  /** prepare: the result and whether it succeeded. A refused prepare may still have dropped an
      abandoned earlier participant, but the runtime is as before. */
  function PrepareOn(w: Worker, sequence: nat, config: Option<Config>, around: Surroundings): (r: (Worker, bool)) {
    if w.stopping || !Current(w, sequence, around.expiredBefore) then (w, false)
    else if w.reload.Some? && w.reload.value.phase.Tentative? then (w, false)
    else if config.None? then (w, false)
    else if w.reload.Some? && sequence <= w.reload.value.sequence then (w, false)
    else
      var d := Drop(w);
      var active := w.runtime.execution;
      if !AcceptsNext(active, config.value) then (d, false)
      else if Unchanged(active, config.value) then
        if around.expiredAfter then (d, false)
        else (d.(reload := Some(Participant(sequence, config, Retained, Prepared))), true)
      else if around.buildFails then (d, false)
      else
        var l := Listeners(d, config.value);
        var p := Participant(sequence, config,
                             Replacement(config, around.health, l.listeners, l.additions,
                                         RetiredBy(w.runtime.listeners, l.listeners)), Prepared);
        var ready := d.(reload := Some(p), created := l.created);
        if around.expiredAfter then (Drop(ready), false) else (ready, true)
  }

  function ActivateOn(w: Worker, sequence: nat): (r: (Worker, bool)) {
    if w.reload.None? || w.reload.value.sequence != sequence || w.reload.value.phase.Tentative? then (w, false)
    else
      var (runtime, p) := Exchange(w.runtime, w.reload.value);
      (w.(runtime := runtime, reload := Some(p.(phase := Tentative))), true)
  }

  function FinalizeOn(w: Worker, sequence: nat): (r: Worker) {
    if w.reload.Some? && w.reload.value.sequence == sequence && w.reload.value.phase.Tentative? then
      w.(reload := None, settled := Max(w.settled, sequence),
         stopped := if w.reload.value.resources.Replacement? then w.stopped + w.reload.value.resources.retired else w.stopped)
    else w
  }

  function RollbackOn(w: Worker, sequence: nat): (r: Worker) {
    if sequence <= w.settled then w
    else
      var s := w.(settled := sequence);
      if w.reload.None? || w.reload.value.sequence != sequence then s
      else if w.reload.value.phase.Prepared? then Drop(s)
      else
        var (runtime, p) := Exchange(w.runtime, w.reload.value);
        s.(runtime := runtime, reload := None,
           stopped := if p.resources.Replacement? then w.stopped + p.resources.additions else w.stopped)
  }

  /** The commit decision carried by every request settles an older tentative reload first. */
  function Settle(w: Worker, committed: nat): (r: Worker) {
    if w.reload.Some? && w.reload.value.phase.Tentative? && w.reload.value.sequence <= committed
    then FinalizeOn(w, w.reload.value.sequence)
    else w
  }

  /** Every identity below `n`. */
  function Below(n: nat): (ids: set<ListenerId>)
    ensures forall id: nat :: id in ids <==> id < n
  {
    if n == 0 then {} else Below(n - 1) + {n - 1}
  }

  /** Admission stops: a prepared reload is dropped and every owned listener is asked to stop, but
      a tentative reload stays for its decision. */
  function StopAcceptingOn(w: Worker): (r: Worker) {
    var d := if w.reload.Some? && w.reload.value.phase.Prepared? then Drop(w) else w;
    d.(stopping := true, runtime := d.runtime.(listeners := map[]), stopped := d.stopped + Below(d.created))
  }

  /** One turn of the request loop: the new worker state and the reply's verdict, if it replies. */
  function Handle(w: Worker, request: Request, around: Surroundings): (r: (Worker, Option<bool>)) {
    var s := Settle(w, request.committed);
    match request.op
    case Prepare(config) => var (n, ok) := PrepareOn(s, request.sequence, config, around); (n, Some(ok))
    case Activate =>
      if s.stopping || !Current(s, request.sequence, around.expiredBefore) then (s, Some(false))
      else var (n, ok) := ActivateOn(s, request.sequence); (n, Some(ok))
    case Finalize => (FinalizeOn(s, request.sequence), None)
    case Rollback => (RollbackOn(s, request.sequence), Some(true))
    case Discard => (RollbackOn(s, request.sequence), None)
    case Report => (s, Some(true))
    case Drain => (s, None)
    case StopAccepting => (StopAcceptingOn(s), None)
    case RetiredNotice => (s, Some(false))
    case CacheCommand => (s, None)
    case CcDispositions => (s, None)
  }

  // ---------------------------------------------------------------------------
  // Exchange, rollback and the settled sequence
  // ---------------------------------------------------------------------------

  /** Exchanging twice restores the runtime and the participant exactly. */
  lemma ExchangeIsInvolution(runtime: Runtime, p: Participant)
    ensures var (r1, p1) := Exchange(runtime, p);
            Exchange(r1, p1) == (runtime, p)
  {
  }

  /** The runtime this worker returns to if its current reload is rolled back. */
  function Baseline(w: Worker): (r: Runtime) {
    if w.reload.Some? && w.reload.value.phase.Tentative? then Exchange(w.runtime, w.reload.value).0 else w.runtime
  }

  /** A request that carries no decision for any sequence from `first` on, and does not stop the worker. */
  predicate Undecided(request: Request, first: nat) {
    && request.committed < first
    && !request.op.StopAccepting?
    && (request.op.Finalize? ==> request.sequence < first)
    && (request.op.Prepare? ==> first <= request.sequence)
  }

  predicate OpenedFrom(w: Worker, first: nat) { w.reload.Some? ==> first <= w.reload.value.sequence }

  lemma UndecidedKeepsBaseline(w: Worker, request: Request, around: Surroundings, first: nat)
    requires Undecided(request, first) && OpenedFrom(w, first)
    ensures Baseline(Handle(w, request, around).0) == Baseline(w)
    ensures OpenedFrom(Handle(w, request, around).0, first)
  {
    if w.reload.Some? { ExchangeIsInvolution(w.runtime, w.reload.value); }
  }

  function HandleAll(w: Worker, requests: seq<(Request, Surroundings)>): (r: Worker)
    decreases |requests|
  {
    if requests == [] then w
    else HandleAll(Handle(w, requests[0].0, requests[0].1).0, requests[1..])
  }

  /** Failed prepares, failed activations, rollbacks and discards in any order and number leave
      no trace: whenever the worker ends without a tentative reload, its TLS set, health
      membership, listener map and execution are exactly those it started with. */
  lemma {:induction false} AbortedReloadsRestoreRuntime(w: Worker, requests: seq<(Request, Surroundings)>, first: nat)
    requires forall r :: r in requests ==> Undecided(r.0, first)
    requires OpenedFrom(w, first)
    ensures Baseline(HandleAll(w, requests)) == Baseline(w)
    ensures var e := HandleAll(w, requests);
            e.reload.None? || e.reload.value.phase.Prepared? ==> e.runtime == Baseline(w)
    decreases |requests|
  {
    if requests != [] {
      assert requests[0] in requests;
      UndecidedKeepsBaseline(w, requests[0].0, requests[0].1, first);
      AbortedReloadsRestoreRuntime(Handle(w, requests[0].0, requests[0].1).0, requests[1..], first);
    }
  }

  /** What became of the reloads: settled ones stay settled, and none of them is open again. */
  predicate StaysClosed(w: Worker, e: Worker) {
    && w.settled <= e.settled
    && (e.reload.Some? ==>
          || w.settled < e.reload.value.sequence
          || (w.reload.Some? && w.reload.value.sequence == e.reload.value.sequence))
  }

  lemma HandleStaysClosed(w: Worker, request: Request, around: Surroundings)
    ensures StaysClosed(w, Handle(w, request, around).0)
  {
  }

  /** Over any requests, a sequence that was settled at the start is never opened again. */
  lemma {:induction false} SettledSequencesStayClosed(w: Worker, requests: seq<(Request, Surroundings)>)
    ensures StaysClosed(w, HandleAll(w, requests))
    decreases |requests|
  {
    if requests != [] {
      HandleStaysClosed(w, requests[0].0, requests[0].1);
      SettledSequencesStayClosed(Handle(w, requests[0].0, requests[0].1).0, requests[1..]);
    }
  }

  // ---------------------------------------------------------------------------
  // Only the end of admission stops a listener that is serving
  // ---------------------------------------------------------------------------

  predicate Injective(m: map<ListenerKey, ListenerId>) {
    forall j, k :: j in m && k in m && m[j] == m[k] ==> j == k
  }

  predicate Serving(m: map<ListenerKey, ListenerId>, w: Worker) {
    && Injective(m)
    && forall k :: k in m ==> m[k] < w.created && (m[k] in w.stopped <==> w.stopping)
  }

  predicate Disjoint(m: map<ListenerKey, ListenerId>, ids: set<ListenerId>) {
    forall k :: k in m ==> m[k] !in ids
  }

  /** The active map and, during a reload, the other map hold distinct listeners, none of which was
      asked to stop before admission ended; what finalize would stop is not active and what rollback
      would stop is not in the displaced map. Once admission has ended every listener was asked. */
  predicate Sound(w: Worker) {
    && Serving(w.runtime.listeners, w)
    && (forall id :: id in w.stopped ==> id < w.created)
    && (w.stopping ==> forall id: nat :: id < w.created ==> id in w.stopped)
    && (w.reload.Some? && w.reload.value.resources.Replacement? ==>
          var r := w.reload.value.resources;
          && Serving(r.listeners, w)
          && (forall id :: id in r.additions ==> id < w.created)
          && (forall id :: id in r.retired ==> id < w.created)
          && if w.reload.value.phase.Prepared?
             then Disjoint(w.runtime.listeners, r.additions) && Disjoint(r.listeners, r.retired)
             else Disjoint(r.listeners, r.additions) && Disjoint(w.runtime.listeners, r.retired))
  }

  /** Invariant of building the replacement map: every listener is kept under its own key or fresh. */
  predicate Built(w: Worker, l: Listening) {
    && w.created <= l.created
    && (forall k :: k in l.listeners ==>
          l.listeners[k] < l.created &&
          if k in w.runtime.listeners then l.listeners[k] == w.runtime.listeners[k] else w.created <= l.listeners[k])
    && Injective(l.listeners)
    && (forall id :: id in l.additions ==> w.created <= id < l.created)
  }

  lemma AddListenerBuilt(w: Worker, l: Listening, key: ListenerKey)
    requires Sound(w) && Built(w, l)
    ensures Built(w, AddListener(w.runtime.listeners, l, key))
  {
    var current := w.runtime.listeners;
    if key !in l.listeners {
      var id := if key in current then current[key] else l.created;
      forall k | k in l.listeners ensures l.listeners[k] != id { assert k in current ==> l.listeners[k] == current[k]; }
      InjectiveAdd(l.listeners, key, id);
    }
  }

  lemma InjectiveAdd(m: map<ListenerKey, ListenerId>, key: ListenerKey, id: ListenerId)
    requires Injective(m) && key !in m && forall k :: k in m ==> m[k] != id
    ensures Injective(m[key := id])
  {
  }

  lemma {:induction false} AddEndpointsBuilt(w: Worker, l: Listening, config: Config, n: nat)
    requires Sound(w) && Built(w, l) && n <= |config.endpoints|
    ensures Built(w, AddEndpoints(w.runtime.listeners, l, config, n))
  {
    if n > 0 {
      AddEndpointsBuilt(w, l, config, n - 1);
      var before := AddEndpoints(w.runtime.listeners, l, config, n - 1);
      var e := config.endpoints[n - 1];
      AddListenerBuilt(w, before, ListenerKey(false, e.v6, e.httpPort));
      AddListenerBuilt(w, AddListener(w.runtime.listeners, before, ListenerKey(false, e.v6, e.httpPort)),
                       ListenerKey(true, e.v6, e.httpsPort));
    }
  }

  lemma DropKeepsServing(w: Worker)
    requires Sound(w)
    ensures Sound(Drop(w)) && Drop(w).runtime == w.runtime && Drop(w).created == w.created
  {
  }

  /** Installing a built replacement as the prepared participant. */
  lemma InstallKeepsServing(d: Worker, l: Listening, p: Participant)
    requires Sound(d) && d.reload.None? && !d.stopping && Built(d, l)
    requires p.phase.Prepared? && p.resources.Replacement?
    requires p.resources.listeners == l.listeners && p.resources.additions == l.additions
    requires p.resources.retired == RetiredBy(d.runtime.listeners, l.listeners)
    ensures Sound(d.(reload := Some(p), created := l.created))
  {
    var w := d.(reload := Some(p), created := l.created);
    var active := d.runtime.listeners;
    assert Serving(l.listeners, w);
    assert Disjoint(l.listeners, p.resources.retired);
    assert Disjoint(active, l.additions);
  }

  lemma PrepareKeepsServing(w: Worker, sequence: nat, config: Option<Config>, around: Surroundings)
    requires Sound(w)
    ensures Sound(PrepareOn(w, sequence, config, around).0)
  {
    var d := Drop(w);
    DropKeepsServing(w);
    if config.Some? && !w.stopping {
      var l := Listeners(d, config.value);
      if config.value.enabled {
        AddEndpointsBuilt(d, Listening(map[], {}, d.created), config.value, |config.value.endpoints|);
      }
      assert Built(d, l);
      var p := Participant(sequence, config,
                           Replacement(config, around.health, l.listeners, l.additions,
                                       RetiredBy(d.runtime.listeners, l.listeners)), Prepared);
      InstallKeepsServing(d, l, p);
      DropKeepsServing(d.(reload := Some(p), created := l.created));
    }
  }

  lemma FinalizeKeepsServing(w: Worker, sequence: nat)
    requires Sound(w)
    ensures Sound(FinalizeOn(w, sequence))
  {
  }

  lemma ActivateKeepsServing(w: Worker, sequence: nat)
    requires Sound(w)
    ensures Sound(ActivateOn(w, sequence).0)
  {
  }

  lemma RollbackKeepsServing(w: Worker, sequence: nat)
    requires Sound(w)
    ensures Sound(RollbackOn(w, sequence))
  {
    DropKeepsServing(w);
  }

  lemma StopKeepsServing(w: Worker)
    requires Sound(w)
    ensures Sound(StopAcceptingOn(w))
  {
    DropKeepsServing(w);
  }

  /** Every request keeps the listener discipline: finalize stops only listeners that left the
      map, rollback and discard stop only the additions, and only StopAccepting stops the rest. */
  lemma HandleKeepsServing(w: Worker, request: Request, around: Surroundings)
    requires Sound(w)
    ensures Sound(Handle(w, request, around).0)
  {
    if w.reload.Some? { FinalizeKeepsServing(w, w.reload.value.sequence); }
    var s := Settle(w, request.committed);
    match request.op {
      case Prepare(config) => PrepareKeepsServing(s, request.sequence, config, around);
      case Activate => ActivateKeepsServing(s, request.sequence);
      case Finalize => FinalizeKeepsServing(s, request.sequence);
      case Rollback => RollbackKeepsServing(s, request.sequence);
      case Discard => RollbackKeepsServing(s, request.sequence);
      case StopAccepting => StopKeepsServing(s);
      case _ =>
    }
  }

  /** Over any requests: until admission stops no listener of the active map or of the other map of
      a reload has been asked to stop, and from then on every listener ever owned has been. */
  lemma {:induction false} RunKeepsServing(w: Worker, requests: seq<(Request, Surroundings)>)
    requires Sound(w)
    ensures Sound(HandleAll(w, requests))
    decreases |requests|
  {
    if requests != [] {
      HandleKeepsServing(w, requests[0].0, requests[0].1);
      RunKeepsServing(Handle(w, requests[0].0, requests[0].1).0, requests[1..]);
    }
  }

  // ---------------------------------------------------------------------------
  // What a prepare builds, an activate installs and a decision stops
  // ---------------------------------------------------------------------------

  /** The listeners a configuration asks for: each endpoint in clear text on its HTTP port, and over
      TLS on its HTTPS port when there are certificates. */
  ghost predicate Wanted(config: Config, k: ListenerKey) {
    && config.enabled
    && (exists e :: e in config.endpoints
          && (k == ListenerKey(false, e.v6, e.httpPort) || (config.hasCertificates && k == ListenerKey(true, e.v6, e.httpsPort))))
  }

  /** Of the first `n` endpoints. */
  ghost predicate WantedOf(config: Config, n: nat, k: ListenerKey)
    requires n <= |config.endpoints|
  {
    exists i :: 0 <= i < n &&
      var e := config.endpoints[i];
      k == ListenerKey(false, e.v6, e.httpPort) || (config.hasCertificates && k == ListenerKey(true, e.v6, e.httpsPort))
  }

  /** The additions are the identities under keys the active map does not hold. */
  predicate AddsNew(current: map<ListenerKey, ListenerId>, l: Listening) {
    l.additions == set k | k in l.listeners && k !in current :: l.listeners[k]
  }

  lemma AddListenerAdds(current: map<ListenerKey, ListenerId>, l: Listening, key: ListenerKey)
    requires AddsNew(current, l)
    ensures AddsNew(current, AddListener(current, l, key)) && AddListener(current, l, key).listeners.Keys == l.listeners.Keys + {key}
  {
    var r := AddListener(current, l, key);
    if key !in l.listeners && key !in current {
      forall id ensures id in r.additions <==> exists k :: k in r.listeners && k !in current && r.listeners[k] == id {
        if id == l.created { assert r.listeners[key] == id; }
        if id in l.additions {
          var k :| k in l.listeners && k !in current && l.listeners[k] == id;
          assert r.listeners[k] == id;
        }
      }
    }
  }

  lemma AddEndpointAdds(current: map<ListenerKey, ListenerId>, l: Listening, config: Config, e: Endpoint)
    requires AddsNew(current, l)
    ensures var r := AddEndpoint(current, l, config, e);
            && AddsNew(current, r)
            && r.listeners.Keys == l.listeners.Keys + {ListenerKey(false, e.v6, e.httpPort)}
                                   + (if config.hasCertificates then {ListenerKey(true, e.v6, e.httpsPort)} else {})
  {
    AddListenerAdds(current, l, ListenerKey(false, e.v6, e.httpPort));
    AddListenerAdds(current, AddListener(current, l, ListenerKey(false, e.v6, e.httpPort)), ListenerKey(true, e.v6, e.httpsPort));
  }

  lemma {:induction false} AddEndpointsWanted(current: map<ListenerKey, ListenerId>, start: Listening, config: Config, n: nat)
    requires n <= |config.endpoints| && start.listeners == map[] && start.additions == {}
    ensures var r := AddEndpoints(current, start, config, n);
            AddsNew(current, r) && forall k :: k in r.listeners <==> WantedOf(config, n, k)
  {
    if n > 0 {
      var before, e := AddEndpoints(current, start, config, n - 1), config.endpoints[n - 1];
      AddEndpointsWanted(current, start, config, n - 1);
      AddEndpointAdds(current, before, config, e);
      var r := AddEndpoints(current, start, config, n);
      forall k ensures k in r.listeners <==> WantedOf(config, n, k) {
        if WantedOf(config, n - 1, k) {
          var i :| 0 <= i < n - 1 && var e := config.endpoints[i];
            k == ListenerKey(false, e.v6, e.httpPort) || (config.hasCertificates && k == ListenerKey(true, e.v6, e.httpsPort));
        }
      }
    }
  }

  lemma ListenersAreWanted(w: Worker, config: Config)
    requires Sound(w)
    ensures var l := Listeners(w, config);
            AddsNew(w.runtime.listeners, l) && Built(w, l) && forall k :: k in l.listeners <==> Wanted(config, k)
  {
    var start := Listening(map[], {}, w.created);
    var n := |config.endpoints|;
    if config.enabled {
      AddEndpointsWanted(w.runtime.listeners, start, config, n);
      AddEndpointsBuilt(w, start, config, n);
      forall k ensures WantedOf(config, n, k) <==> Wanted(config, k) {
        if Wanted(config, k) {
          var e :| e in config.endpoints &&
            (k == ListenerKey(false, e.v6, e.httpPort) || (config.hasCertificates && k == ListenerKey(true, e.v6, e.httpsPort)));
          var i :| 0 <= i < n && config.endpoints[i] == e;
        }
      }
    }
  }

  /** `next` is a listener map for `config` beside the active one: its keys are the wanted ones, an
      active listener is kept under its key, and every other one is new and its own. */
  ghost predicate Serves(w: Worker, config: Config, next: map<ListenerKey, ListenerId>) {
    && (forall k :: k in next <==> Wanted(config, k))
    && (forall k :: k in next && k in w.runtime.listeners ==> next[k] == w.runtime.listeners[k])
    && (forall k :: k in next && k !in w.runtime.listeners ==> w.created <= next[k])
    && Injective(next)
  }

  /** The identities `next` adds, and those under active keys it gives up. */
  function NewIn(w: Worker, next: map<ListenerKey, ListenerId>): set<ListenerId> {
    set k | k in next && k !in w.runtime.listeners :: next[k]
  }

  ghost function LeftBy(w: Worker, config: Config): set<ListenerId> {
    set k | k in w.runtime.listeners && !Wanted(config, k) :: w.runtime.listeners[k]
  }

  /** Same specification and release as the active configuration. */
  predicate SameContent(w: Worker, config: Config) {
    && w.runtime.execution.Some? && w.runtime.execution.value.specDigest == config.specDigest
    && w.runtime.execution.value.releaseDigest == config.releaseDigest
  }

  /** A successful prepare leaves the runtime alone and holds the candidate's own configuration, TLS set,
      health and listeners; for unchanged content it holds the configuration only. */
  lemma PrepareHoldsCandidate(w: Worker, sequence: nat, config: Option<Config>, around: Surroundings)
    requires Sound(w) && PrepareOn(w, sequence, config, around).1
    ensures var n := PrepareOn(w, sequence, config, around).0;
            && config.Some? && n.runtime == w.runtime && n.settled == w.settled && n.reload.Some?
            && n.reload.value.sequence == sequence && n.reload.value.phase.Prepared? && n.reload.value.execution == config
            && (SameContent(w, config.value) ==> n.reload.value.resources.Retained? && n.created == w.created)
            && (!SameContent(w, config.value) ==>
                  var r := n.reload.value.resources;
                  && r.Replacement? && r.tls == config && r.health == around.health && Serves(w, config.value, r.listeners)
                  && r.additions == NewIn(w, r.listeners) && r.retired == LeftBy(w, config.value))
  {
    var d := Drop(w);
    DropKeepsServing(w);
    ListenersAreWanted(d, config.value);
    if !SameContent(w, config.value) {
      assert Serves(w, config.value, Listeners(d, config.value).listeners);
      assert RetiredBy(w.runtime.listeners, Listeners(d, config.value).listeners) == LeftBy(w, config.value);
    }
  }

  /** Activating it makes exactly that the runtime and stops nothing. */
  lemma ActivateInstallsCandidate(w: Worker, sequence: nat, config: Option<Config>, around: Surroundings)
    requires Sound(w) && PrepareOn(w, sequence, config, around).1
    ensures var n := PrepareOn(w, sequence, config, around).0;
            var (a, ok) := ActivateOn(n, sequence);
            && ok && a.stopped == n.stopped && a.runtime.execution == config
            && (SameContent(w, config.value) ==> a.runtime == w.runtime.(execution := config))
            && (!SameContent(w, config.value) ==>
                  a.runtime.tls == config && a.runtime.health == around.health && Serves(w, config.value, a.runtime.listeners))
  {
    PrepareHoldsCandidate(w, sequence, config, around);
  }

  /** The decision: a finalize keeps the candidate and stops exactly the active listeners it does not
      want; a rollback brings back the whole runtime and stops exactly the new ones, before the
      activate as well as after it. Either closes the sequence. */
  lemma DecisionStopsExactly(w: Worker, sequence: nat, config: Option<Config>, around: Surroundings)
    requires Sound(w) && PrepareOn(w, sequence, config, around).1
    ensures var n := PrepareOn(w, sequence, config, around).0;
            var a := ActivateOn(n, sequence).0;
            var f, b, c := FinalizeOn(a, sequence), RollbackOn(a, sequence), RollbackOn(n, sequence);
            && f.runtime == a.runtime && f.reload.None? && f.settled == sequence
            && b.runtime == w.runtime && b.reload.None? && b.settled == sequence
            && c.runtime == w.runtime && c.reload.None? && c.settled == sequence
            && (SameContent(w, config.value) ==> f.stopped == b.stopped == c.stopped == n.stopped)
            && (!SameContent(w, config.value) ==>
                  && f.stopped == n.stopped + LeftBy(w, config.value)
                  && b.stopped == c.stopped == n.stopped + NewIn(w, a.runtime.listeners))
  {
    PrepareHoldsCandidate(w, sequence, config, around);
  }

  /** An activation succeeds exactly on a worker that admits, for a sequence that is not settled, before
      its deadline, and that is the prepared one once the decision it carries is applied. A rollback
      always succeeds; a notice of retirement never does; the rest send no verdict of their own. */
  lemma RepliesExactly(w: Worker, request: Request, around: Surroundings)
    ensures var s, verdict := Settle(w, request.committed), Handle(w, request, around).1;
            match request.op
            case Prepare(config) => verdict == Some(PrepareOn(s, request.sequence, config, around).1)
            case Activate =>
              verdict == Some(!s.stopping && s.settled < request.sequence && !around.expiredBefore
                              && s.reload.Some? && s.reload.value.sequence == request.sequence && s.reload.value.phase.Prepared?)
            case Rollback => verdict == Some(true)
            case Report => verdict == Some(true)
            case RetiredNotice => verdict == Some(false)
            case _ => verdict.None?
    ensures request.op.Activate? && Handle(w, request, around).1 == Some(false) ==> Handle(w, request, around).0 == Settle(w, request.committed)
  {
  }

  /** The decision carried by a request closes exactly a tentative reload it covers: the candidate stays
      and what it retired is stopped; anything else is left alone. */
  lemma SettleClosesExactly(w: Worker, committed: nat)
    ensures var s := Settle(w, committed);
            if w.reload.Some? && w.reload.value.phase.Tentative? && w.reload.value.sequence <= committed
            then
              && s.runtime == w.runtime && s.reload.None? && w.reload.value.sequence <= s.settled && w.settled <= s.settled
              && s.stopped == w.stopped + (if w.reload.value.resources.Replacement? then w.reload.value.resources.retired else {})
              && s.stopping == w.stopping && s.created == w.created
            else s == w
  {
  }

  /** What the last requests of a sequence do. A rollback or a discard of a sequence that is not settled
      settles it and ends its participant, bringing back the displaced runtime if it was tentative, and
      leaves a participant of another sequence alone; of a settled sequence it does nothing. A finalize
      ends only the tentative participant of its own sequence. The requests outside a transaction do
      nothing beyond the decision they carry. */
  lemma EndsExactly(w: Worker, request: Request, around: Surroundings)
    ensures var s, n := Settle(w, request.committed), Handle(w, request, around).0;
            var mine := s.reload.Some? && s.reload.value.sequence == request.sequence;
            && (request.op.Rollback? || request.op.Discard? ==>
                  if request.sequence <= s.settled then n == s
                  else n.settled == request.sequence && n.reload == (if mine then None else s.reload)
                       && n.runtime == (if mine then Baseline(s) else s.runtime) && n.created == s.created && n.stopping == s.stopping)
            && (request.op.Finalize? ==>
                  if mine && s.reload.value.phase.Tentative?
                  then n.reload.None? && n.runtime == s.runtime && request.sequence <= n.settled && s.settled <= n.settled
                  else n == s)
            && (request.op.Report? || request.op.Drain? || request.op.CacheCommand? || request.op.CcDispositions? || request.op.RetiredNotice? ==> n == s)
            && (request.op.StopAccepting? ==>
                  && n.stopping && n.runtime == s.runtime.(listeners := map[]) && n.settled == s.settled && n.created == s.created
                  && n.reload == (if s.reload.Some? && s.reload.value.phase.Tentative? then s.reload else None)
                  && forall id: nat :: id < s.created ==> id in n.stopped)
  {
  }

  // ---------------------------------------------------------------------------
  // Which candidates are admitted, and in which order configurations follow
  // ---------------------------------------------------------------------------

  /** `b` is as new as `a` or newer in both of its parts, and a part of the same number is the same part. */
  predicate NotOlder(a: Config, b: Config) {
    && (a.specRevision < b.specRevision || (a.specRevision == b.specRevision && a.specDigest == b.specDigest))
    && (a.releaseGeneration < b.releaseGeneration
        || (a.releaseGeneration == b.releaseGeneration && a.releaseId == b.releaseId && a.releaseDigest == b.releaseDigest))
  }

  predicate Follows(a: Option<Config>, b: Option<Config>) { a.Some? ==> b.Some? && NotOlder(a.value, b.value) }

  /** A prepare succeeds exactly for a newer sequence, before its deadline both times, on a worker that
      admits, has no undecided tentative reload and no newer participant, with a configuration that is
      not older than the active one and resources that can be built when its content changed. */
  lemma PrepareSucceedsExactly(w: Worker, sequence: nat, config: Option<Config>, around: Surroundings)
    ensures PrepareOn(w, sequence, config, around).1 <==>
            && !w.stopping && w.settled < sequence && !around.expiredBefore && !around.expiredAfter
            && (w.reload.Some? ==> w.reload.value.phase.Prepared? && w.reload.value.sequence < sequence)
            && config.Some? && Follows(w.runtime.execution, config)
            && (around.buildFails ==> SameContent(w, config.value))
    ensures !PrepareOn(w, sequence, config, around).1 ==>
              PrepareOn(w, sequence, config, around).0.runtime == w.runtime && PrepareOn(w, sequence, config, around).0.settled == w.settled
  {
  }

  /** What is on both sides of a participant follows in order. */
  predicate InOrder(w: Worker) {
    w.reload.Some? ==>
      if w.reload.value.phase.Prepared? then Follows(w.runtime.execution, w.reload.value.execution)
      else Follows(w.reload.value.execution, w.runtime.execution)
  }

  lemma FollowsOn(a: Option<Config>, b: Option<Config>, c: Option<Config>)
    requires Follows(a, b) && Follows(b, c)
    ensures Follows(a, c)
  {
  }

  /** The step keeps the order, and what it would return to is not older than before. */
  predicate StepsForward(w: Worker, n: Worker) { InOrder(n) && Follows(Baseline(w).execution, Baseline(n).execution) }

  lemma PrepareStepsForward(w: Worker, sequence: nat, config: Option<Config>, around: Surroundings)
    requires InOrder(w)
    ensures StepsForward(w, PrepareOn(w, sequence, config, around).0)
  {
    PrepareSucceedsExactly(w, sequence, config, around);
    assert InOrder(Drop(w)) && Drop(w).runtime == w.runtime;
  }

  lemma ActivateStepsForward(w: Worker, sequence: nat)
    requires InOrder(w)
    ensures StepsForward(w, ActivateOn(w, sequence).0)
  {
    if w.reload.Some? { ExchangeIsInvolution(w.runtime, w.reload.value); }
  }

  lemma FinalizeStepsForward(w: Worker, sequence: nat)
    requires InOrder(w)
    ensures StepsForward(w, FinalizeOn(w, sequence))
  {
  }

  lemma RollbackStepsForward(w: Worker, sequence: nat)
    requires InOrder(w)
    ensures StepsForward(w, RollbackOn(w, sequence))
  {
  }

  lemma StopStepsForward(w: Worker)
    requires InOrder(w)
    ensures StepsForward(w, StopAcceptingOn(w))
  {
  }

  lemma HandleKeepsOrder(w: Worker, request: Request, around: Surroundings)
    requires InOrder(w)
    ensures StepsForward(w, Handle(w, request, around).0)
  {
    if w.reload.Some? { FinalizeStepsForward(w, w.reload.value.sequence); }
    var s := Settle(w, request.committed);
    assert StepsForward(w, s);
    match request.op {
      case Prepare(config) => PrepareStepsForward(s, request.sequence, config, around);
      case Activate => ActivateStepsForward(s, request.sequence);
      case Finalize => FinalizeStepsForward(s, request.sequence);
      case Rollback => RollbackStepsForward(s, request.sequence);
      case Discard => RollbackStepsForward(s, request.sequence);
      case StopAccepting => StopStepsForward(s);
      case _ =>
    }
    FollowsOn(Baseline(w).execution, Baseline(s).execution, Baseline(Handle(w, request, around).0).execution);
  }

  /** Over any requests, the configuration a worker would return to never becomes older. */
  lemma {:induction false} ConfigurationsNeverGoBack(w: Worker, requests: seq<(Request, Surroundings)>)
    requires InOrder(w)
    ensures InOrder(HandleAll(w, requests))
    ensures Follows(Baseline(w).execution, Baseline(HandleAll(w, requests)).execution)
    decreases |requests|
  {
    if requests != [] {
      HandleKeepsOrder(w, requests[0].0, requests[0].1);
      ConfigurationsNeverGoBack(Handle(w, requests[0].0, requests[0].1).0, requests[1..]);
    }
  }
}
