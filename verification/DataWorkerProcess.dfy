/** The data worker as the source writes it: one object whose fields the request loop changes
    step by step. Every method is proved against the value functions of module DataWorker. */
module DataWorkerProcess {
  import opened Wrappers
  import opened DataWorker

  class Process {
    var execution: Option<Config>
    var tls: Option<Config>
    var health: Health
    var listeners: map<ListenerKey, ListenerId>
    var reload: Option<Participant>
    var settled: nat
    var stopping: bool
    var stopped: set<ListenerId>
    var created: nat

    function State(): (w: Worker)
      reads this
    {
      Worker(Runtime(execution, tls, health, listeners), reload, settled, stopping, stopped, created)
    }

    constructor ()
      ensures State() == FRESH_WORKER
    {
      execution, tls, health, listeners := None, None, map[], map[];
      reload, settled, stopping, stopped, created := None, 0, false, {}, 0;
    }

    method ResetReload()
      modifies this
      ensures State() == Drop(old(State()))
    {
      if reload.Some? && reload.value.phase.Prepared? && reload.value.resources.Replacement? {
        stopped := stopped + reload.value.resources.additions;
      }
      reload := None;
    }

    /** exchange_runtime: swaps health, TLS, listeners and execution with the participant's slots. */
    method ExchangeRuntime()
      requires reload.Some?
      modifies this
      ensures State() == old(State()).(runtime := Exchange(old(State().runtime), old(reload.value)).0,
                                       reload := Some(Exchange(old(State().runtime), old(reload.value)).1))
    {
      var p := reload.value;
      if p.resources.Replacement? {
        var previousHealth, previousTls, previousListeners := health, tls, listeners;
        health := p.resources.health;
        tls := p.resources.tls;
        listeners := p.resources.listeners;
        p := p.(resources := p.resources.(health := previousHealth, tls := previousTls, listeners := previousListeners));
      }
      var previous := execution;
      execution := p.execution;
      reload := Some(p.(execution := previous));
    }

    /** prepare_listener for every endpoint, in order. */
    method BuildListeners(config: Config) returns (next: map<ListenerKey, ListenerId>, additions: set<ListenerId>)
      modifies this`created
      ensures Listening(next, additions, created) == Listeners(old(State()), config)
    {
      next, additions := map[], {};
      if config.enabled {
        var i := 0;
        while i < |config.endpoints|
          invariant 0 <= i <= |config.endpoints|
          invariant Listening(next, additions, created)
                    == AddEndpoints(listeners, Listening(map[], {}, old(created)), config, i)
        {
          var e := config.endpoints[i];
          next, additions := PrepareListener(next, additions, ListenerKey(false, e.v6, e.httpPort));
          if config.hasCertificates {
            next, additions := PrepareListener(next, additions, ListenerKey(true, e.v6, e.httpsPort));
          }
          i := i + 1;
        }
      }
    }

    method PrepareListener(map0: map<ListenerKey, ListenerId>, additions0: set<ListenerId>, key: ListenerKey)
      returns (next: map<ListenerKey, ListenerId>, additions: set<ListenerId>)
      modifies this`created
      ensures Listening(next, additions, created) == AddListener(listeners, Listening(map0, additions0, old(created)), key)
    {
      next, additions := map0, additions0;
      if key in next {
        return;
      }
      if key in listeners {
        next := next[key := listeners[key]];
        return;
      }
      next := next[key := created];
      additions := additions + {created};
      created := created + 1;
    }

    method PrepareReload(sequence: nat, config: Option<Config>, around: Surroundings) returns (ok: bool)
      modifies this
      ensures (State(), ok) == PrepareOn(old(State()), sequence, config, around)
    {
      if stopping || sequence <= settled || around.expiredBefore {
        return false;
      }
      if reload.Some? && reload.value.phase.Tentative? {
        return false;
      }
      if config.None? {
        return false;
      }
      if reload.Some? && sequence <= reload.value.sequence {
        return false;
      }
      ResetReload();
      if !AcceptsNext(execution, config.value) {
        return false;
      }
      if Unchanged(execution, config.value) {
        if !around.expiredAfter {
          reload := Some(Participant(sequence, config, Retained, Prepared));
        }
        return !around.expiredAfter;
      }
      if around.buildFails {
        return false;
      }
      var next, additions := BuildListeners(config.value);
      reload := Some(Participant(sequence, config,
                                 Replacement(config, around.health, next, additions, RetiredBy(listeners, next)),
                                 Prepared));
      if around.expiredAfter {
        ResetReload();
        return false;
      }
      return true;
    }

    method ActivateReload(sequence: nat) returns (ok: bool)
      modifies this
      ensures (State(), ok) == ActivateOn(old(State()), sequence)
    {
      if reload.None? || reload.value.sequence != sequence || reload.value.phase.Tentative? {
        return false;
      }
      ExchangeRuntime();
      reload := Some(reload.value.(phase := Tentative));
      return true;
    }

    method FinalizeReload(sequence: nat)
      modifies this
      ensures State() == FinalizeOn(old(State()), sequence)
    {
      if reload.Some? && reload.value.sequence == sequence && reload.value.phase.Tentative? {
        if reload.value.resources.Replacement? {
          stopped := stopped + reload.value.resources.retired;
        }
        reload := None;
        settled := Max(settled, sequence);
      }
    }

    method RollbackReload(sequence: nat)
      modifies this
      ensures State() == RollbackOn(old(State()), sequence)
    {
      if sequence <= settled {
        return;
      }
      settled := sequence;
      if reload.None? || reload.value.sequence != sequence {
        return;
      }
      if reload.value.phase.Tentative? {
        ExchangeRuntime();
        if reload.value.resources.Replacement? {
          stopped := stopped + reload.value.resources.additions;
        }
      }
      ResetReload();
    }

    method StopAcceptingRequests()
      modifies this
      ensures State() == StopAcceptingOn(old(State()))
    {
      stopping := true;
      if reload.Some? && reload.value.phase.Prepared? {
        ResetReload();
      }
      ghost var before := State();
      var id := 0;
      while id < created
        invariant 0 <= id <= created && State() == before.(stopped := before.stopped + Below(id))
      {
        stopped := stopped + {id};
        id := id + 1;
      }
      listeners := map[];
    }

    /** One turn of `run`: recover a lost decision, then dispatch. */
    method Dispatch(request: Request, around: Surroundings) returns (reply: Option<bool>)
      modifies this
      ensures (State(), reply) == Handle(old(State()), request, around)
    {
      if reload.Some? && reload.value.phase.Tentative? && reload.value.sequence <= request.committed {
        FinalizeReload(reload.value.sequence);
      }
      match request.op
      case Prepare(config) =>
        var ok := PrepareReload(request.sequence, config, around);
        return Some(ok);
      case Activate =>
        if stopping || request.sequence <= settled || around.expiredBefore {
          return Some(false);
        }
        var ok := ActivateReload(request.sequence);
        return Some(ok);
      case Finalize =>
        FinalizeReload(request.sequence);
        return None;
      case Rollback =>
        RollbackReload(request.sequence);
        return Some(true);
      case Discard =>
        RollbackReload(request.sequence);
        return None;
      case Report => return Some(true);
      case Drain => return None;
      case StopAccepting =>
        StopAcceptingRequests();
        return None;
      case RetiredNotice => return Some(false);
      case CacheCommand => return None;
      case CcDispositions => return None;
    }

    /** The whole loop over a received request stream. */
    method Run(requests: seq<(Request, Surroundings)>)
      requires Sound(State())
      modifies this
      ensures State() == HandleAll(old(State()), requests)
      ensures Sound(State())
    {
      var i := 0;
      ghost var start := State();
      while i < |requests|
        invariant 0 <= i <= |requests|
        invariant Sound(State())
        invariant HandleAll(State(), requests[i..]) == HandleAll(start, requests)
      {
        HandleKeepsServing(State(), requests[i].0, requests[i].1);
        assert requests[i..][1..] == requests[i + 1..];
        var _ := Dispatch(requests[i].0, requests[i].1);
        i := i + 1;
      }
    }
  }
}
