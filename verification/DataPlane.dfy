/** The two-phase reload over all workers (node/data/data_plane.h, node/runtime/config_activation.h). */
module DataPlane {
  // N workers, one request channel per worker whose sends may be refused, and one shared result
  // channel whose replies may be lost. A run is any sequence of enabled steps.

  import opened Wrappers
  import W = DataWorker

  datatype ReplyKind = PrepareReply | ActivateReply | RollbackReply | OtherReply | RetiredReply

  datatype Reply = Reply(kind: ReplyKind, sequence: nat, worker: nat, ok: bool)

  /** Where the reload holding the operation lease stands. `seen` is the set of workers whose
      reply has been collected and `ok` says that all of them voted yes. */
  datatype Stage =
    | Idle
    | Opened
    | Preparing(seen: set<nat>, ok: bool)
    | Ready
    | Activating(seen: set<nat>, ok: bool)
    | Voted
    | Failed
    | RollingBack(seen: set<nat>, ok: bool)

  /** `candidates`, `commits` and `aborts` record the history of decisions; `unconfirmed` is set
      when a rollback could not be confirmed and the plane became unavailable. */
  datatype System = System(
    workers: seq<W.Worker>, live: seq<bool>, queues: seq<seq<W.Request>>, results: seq<Reply>,
    sequence: nat, committed: nat, retired: set<nat>, stopping: bool, unconfirmed: bool,
    stage: Stage, current: nat,
    candidates: map<nat, W.Config>, commits: set<nat>, aborts: set<nat>)
  {
    predicate Shaped() { |workers| == |live| == |queues| }

    /** The execution every live worker is supposed to serve: that of the last commit. */
    function Decided(): Option<W.Config> {
      if committed in candidates && committed in commits then Some(candidates[committed]) else None
    }
  }

  function Init(n: nat): (s: System)
    ensures s.Shaped() && |s.workers| == n
  {
    System(seq(n, _ => W.FRESH_WORKER), seq(n, _ => true), seq(n, _ => []), [],
           0, 0, {}, false, false, Idle, 0, map[], {}, {})
  }

  datatype Step =
    | TakeSequence
    | Begin(config: W.Config)
    | SendPrepare(accepted: set<nat>)
    | SendActivate(accepted: set<nat>)
    | Abandon(accepted: set<nat>)
    | Commit(accepted: set<nat>)
    | Fail
    | SendRollback(accepted: set<nat>)
    | GiveUp
    | Receive
    | SendOther(op: W.Operation, sequence: nat, accepted: set<nat>)
    | Work(worker: nat, around: W.Surroundings, delivered: bool)
    | StopWorker(worker: nat)
    | Retire(worker: nat, announced: bool)
    | RequestStop

  /** Channel sends: workers known to be retired are skipped, others may refuse. */
  function Enqueue(queues: seq<seq<W.Request>>, targets: set<nat>, request: W.Request): (r: seq<seq<W.Request>>)
    ensures |r| == |queues|
    ensures forall i :: 0 <= i < |queues| ==> r[i] == if i in targets then queues[i] + [request] else queues[i]
  {
    seq(|queues|, i requires 0 <= i < |queues| => if i in targets then queues[i] + [request] else queues[i])
  }

  predicate AllAccepted(s: System, accepted: set<nat>) {
    forall i :: 0 <= i < |s.queues| ==> i !in s.retired && i in accepted
  }

  predicate Complete(s: System, seen: set<nat>) {
    forall i :: 0 <= i < |s.queues| ==> i in seen || i in s.retired
  }

  function Unconfirm(s: System): System { s.(stage := Idle, unconfirmed := true, stopping := true) }

  /** What the coordinator does once every awaited worker has answered. */
  function Advance(s: System): (r: System) {
    match s.stage
    case Preparing(seen, ok) => if Complete(s, seen) then s.(stage := if ok then Ready else Failed) else s
    case Activating(seen, ok) => if Complete(s, seen) then s.(stage := if ok then Voted else Failed) else s
    case RollingBack(seen, ok) =>
      if !Complete(s, seen) then s
      else if ok then s.(stage := Idle, stopping := s.stopping || s.retired != {})
      else Unconfirm(s)
    case _ => s
  }

  /** The coordinator takes one reply from the result channel. */
  function Take(s: System, reply: Reply): (r: System) {
    var retired := s.(retired := s.retired + {reply.worker});
    match s.stage
    case Preparing(seen, ok) =>
      if reply.kind.RetiredReply? then retired.(stage := Failed)
      else if reply.sequence != s.current || !reply.kind.PrepareReply? then s
      else if reply.worker in seen then s.(stage := Failed)
      else Advance(s.(stage := Preparing(seen + {reply.worker}, ok && reply.ok)))
    case Activating(seen, ok) =>
      if reply.kind.RetiredReply? then retired.(stage := Failed)
      else if reply.sequence != s.current || !reply.kind.ActivateReply? then s
      else if reply.worker in seen then s.(stage := Failed)
      else Advance(s.(stage := Activating(seen + {reply.worker}, ok && reply.ok)))
    case RollingBack(seen, ok) =>
      if reply.kind.RetiredReply? then Advance(retired)
      else if reply.sequence != s.current || !reply.kind.RollbackReply? then s
      else if reply.worker in seen then Unconfirm(s)
      else Advance(s.(stage := RollingBack(seen + {reply.worker}, ok && reply.ok)))
    case _ => if reply.kind.RetiredReply? then retired else s
  }

  function KindOf(op: W.Operation): ReplyKind {
    match op
    case Prepare(_) => PrepareReply
    case Activate => ActivateReply
    case Rollback => RollbackReply
    case _ => OtherReply
  }

  predicate Enabled(s: System, step: Step)
    requires s.Shaped()
  {
    match step
    case TakeSequence => true
    case Begin(_) => s.stage.Idle? && !s.stopping
    case SendPrepare(_) => s.stage.Opened? && s.current in s.candidates
    case SendActivate(_) => s.stage.Ready? && !s.stopping
    case Abandon(_) => s.stage.Ready?
    case Commit(_) => s.stage.Voted?
    case Fail => s.stage.Opened? || s.stage.Preparing? || s.stage.Ready? || s.stage.Activating? || s.stage.Voted?
    case SendRollback(_) => s.stage.Failed?
    case GiveUp => s.stage.RollingBack?
    case Receive => s.results != [] && (s.stage.Idle? || s.stage.Preparing? || s.stage.Activating? || s.stage.RollingBack?)
    case SendOther(op, sequence, _) =>
      && (op.Report? || op.Drain? || op.CacheCommand? || op.CcDispositions?)
      && (op.Report? || op.Drain? ==> s.stage.Idle? && sequence <= s.sequence)
    case Work(w, _, _) => w < |s.workers| && s.live[w] && s.queues[w] != []
    case StopWorker(w) => w < |s.workers| && s.live[w]
    case Retire(w, _) => w < |s.workers| && s.live[w]
    case RequestStop => true
  }

  /** A request outside the transaction. CC dispositions are sent past `send` and carry no decision;
      cache commands have numbers of their own. */
  function Other(s: System, op: W.Operation, sequence: nat): W.Request {
    W.Request(op, sequence, if op.CcDispositions? then 0 else s.committed)
  }

  /** A transaction request to every worker; a refused send fails the transaction. */
  function SendAll(s: System, accepted: set<nat>, request: W.Request, collecting: Stage): (r: System)
    requires s.Shaped()
    ensures r.Shaped() && |r.workers| == |s.workers|
  {
    var sent := s.(queues := Enqueue(s.queues, accepted - s.retired, request));
    if AllAccepted(s, accepted) then Advance(sent.(stage := collecting)) else sent.(stage := Failed)
  }

  /** Worker `w` handles the head of its queue; its reply, if any, may get lost. */
  function Worked(s: System, w: nat, around: W.Surroundings, delivered: bool): (r: System)
    requires s.Shaped() && w < |s.workers| && s.queues[w] != []
    ensures r.Shaped() && |r.workers| == |s.workers|
  {
    var request := s.queues[w][0];
    var (next, verdict) := W.Handle(s.workers[w], request, around);
    s.(workers := s.workers[w := next], queues := s.queues[w := s.queues[w][1..]],
       results := if verdict.Some? && delivered
                  then s.results + [Reply(KindOf(request.op), request.sequence, w, verdict.value)] else s.results)
  }

  function Apply(s: System, step: Step): (r: System)
    requires s.Shaped() && Enabled(s, step)
    ensures r.Shaped() && |r.workers| == |s.workers|
  {
    match step
    case TakeSequence => s.(sequence := s.sequence + 1)
    case Begin(config) =>
      var q := s.sequence + 1;
      s.(sequence := q, current := q, stage := Opened, candidates := s.candidates[q := config])
    case SendPrepare(accepted) =>
      var request := W.Request(W.Prepare(Some(s.candidates[s.current])), s.current, s.committed);
      SendAll(s, accepted, request, Preparing({}, true))
    case SendActivate(accepted) =>
      var request := W.Request(W.Activate, s.current, s.committed);
      SendAll(s, accepted, request, Activating({}, true))
    case Abandon(accepted) =>
      s.(queues := Enqueue(s.queues, accepted, W.Request(W.Discard, s.current, 0)),
         stage := Idle, aborts := s.aborts + {s.current})
    case Commit(accepted) =>
      s.(committed := s.current, commits := s.commits + {s.current}, stage := Idle,
         queues := Enqueue(s.queues, accepted, W.Request(W.Finalize, s.current, s.current)))
    case Fail => s.(stage := Failed)
    case SendRollback(accepted) =>
      Advance(s.(queues := Enqueue(s.queues, accepted - s.retired, W.Request(W.Rollback, s.current, s.committed)),
                 stage := RollingBack({}, true), aborts := s.aborts + {s.current}))
    case GiveUp => Unconfirm(s)
    case Receive => Take(s.(results := s.results[1..]), s.results[0])
    case SendOther(op, sequence, accepted) => s.(queues := Enqueue(s.queues, accepted, Other(s, op, sequence)))
    case Work(w, around, delivered) =>
      Worked(s, w, around, delivered)
    case StopWorker(w) => s.(workers := s.workers[w := W.StopAcceptingOn(s.workers[w])])
    case Retire(w, announced) =>
      s.(live := s.live[w := false],
         workers := s.workers[w := W.FRESH_WORKER.(settled := s.workers[w].settled)],
         results := if announced then s.results + [Reply(RetiredReply, 0, w, true)] else s.results)
    case RequestStop => s.(stopping := true)
  }

  /** A run: every step is enabled where it is taken. */
  predicate IsRun(s: System, steps: seq<Step>)
    requires s.Shaped()
    decreases |steps|
  {
    steps == [] || (Enabled(s, steps[0]) && IsRun(Apply(s, steps[0]), steps[1..]))
  }

  function Exec(s: System, steps: seq<Step>): (r: System)
    requires s.Shaped() && IsRun(s, steps)
    ensures r.Shaped() && |r.workers| == |s.workers|
    decreases |steps|
  {
    if steps == [] then s else Exec(Apply(s, steps[0]), steps[1..])
  }

  // ---------------------------------------------------------------------------
  // The invariant
  // ---------------------------------------------------------------------------

  /** Transaction requests of one reload are sent in this order; other requests have rank 0. */
  function Rank(op: W.Operation): nat {
    match op
    case Prepare(_) => 1
    case Activate => 2
    case Rollback => 3
    case _ => 0
  }

  predicate MayCarry(stage: Stage, rank: nat) {
    match stage
    case Preparing(_, _) => rank == 1
    case Activating(_, _) => rank == 2
    case Failed => rank == 1 || rank == 2
    case RollingBack(_, _) => true
    case _ => false
  }

  predicate Ordered(q: seq<W.Request>) {
    forall i, j :: 0 <= i < j < |q| && Rank(q[i].op) > 0 && Rank(q[j].op) > 0 ==> Rank(q[i].op) < Rank(q[j].op)
  }

  predicate Quiet(q: seq<W.Request>) { forall r :: r in q ==> Rank(r.op) == 0 }

  predicate Undecided(s: System) { !s.stage.Idle? }

  /** A reply for the current sequence exists only once its request has been sent. */
  predicate ResultFacts(s: System, r: Reply)
    requires s.Shaped()
  {
    && r.sequence <= s.sequence && r.worker < |s.live|
    && (r.kind.RetiredReply? ==> !s.live[r.worker])
    && (r.kind.RollbackReply? ==> r.ok)
    && (r.sequence == s.current && Undecided(s) ==>
          && (r.kind.PrepareReply? ==> !s.stage.Opened?)
          && (r.kind.ActivateReply? ==> !s.stage.Opened? && !s.stage.Preparing? && !s.stage.Ready?)
          && (r.kind.RollbackReply? ==> s.stage.RollingBack?))
  }

  predicate Global(s: System) {
    && s.Shaped()
    && s.committed <= s.current <= s.sequence
    && (s.committed == 0 || s.committed in s.commits)
    && (forall c :: c in s.commits ==> 0 < c <= s.committed && c in s.candidates && c !in s.aborts)
    && (forall a :: a in s.aborts ==> a <= s.current)
    && (Undecided(s) ==> s.current in s.candidates && s.committed < s.current && !s.unconfirmed)
    && (s.unconfirmed ==> s.stopping)
    && (Undecided(s) && !s.stage.RollingBack? ==> s.current !in s.aborts)
    && (s.stage.Preparing? || s.stage.Ready? || s.stage.Activating? || s.stage.Voted? ==> s.retired == {})
    && (forall i :: i in s.retired ==> i < |s.live| && !s.live[i])
    && (forall r :: r in s.results ==> ResultFacts(s, r))
  }

  /** Every queued request carries only decisions already taken, and no rollback or discard of a commit. */
  predicate RequestFacts(s: System, r: W.Request) {
    && (r.op.CacheCommand? || r.op.CcDispositions? || r.sequence <= s.sequence)
    && r.committed <= s.committed
    && (r.op.Finalize? ==> r.sequence in s.commits)
    && (r.op.Rollback? || r.op.Discard? ==> r.sequence in s.aborts)
    && (r.op.Discard? ==> r.sequence < s.current || !Undecided(s))
    && !r.op.StopAccepting? && !r.op.RetiredNotice?
  }

  predicate TransactionFacts(s: System, r: W.Request) {
    Rank(r.op) > 0 ==>
      && MayCarry(s.stage, Rank(r.op))
      && r.sequence == s.current && r.committed == s.committed
      && (r.op.Prepare? ==> s.current in s.candidates && r.op.config == Some(s.candidates[s.current]))
  }

  /** The worker serves the decided configuration unless it voted for the undecided candidate,
      and then it still holds the decided one. */
  predicate ExecutionFacts(s: System, w: W.Worker, q: seq<W.Request>) {
    if w.reload.Some? && w.reload.value.phase.Tentative? then
      var t := w.reload.value.sequence;
      && t in s.candidates
      && w.runtime.execution == Some(s.candidates[t])
      && if t == s.committed then t in s.commits
         else
           && t == s.current && t !in s.commits && w.settled < t && Undecided(s)
           && !s.stage.Opened? && !s.stage.Preparing? && !s.stage.Ready?
           && w.reload.value.execution == s.Decided()
           && (forall r :: r in q ==> Rank(r.op) == 0 || Rank(r.op) == 3)
    else
      && w.runtime.execution == s.Decided()
      && (w.reload.Some? ==>
            var p := w.reload.value.sequence;
            p in s.candidates && p !in s.commits && p <= s.current && w.reload.value.execution == Some(s.candidates[p]))
  }

  predicate HasVoted(s: System, w: W.Worker) {
    w.reload.Some? && w.reload.value.phase.Tentative? && w.reload.value.sequence == s.current
  }

  /** The transaction at hand is over for this worker: settled, and no participant of it is left. */
  predicate Withdrawn(s: System, w: W.Worker) {
    s.current <= w.settled && !(w.reload.Some? && w.reload.value.sequence == s.current)
  }

  /** A participant of the current sequence is not settled yet. */
  predicate OpenFacts(s: System, w: W.Worker) {
    w.reload.Some? && w.reload.value.sequence == s.current ==> w.settled < s.current
  }

  predicate Answered(s: System, i: nat, kind: ReplyKind, ok: bool) { Reply(kind, s.current, i, ok) in s.results }

  /** What a collected or queued reply of worker `i` proves about that worker. */
  predicate ReplyFacts(s: System, i: nat, w: W.Worker, q: seq<W.Request>) {
    match s.stage
    case Preparing(seen, _) =>
      i in seen || Answered(s, i, PrepareReply, true) || Answered(s, i, PrepareReply, false) ==> Quiet(q)
    case Ready => Quiet(q)
    case Activating(seen, ok) =>
      (ok && i in seen) || Answered(s, i, ActivateReply, true) ==> Quiet(q) && HasVoted(s, w)
    case Voted => Quiet(q) && HasVoted(s, w)
    case RollingBack(seen, _) =>
      i in seen || Answered(s, i, RollbackReply, true) ==> Quiet(q) && Withdrawn(s, w)
    case _ => true
  }

  predicate WorkerFacts(s: System, i: nat)
    requires s.Shaped() && i < |s.workers|
  {
    && (forall r :: r in s.queues[i] ==> RequestFacts(s, r))
    && (s.live[i] && !s.unconfirmed ==>
          && (forall r :: r in s.queues[i] ==> TransactionFacts(s, r))
          && Ordered(s.queues[i])
          && ExecutionFacts(s, s.workers[i], s.queues[i]) && OpenFacts(s, s.workers[i])
          && ReplyFacts(s, i, s.workers[i], s.queues[i]))
  }

  predicate Inv(s: System) {
    Global(s) && forall i :: 0 <= i < |s.workers| ==> WorkerFacts(s, i)
  }

  // ---------------------------------------------------------------------------
  // Every step keeps the invariant
  // ---------------------------------------------------------------------------

  lemma InitHolds(n: nat)
    ensures Inv(Init(n))
  {
  }

  lemma OrderedAppend(q: seq<W.Request>, r: W.Request)
    requires Ordered(q)
    requires Rank(r.op) > 0 ==> forall x :: x in q ==> Rank(x.op) < Rank(r.op)
    ensures Ordered(q + [r])
  {
    var n := q + [r];
    forall i, j | 0 <= i < j < |n| && Rank(n[i].op) > 0 && Rank(n[j].op) > 0
      ensures Rank(n[i].op) < Rank(n[j].op)
    {
      if j == |q| { assert n[i] in q; }
    }
  }

  lemma BeginKeeps(s: System, config: W.Config)
    requires Inv(s) && Enabled(s, Begin(config))
    ensures Inv(Apply(s, Begin(config)))
  {
    var t := Apply(s, Begin(config));
    assert Global(t);
    forall i | 0 <= i < |s.workers| ensures WorkerFacts(t, i) {
      assert WorkerFacts(s, i);
    }
  }

  lemma AdvanceWorker(s: System, i: nat)
    requires Global(s) && i < |s.workers| && WorkerFacts(s, i)
    ensures WorkerFacts(Advance(s), i)
  {
    var t := Advance(s);
    assert forall r :: RequestFacts(s, r) ==> RequestFacts(t, r);
    if s.live[i] && t.stage != s.stage && !t.unconfirmed {
      var w, q := s.workers[i], s.queues[i];
      assert i in s.stage.seen;
      assert Quiet(q) || t.stage.Failed?;
      AdvanceExecution(s, w, q);
      assert OpenFacts(t, w);
      assert ReplyFacts(t, i, w, q);
    }
  }

  lemma AdvanceExecution(s: System, w: W.Worker, q: seq<W.Request>)
    requires Global(s) && ExecutionFacts(s, w, q) && !Advance(s).unconfirmed && (Quiet(q) || Advance(s).stage.Failed?)
    requires s.stage.RollingBack? && Advance(s).stage != s.stage ==> Withdrawn(s, w)
    ensures ExecutionFacts(Advance(s), w, q)
  {
  }

  /** Collecting the last awaited reply. */
  lemma AdvanceKeeps(s: System)
    requires Inv(s)
    ensures Inv(Advance(s))
  {
    var t := Advance(s);
    forall i | 0 <= i < |s.workers| ensures WorkerFacts(t, i) {
      AdvanceWorker(s, i);
    }
    assert Global(t);
  }

  /** A transaction request goes to `targets`, and the stage moves on with nothing collected yet. */
  lemma SendKeeps(s: System, t: System, targets: set<nat>, request: W.Request)
    requires Inv(s) && Undecided(s) && Global(t)
    requires t == s.(queues := Enqueue(s.queues, targets, request), stage := t.stage, aborts := t.aborts)
    requires s.aborts <= t.aborts
    requires RequestFacts(t, request) && TransactionFacts(t, request) && Rank(request.op) > 0
    requires forall rank: nat :: MayCarry(s.stage, rank) ==> rank < Rank(request.op) && MayCarry(t.stage, rank)
    requires match t.stage
             case Preparing(seen, ok) => s.stage.Opened? && seen == {}
             case Activating(seen, ok) => s.stage.Ready? && seen == {}
             case RollingBack(seen, ok) => s.stage.Failed? && seen == {}
             case Failed => s.stage.Opened? || s.stage.Ready?
             case _ => false
    ensures Inv(t)
  {
    forall i | 0 <= i < |s.workers| ensures WorkerFacts(t, i) {
      assert WorkerFacts(s, i);
      forall r | r in t.queues[i] ensures RequestFacts(t, r) {
        assert r in s.queues[i] || r == request;
      }
      if s.live[i] {
        forall r | r in s.queues[i] ensures Rank(r.op) < Rank(request.op) && TransactionFacts(t, r) {}
        OrderedAppend(s.queues[i], request);
        assert ExecutionFacts(t, t.workers[i], t.queues[i]);
        assert ReplyFacts(t, i, t.workers[i], t.queues[i]);
      }
    }
  }

  lemma SendPrepareKeeps(s: System, accepted: set<nat>)
    requires Inv(s) && Enabled(s, SendPrepare(accepted))
    ensures Inv(Apply(s, SendPrepare(accepted)))
  {
    var request := W.Request(W.Prepare(Some(s.candidates[s.current])), s.current, s.committed);
    var sent := s.(queues := Enqueue(s.queues, accepted - s.retired, request));
    var t := sent.(stage := if AllAccepted(s, accepted) then Preparing({}, true) else Failed);
    SendKeeps(s, t, accepted - s.retired, request);
    AdvanceKeeps(t);
  }

  lemma SendActivateKeeps(s: System, accepted: set<nat>)
    requires Inv(s) && Enabled(s, SendActivate(accepted))
    ensures Inv(Apply(s, SendActivate(accepted)))
  {
    var request := W.Request(W.Activate, s.current, s.committed);
    var sent := s.(queues := Enqueue(s.queues, accepted - s.retired, request));
    var t := sent.(stage := if AllAccepted(s, accepted) then Activating({}, true) else Failed);
    SendKeeps(s, t, accepted - s.retired, request);
    AdvanceKeeps(t);
  }

  lemma SendRollbackKeeps(s: System, accepted: set<nat>)
    requires Inv(s) && Enabled(s, SendRollback(accepted))
    ensures Inv(Apply(s, SendRollback(accepted)))
  {
    var request := W.Request(W.Rollback, s.current, s.committed);
    var t := s.(queues := Enqueue(s.queues, accepted - s.retired, request),
                stage := RollingBack({}, true), aborts := s.aborts + {s.current});
    SendKeeps(s, t, accepted - s.retired, request);
    AdvanceKeeps(t);
  }

  lemma AbandonKeeps(s: System, accepted: set<nat>)
    requires Inv(s) && Enabled(s, Abandon(accepted))
    ensures Inv(Apply(s, Abandon(accepted)))
  {
    var t := Apply(s, Abandon(accepted));
    assert Global(t);
    forall i | 0 <= i < |s.workers| ensures WorkerFacts(t, i) {
      assert WorkerFacts(s, i);
    }
  }

  lemma CommitKeeps(s: System, accepted: set<nat>)
    requires Inv(s) && Enabled(s, Commit(accepted))
    ensures Inv(Apply(s, Commit(accepted)))
  {
    var t := Apply(s, Commit(accepted));
    assert Global(t);
    forall i | 0 <= i < |s.workers| ensures WorkerFacts(t, i) {
      assert WorkerFacts(s, i);
    }
  }

  lemma QuietAppend(q: seq<W.Request>, r: W.Request)
    requires Rank(r.op) == 0
    ensures Quiet(q + [r]) == Quiet(q)
  {
    assert forall x :: x in q + [r] <==> x in q || x == r;
  }

  /** A request outside the transaction reaches some workers. */
  lemma PlainSendKeepsWorker(s: System, t: System, targets: set<nat>, request: W.Request, i: nat)
    requires s.Shaped() && t.Shaped() && i < |s.workers| && WorkerFacts(s, i)
    requires t == s.(queues := Enqueue(s.queues, targets, request)) && RequestFacts(s, request) && Rank(request.op) == 0
    ensures WorkerFacts(t, i)
  {
    var q, p := s.queues[i], t.queues[i];
    assert p == q || p == q + [request];
    forall r | r in p ensures RequestFacts(t, r) { assert r in q || r == request; }
    if s.live[i] && !s.unconfirmed {
      OrderedAppend(q, request);
      QuietAppend(q, request);
      forall r | r in p ensures TransactionFacts(t, r) { assert r in q || r == request; }
      assert ExecutionFacts(t, t.workers[i], p);
      assert ReplyFacts(t, i, t.workers[i], p);
    }
  }

  lemma SendOtherKeeps(s: System, op: W.Operation, sequence: nat, accepted: set<nat>)
    requires Inv(s) && Enabled(s, SendOther(op, sequence, accepted))
    ensures Inv(Apply(s, SendOther(op, sequence, accepted)))
  {
    var t := Apply(s, SendOther(op, sequence, accepted));
    assert Global(t);
    forall i | 0 <= i < |s.workers| ensures WorkerFacts(t, i) {
      assert WorkerFacts(s, i);
      PlainSendKeepsWorker(s, t, accepted, Other(s, op, sequence), i);
    }
  }

  /** What a reply taken from the result channel proves about its worker. */
  predicate Proves(s: System, reply: Reply)
    requires s.Shaped() && reply.worker < |s.workers|
  {
    reply.sequence == s.current && s.live[reply.worker] && Undecided(s) ==>
      var w, q := s.workers[reply.worker], s.queues[reply.worker];
      && (s.stage.Preparing? && reply.kind.PrepareReply? ==> Quiet(q))
      && (s.stage.Activating? && reply.kind.ActivateReply? && reply.ok ==> Quiet(q) && HasVoted(s, w))
      && (s.stage.RollingBack? && reply.kind.RollbackReply? ==> Quiet(q) && Withdrawn(s, w))
  }

  lemma StageKeeps(s: System, t: System)
    requires Inv(s) && Global(t) && !s.stage.Idle?
    requires t == s.(stage := t.stage, retired := t.retired, unconfirmed := t.unconfirmed, stopping := t.stopping)
    requires t.stage.Failed? || t.unconfirmed || t.stage == s.stage
    requires t.stage.Failed? ==> !s.stage.RollingBack?
    ensures Inv(t)
  {
    forall i | 0 <= i < |s.workers| ensures WorkerFacts(t, i) {
      assert WorkerFacts(s, i);
    }
  }

  /** Counting a matching reply. */
  lemma MarkKeeps(s: System, t: System, reply: Reply)
    requires Inv(s) && ResultFacts(s, reply) && Proves(s, reply) && reply.sequence == s.current
    requires t == s.(stage := t.stage)
    requires match s.stage
             case Preparing(seen, ok) => reply.kind.PrepareReply? && t.stage == Preparing(seen + {reply.worker}, ok && reply.ok)
             case Activating(seen, ok) => reply.kind.ActivateReply? && t.stage == Activating(seen + {reply.worker}, ok && reply.ok)
             case RollingBack(seen, ok) => reply.kind.RollbackReply? && t.stage == RollingBack(seen + {reply.worker}, ok && reply.ok)
             case _ => false
    ensures Inv(t)
  {
    assert Global(t);
    forall i | 0 <= i < |s.workers| ensures WorkerFacts(t, i) {
      assert WorkerFacts(s, i);
    }
  }

  lemma RetiredKeeps(s: System, worker: nat)
    requires Inv(s) && worker < |s.workers| && !s.live[worker]
    requires !s.stage.Ready? && !s.stage.Voted?
    ensures s.stage.Preparing? || s.stage.Activating? ==> Inv(s.(retired := s.retired + {worker}, stage := Failed))
    ensures !s.stage.Preparing? && !s.stage.Activating? ==> Inv(s.(retired := s.retired + {worker}))
  {
    var retired := s.(retired := s.retired + {worker});
    if s.stage.Preparing? || s.stage.Activating? {
      StageKeeps(s, retired.(stage := Failed));
    } else {
      forall i | 0 <= i < |s.workers| ensures WorkerFacts(retired, i) { assert WorkerFacts(s, i); }
      assert Global(retired);
    }
  }

  lemma CountKeeps(s: System, reply: Reply)
    requires Inv(s) && ResultFacts(s, reply) && Proves(s, reply)
    requires reply.sequence == s.current && !reply.kind.RetiredReply?
    ensures Inv(Take(s, reply))
  {
    match s.stage {
      case Preparing(seen, ok) =>
        if reply.kind.PrepareReply? && reply.worker !in seen {
          var t := s.(stage := Preparing(seen + {reply.worker}, ok && reply.ok));
          MarkKeeps(s, t, reply);
          AdvanceKeeps(t);
        } else if reply.kind.PrepareReply? {
          StageKeeps(s, s.(stage := Failed));
        }
      case Activating(seen, ok) =>
        if reply.kind.ActivateReply? && reply.worker !in seen {
          var t := s.(stage := Activating(seen + {reply.worker}, ok && reply.ok));
          MarkKeeps(s, t, reply);
          AdvanceKeeps(t);
        } else if reply.kind.ActivateReply? {
          StageKeeps(s, s.(stage := Failed));
        }
      case RollingBack(seen, ok) =>
        if reply.kind.RollbackReply? && reply.worker !in seen {
          var t := s.(stage := RollingBack(seen + {reply.worker}, ok && reply.ok));
          MarkKeeps(s, t, reply);
          AdvanceKeeps(t);
        } else if reply.kind.RollbackReply? {
          StageKeeps(s, Unconfirm(s));
        }
      case _ =>
    }
  }

  lemma TakeKeeps(s: System, reply: Reply)
    requires Inv(s) && ResultFacts(s, reply) && Proves(s, reply)
    requires !s.stage.Ready? && !s.stage.Voted?
    ensures Inv(Take(s, reply))
  {
    if reply.kind.RetiredReply? {
      RetiredKeeps(s, reply.worker);
      if s.stage.RollingBack? { AdvanceKeeps(s.(retired := s.retired + {reply.worker})); }
    } else if reply.sequence == s.current {
      CountKeeps(s, reply);
    }
  }

  lemma PopResultKeeps(s: System)
    requires Inv(s) && s.results != []
    ensures Inv(s.(results := s.results[1..]))
    ensures ResultFacts(s.(results := s.results[1..]), s.results[0])
    ensures Proves(s.(results := s.results[1..]), s.results[0])
  {
    var reply := s.results[0];
    var rest := s.(results := s.results[1..]);
    assert reply in s.results;
    assert WorkerFacts(s, reply.worker);
    forall r | r in rest.results ensures ResultFacts(rest, r) { assert r in s.results; }
    forall i | 0 <= i < |s.workers| ensures WorkerFacts(rest, i) {
      assert WorkerFacts(s, i);
      assert forall kind, ok :: Answered(rest, i, kind, ok) ==> Answered(s, i, kind, ok);
    }
    assert reply.sequence == s.current ==> Answered(s, reply.worker, reply.kind, reply.ok);
  }

  lemma ReceiveKeeps(s: System)
    requires Inv(s) && Enabled(s, Receive)
    ensures Inv(Apply(s, Receive))
  {
    PopResultKeeps(s);
    var rest := s.(results := s.results[1..]);
    TakeKeeps(rest, s.results[0]);
  }

  /** One request handled by a live worker keeps its execution facts. */
  lemma SettleKeepsExecution(s: System, w: W.Worker, q: seq<W.Request>, r: W.Request)
    requires Global(s) && !s.unconfirmed && RequestFacts(s, r) && ExecutionFacts(s, w, q)
    ensures ExecutionFacts(s, W.Settle(w, r.committed), q)
  {
  }

  predicate Handling(s: System, w: W.Worker, q: seq<W.Request>) {
    && Global(s) && !s.unconfirmed && q != [] && RequestFacts(s, q[0]) && TransactionFacts(s, q[0]) && ExecutionFacts(s, w, q)
    && (Rank(q[0].op) > 0 ==> forall r :: r in q[1..] ==> Rank(r.op) == 0 || Rank(q[0].op) < Rank(r.op))
  }

  lemma OpeningKeepsExecution(s: System, w: W.Worker, q: seq<W.Request>, around: W.Surroundings)
    requires Handling(s, w, q) && (q[0].op.Prepare? || q[0].op.Activate?)
    ensures ExecutionFacts(s, W.Handle(w, q[0], around).0, q[1..])
  {
    assert q[0] in q;
    SettleKeepsExecution(s, w, q, q[0]);
  }

  lemma ClosingKeepsExecution(s: System, w: W.Worker, q: seq<W.Request>, around: W.Surroundings)
    requires Handling(s, w, q) && !(q[0].op.Prepare? || q[0].op.Activate?)
    ensures ExecutionFacts(s, W.Handle(w, q[0], around).0, q[1..])
  {
    assert q[0] in q;
    assert forall x :: x in q[1..] ==> x in q;
    SettleKeepsExecution(s, w, q, q[0]);
  }

  lemma HandleKeepsExecution(s: System, w: W.Worker, q: seq<W.Request>, around: W.Surroundings)
    requires Handling(s, w, q)
    ensures ExecutionFacts(s, W.Handle(w, q[0], around).0, q[1..])
  {
    if q[0].op.Prepare? || q[0].op.Activate? { OpeningKeepsExecution(s, w, q, around); } else { ClosingKeepsExecution(s, w, q, around); }
  }

  lemma HandleKeepsOpen(s: System, w: W.Worker, r: W.Request, around: W.Surroundings)
    requires Global(s) && RequestFacts(s, r) && OpenFacts(s, w)
    ensures OpenFacts(s, W.Handle(w, r, around).0)
  {
  }

  /** What handling the head of the queue proves about votes. */
  lemma HandleVotes(s: System, w: W.Worker, q: seq<W.Request>, around: W.Surroundings)
    requires Global(s) && !s.unconfirmed && q != [] && Undecided(s)
    requires RequestFacts(s, q[0]) && TransactionFacts(s, q[0])
    requires ExecutionFacts(s, w, q) && OpenFacts(s, w)
    ensures var n := W.Handle(w, q[0], around);
            && (HasVoted(s, w) && !q[0].op.Rollback? ==> HasVoted(s, n.0))
            && (q[0].op.Activate? && n.1 == Some(true) ==> HasVoted(s, n.0))
            && (q[0].op.Rollback? ==> n.1 == Some(true) && Withdrawn(s, n.0))
            && (Withdrawn(s, w) && !q[0].op.Prepare? ==> Withdrawn(s, n.0))
            && (HasVoted(s, n.0) && !HasVoted(s, w) ==> q[0].op.Activate?)
  {
    assert q[0] in q;
  }

  lemma PopOrdered(q: seq<W.Request>)
    requires Ordered(q) && q != []
    ensures Ordered(q[1..])
    ensures Rank(q[0].op) > 0 ==> forall r :: r in q[1..] ==> Rank(r.op) == 0 || Rank(q[0].op) < Rank(r.op)
  {
    forall r | r in q[1..] && Rank(q[0].op) > 0 ensures Rank(r.op) == 0 || Rank(q[0].op) < Rank(r.op) {
      var j :| 0 <= j < |q[1..]| && q[1..][j] == r;
      assert q[j + 1] == r;
    }
  }

  /** The head of the queue leaves it quiet, unless a later transaction request is still queued. */
  lemma PopQuiet(s: System, w: nat)
    requires Inv(s) && Undecided(s) && w < |s.workers| && s.live[w] && s.queues[w] != []
    ensures var q := s.queues[w];
            && (Quiet(q) ==> Rank(q[0].op) == 0 && Quiet(q[1..]))
            && (Rank(q[0].op) > 0 && !s.stage.Failed? && !(s.stage.RollingBack? && Rank(q[0].op) < 3) ==> Quiet(q[1..]))
  {
    var q := s.queues[w];
    assert WorkerFacts(s, w);
    assert q[0] in q;
    assert forall r :: r in q[1..] ==> r in q;
    PopOrdered(q);
  }

  /** After one request is handled, the only new reply is the one to it. */
  lemma WorkAnswers(s: System, w: nat, around: W.Surroundings, delivered: bool, kind: ReplyKind, ok: bool)
    requires Inv(s) && Enabled(s, Work(w, around, delivered))
    requires Answered(Apply(s, Work(w, around, delivered)), w, kind, ok)
    ensures Answered(s, w, kind, ok) || (kind == KindOf(s.queues[w][0].op) && W.Handle(s.workers[w], s.queues[w][0], around).1 == Some(ok))
  {
  }

  lemma WorkKeepsReplies(s: System, w: nat, around: W.Surroundings, delivered: bool)
    requires Inv(s) && Enabled(s, Work(w, around, delivered)) && Undecided(s)
    ensures var t := Apply(s, Work(w, around, delivered));
            ReplyFacts(t, w, t.workers[w], t.queues[w])
  {
    var t := Apply(s, Work(w, around, delivered));
    var q, worker := s.queues[w], s.workers[w];
    assert WorkerFacts(s, w);
    assert q[0] in q;
    PopQuiet(s, w);
    HandleVotes(s, worker, q, around);
    forall kind, ok | Answered(t, w, kind, ok)
      ensures Answered(s, w, kind, ok) || (kind == KindOf(q[0].op) && W.Handle(worker, q[0], around).1 == Some(ok))
    {
      WorkAnswers(s, w, around, delivered, kind, ok);
    }
  }

  /** Facts about requests and executions do not depend on the other workers, queues and replies. */
  lemma FactsCarryOver(s: System, t: System, w: W.Worker, q: seq<W.Request>)
    requires s.Shaped() && t == s.(workers := t.workers, queues := t.queues, results := t.results)
    requires ExecutionFacts(s, w, q) && forall r :: r in q ==> RequestFacts(s, r) && TransactionFacts(s, r)
    ensures ExecutionFacts(t, w, q) && forall r :: r in q ==> RequestFacts(t, r) && TransactionFacts(t, r)
  {
  }

  lemma WorkKeepsWorker(s: System, w: nat, around: W.Surroundings, delivered: bool)
    requires Inv(s) && Enabled(s, Work(w, around, delivered)) && !s.unconfirmed
    ensures WorkerFacts(Apply(s, Work(w, around, delivered)), w)
  {
    var t := Apply(s, Work(w, around, delivered));
    var q, worker := s.queues[w], s.workers[w];
    assert WorkerFacts(s, w);
    assert q[0] in q;
    assert forall r :: r in q[1..] ==> r in q;
    PopOrdered(q);
    HandleKeepsExecution(s, worker, q, around);
    HandleKeepsOpen(s, worker, q[0], around);
    if Undecided(s) { WorkKeepsReplies(s, w, around, delivered); }
    FactsCarryOver(s, t, t.workers[w], q[1..]);
    assert t.queues[w] == q[1..];
  }

  lemma WorkKeepsOthers(s: System, w: nat, around: W.Surroundings, delivered: bool, i: nat)
    requires Inv(s) && Enabled(s, Work(w, around, delivered)) && i < |s.workers| && (i != w || s.unconfirmed)
    ensures WorkerFacts(Apply(s, Work(w, around, delivered)), i)
  {
    var t := Apply(s, Work(w, around, delivered));
    assert WorkerFacts(s, i);
    assert forall r :: r in t.queues[i] ==> r in s.queues[i];
    assert i != w ==> forall kind, ok :: Answered(t, i, kind, ok) ==> Answered(s, i, kind, ok);
  }

  lemma WorkKeeps(s: System, w: nat, around: W.Surroundings, delivered: bool)
    requires Inv(s) && Enabled(s, Work(w, around, delivered))
    ensures Inv(Apply(s, Work(w, around, delivered)))
  {
    var t := Apply(s, Work(w, around, delivered));
    assert WorkerFacts(s, w);
    assert s.queues[w][0] in s.queues[w];
    if !s.unconfirmed { WorkKeepsWorker(s, w, around, delivered); }
    forall r | r in t.results ensures ResultFacts(t, r) {
      assert r in s.results || r == t.results[|t.results| - 1];
    }
    assert Global(t);
    forall i | 0 <= i < |s.workers| && (i != w || s.unconfirmed) ensures WorkerFacts(t, i) {
      WorkKeepsOthers(s, w, around, delivered, i);
    }
  }

  lemma RetireKeeps(s: System, w: nat, announced: bool)
    requires Inv(s) && Enabled(s, Retire(w, announced))
    ensures Inv(Apply(s, Retire(w, announced)))
  {
    var t := Apply(s, Retire(w, announced));
    assert Global(t);
    forall i | 0 <= i < |s.workers| ensures WorkerFacts(t, i) {
      assert WorkerFacts(s, i);
    }
  }

  lemma StopWorkerKeeps(s: System, w: nat)
    requires Inv(s) && Enabled(s, StopWorker(w))
    ensures Inv(Apply(s, StopWorker(w)))
  {
    var t := Apply(s, StopWorker(w));
    assert Global(t);
    forall i | 0 <= i < |s.workers| ensures WorkerFacts(t, i) {
      assert WorkerFacts(s, i);
    }
  }

  lemma GiveUpKeeps(s: System)
    requires Inv(s) && Enabled(s, GiveUp)
    ensures Inv(Apply(s, GiveUp))
  {
    var t := Apply(s, GiveUp);
    assert Global(t);
    forall i | 0 <= i < |s.workers| ensures WorkerFacts(t, i) { assert WorkerFacts(s, i); }
  }

  lemma QuietStepKeeps(s: System, step: Step)
    requires Inv(s) && Enabled(s, step)
    requires step.TakeSequence? || step.Fail? || step.GiveUp? || step.RequestStop?
    ensures Inv(Apply(s, step))
  {
    if step.GiveUp? { GiveUpKeeps(s); } else {
      var t := Apply(s, step);
      assert Global(t);
      forall i | 0 <= i < |s.workers| ensures WorkerFacts(t, i) { assert WorkerFacts(s, i); }
    }
  }

  lemma StepKeeps(s: System, step: Step)
    requires Inv(s) && Enabled(s, step)
    ensures Inv(Apply(s, step))
  {
    match step {
      case Begin(config) => BeginKeeps(s, config);
      case SendPrepare(accepted) => SendPrepareKeeps(s, accepted);
      case SendActivate(accepted) => SendActivateKeeps(s, accepted);
      case Abandon(accepted) => AbandonKeeps(s, accepted);
      case Commit(accepted) => CommitKeeps(s, accepted);
      case SendRollback(accepted) => SendRollbackKeeps(s, accepted);
      case Receive => ReceiveKeeps(s);
      case SendOther(op, sequence, accepted) => SendOtherKeeps(s, op, sequence, accepted);
      case Work(w, around, delivered) => WorkKeeps(s, w, around, delivered);
      case StopWorker(w) => StopWorkerKeeps(s, w);
      case Retire(w, announced) => RetireKeeps(s, w, announced);
      case _ => QuietStepKeeps(s, step);
    }
  }

  lemma {:induction false} RunKeeps(s: System, steps: seq<Step>)
    requires Inv(s) && IsRun(s, steps)
    ensures Inv(Exec(s, steps))
    ensures s.commits <= Exec(s, steps).commits && s.aborts <= Exec(s, steps).aborts
    decreases |steps|
  {
    if steps != [] {
      StepKeeps(s, steps[0]);
      DecisionsAreKept(s, steps[0]);
      RunKeeps(Apply(s, steps[0]), steps[1..]);
    }
  }

  lemma DecisionsAreKept(s: System, step: Step)
    requires s.Shaped() && Enabled(s, step)
    ensures s.commits <= Apply(s, step).commits && s.aborts <= Apply(s, step).aborts
  {
  }

  // ---------------------------------------------------------------------------
  // Main results: for every number of workers and every run
  // ---------------------------------------------------------------------------

  /** Agreement: whenever no reload holds the lease and no rollback was left unconfirmed, every
      live worker serves exactly the configuration of the last committed sequence. */
  lemma Agreement(n: nat, steps: seq<Step>, i: nat)
    requires IsRun(Init(n), steps) && i < n
    ensures var s := Exec(Init(n), steps);
            s.stage.Idle? && !s.unconfirmed && s.live[i] ==> s.workers[i].runtime.execution == s.Decided()
  {
    InitHolds(n);
    RunKeeps(Init(n), steps);
    assert WorkerFacts(Exec(Init(n), steps), i);
  }

  /** During a reload a live worker serves either the committed configuration or the candidate
      of the current sequence, and in the second case it still holds the committed one. */
  lemma OnlyCommittedOrCandidate(n: nat, steps: seq<Step>, i: nat)
    requires IsRun(Init(n), steps) && i < n
    ensures var s := Exec(Init(n), steps);
            s.live[i] && !s.unconfirmed ==>
              || s.workers[i].runtime.execution == s.Decided()
              || (&& s.current in s.candidates
                  && s.workers[i].runtime.execution == Some(s.candidates[s.current])
                  && W.Baseline(s.workers[i]).execution == s.Decided())
  {
    InitHolds(n);
    RunKeeps(Init(n), steps);
    assert WorkerFacts(Exec(Init(n), steps), i);
  }

  /** A commit happens only when every worker that is still live has activated that sequence,
      and no worker is known to have retired. */
  lemma CommitNeedsEveryVote(n: nat, steps: seq<Step>, accepted: set<nat>, i: nat)
    requires IsRun(Init(n), steps) && Enabled(Exec(Init(n), steps), Commit(accepted)) && i < n
    ensures var s := Exec(Init(n), steps);
            && s.retired == {}
            && (s.live[i] ==> HasVoted(s, s.workers[i]) && s.current in s.candidates && s.workers[i].runtime.execution == Some(s.candidates[s.current]))
  {
    InitHolds(n);
    RunKeeps(Init(n), steps);
    assert WorkerFacts(Exec(Init(n), steps), i);
  }

  /** No worker ever handles a rollback or discard of a sequence that is, was or will be committed. */
  lemma CommitsAreNeverRolledBack(n: nat, before: seq<Step>, i: nat, around: W.Surroundings, delivered: bool, after: seq<Step>)
    requires IsRun(Init(n), before)
    requires Enabled(Exec(Init(n), before), Work(i, around, delivered))
    requires IsRun(Apply(Exec(Init(n), before), Work(i, around, delivered)), after)
    ensures var s := Exec(Init(n), before);
            var request := s.queues[i][0];
            request.op.Rollback? || request.op.Discard? ==>
              request.sequence !in Exec(Apply(s, Work(i, around, delivered)), after).commits
  {
    InitHolds(n);
    RunKeeps(Init(n), before);
    var s := Exec(Init(n), before);
    assert WorkerFacts(s, i);
    assert s.queues[i][0] in s.queues[i];
    StepKeeps(s, Work(i, around, delivered));
    RunKeeps(Apply(s, Work(i, around, delivered)), after);
  }

  /** A prepare never meets an undecided tentative reload: the decision it carries has settled
      the only one there can be. So "reload decision is missing" is unreachable. */
  lemma PrepareNeverFindsUndecided(n: nat, steps: seq<Step>, i: nat)
    requires IsRun(Init(n), steps) && i < n
    ensures var s := Exec(Init(n), steps);
            s.live[i] && !s.unconfirmed && s.queues[i] != [] && s.queues[i][0].op.Prepare? ==>
              var w := W.Settle(s.workers[i], s.queues[i][0].committed);
              w.reload.Some? ==> w.reload.value.phase.Prepared?
  {
    InitHolds(n);
    RunKeeps(Init(n), steps);
    var s := Exec(Init(n), steps);
    assert WorkerFacts(s, i);
    if s.queues[i] != [] { assert s.queues[i][0] in s.queues[i]; }
  }

  /** After an abort, by rollback or by giving up a prepared reload, no live worker has voted for the
      candidate, none has a transaction request queued, and all serve the decided configuration. */
  lemma AbortLeavesDecided(n: nat, steps: seq<Step>, i: nat)
    requires IsRun(Init(n), steps) && i < n
    ensures var s := Exec(Init(n), steps);
            s.stage.Idle? && !s.unconfirmed && s.live[i] && s.current !in s.commits ==>
              && !HasVoted(s, s.workers[i])
              && Quiet(s.queues[i])
              && s.workers[i].runtime.execution == s.Decided()
  {
    InitHolds(n);
    RunKeeps(Init(n), steps);
    var s := Exec(Init(n), steps);
    assert WorkerFacts(s, i);
    assert forall r :: r in s.queues[i] ==> RequestFacts(s, r);
  }

  lemma ConfirmationSettles(s: System, step: Step, i: nat)
    requires Inv(s) && Enabled(s, step) && i < |s.workers| && Inv(Apply(s, step))
    requires s.stage.RollingBack? && Apply(s, step).stage.Idle? && !Apply(s, step).unconfirmed && Apply(s, step).live[i]
    ensures var t := Apply(s, step);
            Withdrawn(s, t.workers[i]) && Quiet(t.queues[i]) && t.workers[i].runtime.execution == t.Decided()
  {
    assert WorkerFacts(s, i);
    assert WorkerFacts(Apply(s, step), i);
  }

  /** The step that confirms a rollback leaves no trace of the candidate: every live worker has
      settled its sequence, holds no participant of it, has no transaction request queued and serves
      the decided configuration. By DataWorker.SettledSequencesStayClosed it never opens it again. */
  lemma ConfirmedRollbackIsComplete(n: nat, steps: seq<Step>, step: Step, i: nat)
    requires IsRun(Init(n), steps) && Enabled(Exec(Init(n), steps), step) && i < n
    ensures var s := Exec(Init(n), steps);
            var t := Apply(s, step);
            s.stage.RollingBack? && t.stage.Idle? && !t.unconfirmed && t.live[i] ==>
              && Withdrawn(s, t.workers[i]) && Quiet(t.queues[i])
              && t.workers[i].runtime.execution == t.Decided()
  {
    InitHolds(n);
    RunKeeps(Init(n), steps);
    var s := Exec(Init(n), steps);
    StepKeeps(s, step);
    var t := Apply(s, step);
    if s.stage.RollingBack? && t.stage.Idle? && !t.unconfirmed && t.live[i] { ConfirmationSettles(s, step, i); }
  }

  /** What handling one request does to a tentative reload in any run: an uncommitted one stays until
      its own rollback, which restores what was there before it; a committed one is never undone, and
      it is settled at the latest by the next request of any transaction. Nothing finalizes a reload
      that was not committed. */
  lemma DecisionsReachWorkers(n: nat, steps: seq<Step>, i: nat, around: W.Surroundings, delivered: bool)
    requires IsRun(Init(n), steps) && Enabled(Exec(Init(n), steps), Work(i, around, delivered))
    requires !Exec(Init(n), steps).unconfirmed
    ensures var s := Exec(Init(n), steps);
            var w, request, v := s.workers[i], s.queues[i][0], Apply(s, Work(i, around, delivered)).workers[i];
            w.reload.Some? && w.reload.value.phase.Tentative? ==>
              var t := w.reload.value.sequence;
              if t in s.commits then v.runtime == w.runtime && (t <= request.committed || Rank(request.op) > 0 ==> Closed(v, t))
              else
                || (v.reload == w.reload && v.runtime == w.runtime)
                || ((request.op.Rollback? || request.op.Discard?) && request.sequence == t && v.reload.None? && v.runtime == W.Baseline(w))
  {
    InitHolds(n);
    RunKeeps(Init(n), steps);
    var s := Exec(Init(n), steps);
    assert WorkerFacts(s, i);
    assert s.queues[i][0] in s.queues[i];
  }

  /** The worker has settled that sequence and holds no participant of it. */
  predicate Closed(w: W.Worker, t: nat) { t <= w.settled && !(w.reload.Some? && w.reload.value.sequence == t) }

  // ---------------------------------------------------------------------------
  // A lost finalize is made good
  // ---------------------------------------------------------------------------

  /** Every operation carries the decision except the two that are sent past `send`. */
  predicate Bears(op: W.Operation) { !op.CcDispositions? && !op.Discard? }

  /** Once `t` is committed, everything that joins a queue and bears a decision covers `t`. */
  predicate Cover(joined: seq<W.Request>, t: nat) { forall r :: r in joined ==> Bears(r.op) ==> t <= r.committed }

  lemma AdvanceTouchesNoQueue(s: System)
    ensures Advance(s).queues == s.queues && Advance(s).committed == s.committed
  {
  }

  lemma TakeTouchesNoQueue(s: System, reply: Reply)
    ensures Take(s, reply).queues == s.queues && Take(s, reply).committed == s.committed
  {
  }

  /** What a request sent to the workers in `targets` adds to the queue of worker `i`. */
  function Added(targets: set<nat>, i: nat, request: W.Request): (joined: seq<W.Request>) { if i in targets then [request] else [] }

  lemma EnqueueAdds(queues: seq<seq<W.Request>>, targets: set<nat>, request: W.Request, i: nat)
    requires i < |queues|
    ensures Enqueue(queues, targets, request)[i] == queues[i] + Added(targets, i, request)
  {
    assert queues[i] + [] == queues[i];
  }

  lemma SendAllAdds(s: System, accepted: set<nat>, request: W.Request, collecting: Stage, i: nat)
    requires s.Shaped() && i < |s.queues|
    ensures SendAll(s, accepted, request, collecting).queues[i] == s.queues[i] + Added(accepted - s.retired, i, request)
    ensures SendAll(s, accepted, request, collecting).committed == s.committed
  {
    EnqueueAdds(s.queues, accepted - s.retired, request, i);
    AdvanceTouchesNoQueue(s.(queues := Enqueue(s.queues, accepted - s.retired, request)).(stage := collecting));
  }

  /** The request a step sends, and to whom. */
  function Sending(s: System, step: Step): (sent: Option<(W.Request, set<nat>)>)
    requires s.Shaped() && Enabled(s, step)
  {
    match step
    case SendPrepare(accepted) => Some((W.Request(W.Prepare(Some(s.candidates[s.current])), s.current, s.committed), accepted - s.retired))
    case SendActivate(accepted) => Some((W.Request(W.Activate, s.current, s.committed), accepted - s.retired))
    case SendRollback(accepted) => Some((W.Request(W.Rollback, s.current, s.committed), accepted - s.retired))
    case Abandon(accepted) => Some((W.Request(W.Discard, s.current, 0), accepted))
    case Commit(accepted) => Some((W.Request(W.Finalize, s.current, s.current), accepted))
    case SendOther(op, sequence, accepted) => Some((Other(s, op, sequence), accepted))
    case _ => None
  }

  lemma SendJoins(s: System, step: Step, i: nat)
    requires s.Shaped() && Enabled(s, step) && i < |s.queues| && Sending(s, step).Some?
    ensures var (request, targets) := Sending(s, step).value;
            Apply(s, step).queues[i] == s.queues[i] + Added(targets, i, request)
  {
    var (request, targets) := Sending(s, step).value;
    EnqueueAdds(s.queues, targets, request, i);
    match step
    case SendPrepare(accepted) => SendAllAdds(s, accepted, request, Preparing({}, true), i);
    case SendActivate(accepted) => SendAllAdds(s, accepted, request, Activating({}, true), i);
    case SendRollback(accepted) => AdvanceTouchesNoQueue(s.(queues := Enqueue(s.queues, targets, request), stage := RollingBack({}, true), aborts := s.aborts + {s.current}));
    case _ =>
  }

  lemma QuietStepJoins(s: System, step: Step, i: nat)
    requires s.Shaped() && Enabled(s, step) && i < |s.queues| && Sending(s, step).None?
    ensures Apply(s, step).queues[i] == if step.Work? && step.worker == i then s.queues[i][1..] else s.queues[i]
  {
    if step.Receive? { TakeTouchesNoQueue(s.(results := s.results[1..]), s.results[0]); }
  }

  lemma CommittedGrows(s: System, step: Step)
    requires Inv(s) && Enabled(s, step)
    ensures s.committed <= Apply(s, step).committed
  {
    match step
    case SendPrepare(accepted) => AdvanceTouchesNoQueue(s.(queues := Enqueue(s.queues, accepted - s.retired, Sending(s, step).value.0)).(stage := Preparing({}, true)));
    case SendActivate(accepted) => AdvanceTouchesNoQueue(s.(queues := Enqueue(s.queues, accepted - s.retired, Sending(s, step).value.0)).(stage := Activating({}, true)));
    case SendRollback(accepted) => AdvanceTouchesNoQueue(s.(queues := Enqueue(s.queues, accepted - s.retired, Sending(s, step).value.0), stage := RollingBack({}, true), aborts := s.aborts + {s.current}));
    case Receive => TakeTouchesNoQueue(s.(results := s.results[1..]), s.results[0]);
    case _ =>
  }

  /** One step takes at most the head off a queue and appends at most one request, which covers `t`. */
  lemma StepJoins(s: System, step: Step, i: nat, t: nat) returns (joined: seq<W.Request>)
    requires Inv(s) && Enabled(s, step) && i < |s.workers| && t <= s.committed
    ensures t <= Apply(s, step).committed && Cover(joined, t)
    ensures Apply(s, step).queues[i] == (if step.Work? && step.worker == i then s.queues[i][1..] else s.queues[i]) + joined
  {
    CommittedGrows(s, step);
    match Sending(s, step)
    case Some(sent) =>
      SendJoins(s, step, i);
      joined := Added(sent.1, i, sent.0);
    case None =>
      QuietStepJoins(s, step, i);
      joined := [];
      assert Apply(s, step).queues[i] + [] == Apply(s, step).queues[i];
  }

  /** How many requests worker `i` handles during a run. */
  function HandledBy(steps: seq<Step>, i: nat): (h: nat) {
    if steps == [] then 0 else (if steps[0].Work? && steps[0].worker == i then 1 else 0) + HandledBy(steps[1..], i)
  }

  /** After a run the queue is what was in it and what joined it, without as many as were handled. */
  lemma {:induction false} QueueAfter(s: System, steps: seq<Step>, i: nat, t: nat) returns (joined: seq<W.Request>)
    requires Inv(s) && IsRun(s, steps) && i < |s.workers| && t <= s.committed
    ensures Cover(joined, t) && HandledBy(steps, i) <= |s.queues[i] + joined|
    ensures Exec(s, steps).queues[i] == (s.queues[i] + joined)[HandledBy(steps, i)..]
    decreases |steps|
  {
    if steps == [] {
      joined := [];
      assert s.queues[i] + [] == s.queues[i] == s.queues[i][0..];
    } else {
      var first := StepJoins(s, steps[0], i, t);
      StepKeeps(s, steps[0]);
      var later := QueueAfter(Apply(s, steps[0]), steps[1..], i, t);
      joined := first + later;
      QueueTail(s.queues[i], steps[0].Work? && steps[0].worker == i, first, later, HandledBy(steps[1..], i));
    }
  }

  lemma QueueTail(q: seq<W.Request>, popped: bool, first: seq<W.Request>, later: seq<W.Request>, h: nat)
    requires popped ==> q != []
    requires var rest := if popped then q[1..] else q; h <= |rest + first + later|
    ensures var rest := if popped then q[1..] else q;
            var k := if popped then 1 else 0;
            k + h <= |q + (first + later)| && (rest + first + later)[h..] == (q + (first + later))[k + h..]
  {
    assert q + (first + later) == q + first + later;
    if popped { assert q + first + later == [q[0]] + (q[1..] + first + later); }
  }

  /** A request that covers `t` leaves nothing tentative up to `t`, and settles a tentative reload of
      `t` without touching the configuration it serves. */
  lemma CoveredRequestSettles(u: System, t: nat, i: nat, around: W.Surroundings, delivered: bool)
    requires Inv(u) && Enabled(u, Work(i, around, delivered)) && !u.unconfirmed && t in u.commits
    requires t <= u.queues[i][0].committed
    ensures var w, v := u.workers[i], Apply(u, Work(i, around, delivered)).workers[i];
            w.reload.Some? && w.reload.value.phase.Tentative? && w.reload.value.sequence == t ==>
              Closed(v, t) && v.runtime == w.runtime
  {
    assert WorkerFacts(u, i);
    assert u.queues[i][0] in u.queues[i];
  }

  lemma HeadJoined(q: seq<W.Request>, joined: seq<W.Request>, h: nat, rest: seq<W.Request>)
    requires |q| <= h <= |q + joined| && rest == (q + joined)[h..] && rest != []
    ensures rest[0] in joined
  {
    assert rest[0] == (q + joined)[h] == joined[h - |q|];
  }

  /** Once all that was queued at the commit is handled, the head of the queue covers `t`. */
  lemma LaterRequestsCover(s: System, steps: seq<Step>, i: nat, t: nat, head: W.Request)
    requires Inv(s) && IsRun(s, steps) && i < |s.workers| && t <= s.committed
    requires |s.queues[i]| <= HandledBy(steps, i) && Exec(s, steps).queues[i] != [] && head == Exec(s, steps).queues[i][0]
    ensures Bears(head.op) ==> t <= head.committed
  {
    var joined := QueueAfter(s, steps, i, t);
    HeadJoined(s.queues[i], joined, HandledBy(steps, i), Exec(s, steps).queues[i]);
  }

  /** Recovery over runs: after `t` is committed, the first request a live worker handles of those that
      joined its queue since then settles `t`, whatever became of the finalize; only CC dispositions
      and discards, which bear no decision, leave it to the next one. */
  lemma LostFinalizeIsRecovered(n: nat, before: seq<Step>, after: seq<Step>, t: nat, i: nat, around: W.Surroundings, delivered: bool)
    requires IsRun(Init(n), before) && t in Exec(Init(n), before).commits && IsRun(Exec(Init(n), before), after)
    requires Enabled(Exec(Exec(Init(n), before), after), Work(i, around, delivered))
    ensures var s := Exec(Init(n), before);
            var u := Exec(s, after);
            var w, v := u.workers[i], Apply(u, Work(i, around, delivered)).workers[i];
            !u.unconfirmed && |s.queues[i]| <= HandledBy(after, i) && Bears(u.queues[i][0].op)
            && w.reload.Some? && w.reload.value.phase.Tentative? && w.reload.value.sequence == t ==>
              Closed(v, t) && v.runtime == w.runtime
  {
    InitHolds(n);
    RunKeeps(Init(n), before);
    var s := Exec(Init(n), before);
    RunKeeps(s, after);
    CommitsAreKept(s, after);
    var u := Exec(s, after);
    if !u.unconfirmed && |s.queues[i]| <= HandledBy(after, i) && Bears(u.queues[i][0].op) {
      LaterRequestsCover(s, after, i, t, u.queues[i][0]);
      CoveredRequestSettles(u, t, i, around, delivered);
    }
  }

  lemma {:induction false} CommitsAreKept(s: System, steps: seq<Step>)
    requires Inv(s) && IsRun(s, steps)
    ensures s.commits <= Exec(s, steps).commits
    decreases |steps|
  {
    if steps != [] {
      DecisionsAreKept(s, steps[0]);
      StepKeeps(s, steps[0]);
      CommitsAreKept(Apply(s, steps[0]), steps[1..]);
    }
  }

  // ---------------------------------------------------------------------------
  // How the coordinator counts
  // ---------------------------------------------------------------------------

  /** Every worker has answered or is known to have retired. */
  predicate AllAnswered(s: System, seen: set<nat>, retired: set<nat>) { forall i :: 0 <= i < |s.queues| ==> i in seen || i in retired }

  /** A prepare goes out to every worker known to live, and the plane awaits all of them, unless some worker
      refuses it or is known to have retired, which fails the reload; so does an activate. */
  lemma SendingAwaitsAll(s: System, accepted: set<nat>)
    requires s.Shaped() && s.queues != []
    ensures var all := forall i :: 0 <= i < |s.queues| ==> i in accepted && i !in s.retired;
            && (Enabled(s, SendPrepare(accepted)) ==> Apply(s, SendPrepare(accepted)).stage == if all then Preparing({}, true) else Failed)
            && (Enabled(s, SendActivate(accepted)) ==> Apply(s, SendActivate(accepted)).stage == if all then Activating({}, true) else Failed)
  {
    if forall i :: 0 <= i < |s.queues| ==> i in accepted && i !in s.retired { assert 0 !in s.retired; }
  }

  /** An awaited reply is counted once: the reload is ready, or voted, exactly when the last outstanding
      worker has answered and every answer was a yes; one no fails it when all have answered. */
  lemma VotesAreCounted(s: System, reply: Reply)
    requires s.Shaped() && reply.sequence == s.current
    ensures s.stage.Preparing? && reply.kind.PrepareReply? && reply.worker !in s.stage.seen ==>
              var seen, ok := s.stage.seen + {reply.worker}, s.stage.ok && reply.ok;
              Take(s, reply) == s.(stage := if !AllAnswered(s, seen, s.retired) then Preparing(seen, ok) else if ok then Ready else Failed)
    ensures s.stage.Activating? && reply.kind.ActivateReply? && reply.worker !in s.stage.seen ==>
              var seen, ok := s.stage.seen + {reply.worker}, s.stage.ok && reply.ok;
              Take(s, reply) == s.(stage := if !AllAnswered(s, seen, s.retired) then Activating(seen, ok) else if ok then Voted else Failed)
  {
  }

  /** A rollback is confirmed exactly when every worker has answered yes or is known to have retired, and
      then the plane stops if any has; a no, or a second answer of one worker, leaves it unconfirmed
      and stops the plane. A retirement counts as an answer. */
  lemma RollbackIsCounted(s: System, reply: Reply)
    requires s.Shaped() && s.stage.RollingBack?
    ensures reply.sequence == s.current && reply.kind.RollbackReply? ==>
              var seen, ok, t := s.stage.seen + {reply.worker}, s.stage.ok && reply.ok, Take(s, reply);
              if reply.worker in s.stage.seen || (AllAnswered(s, seen, s.retired) && !ok) then t == s.(stage := Idle, unconfirmed := true, stopping := true)
              else if AllAnswered(s, seen, s.retired) then t == s.(stage := Idle, stopping := s.stopping || s.retired != {})
              else t == s.(stage := RollingBack(seen, ok))
    ensures reply.kind.RetiredReply? ==>
              var retired, t := s.retired + {reply.worker}, Take(s, reply);
              if !AllAnswered(s, s.stage.seen, retired) then t == s.(retired := retired)
              else if s.stage.ok then t == s.(retired := retired, stage := Idle, stopping := true)
              else t == s.(retired := retired, stage := Idle, unconfirmed := true, stopping := true)
  {
  }

  /** What is not awaited changes nothing but the knowledge of a retirement, which fails a vote; a second
      answer of one worker fails it too. */
  lemma OthersAreIgnored(s: System, reply: Reply)
    requires s.Shaped() && (s.stage.Preparing? || s.stage.Activating? || s.stage.Idle?)
    ensures var awaited := reply.sequence == s.current && if s.stage.Preparing? then reply.kind.PrepareReply? else s.stage.Activating? && reply.kind.ActivateReply?;
            && (reply.kind.RetiredReply? ==>
                  Take(s, reply) == s.(retired := s.retired + {reply.worker}, stage := if s.stage.Idle? then Idle else Failed))
            && (!reply.kind.RetiredReply? && !awaited ==> Take(s, reply) == s)
            && (awaited && reply.worker in s.stage.seen ==> Take(s, reply) == s.(stage := Failed))
  {
  }
}
