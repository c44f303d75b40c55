/** The coordinator's loops as the source writes them: `send` over every worker channel and
    `receive` collecting replies, proved against the step functions of module DataPlane. */
module DataPlaneControl {
  import opened Wrappers
  import opened DataPlane
  import W = DataWorker

  datatype Outcome = Collected | Waiting | Refused

  function TakeAll(s: System, replies: seq<Reply>): (r: System)
    decreases |replies|
  {
    if replies == [] then s else Take(TakeAll(s, replies[..|replies| - 1]), replies[|replies| - 1])
  }

  function Marked(bits: seq<bool>): (r: set<nat>)
    ensures forall i: nat :: i in r <==> i < |bits| && bits[i]
  {
    set i: nat | i < |bits| && bits[i]
  }

  function StageOf(kind: ReplyKind, seen: set<nat>, ok: bool): Stage
    requires kind.PrepareReply? || kind.ActivateReply? || kind.RollbackReply?
  {
    match kind
    case PrepareReply => Preparing(seen, ok)
    case ActivateReply => Activating(seen, ok)
    case _ => RollingBack(seen, ok)
  }

  /** The system while the coordinator collects, as its own variables describe it. */
  function Collecting(start: System, kind: ReplyKind, seen: seq<bool>, ok: bool, retired: seq<bool>): System
    requires kind.PrepareReply? || kind.ActivateReply? || kind.RollbackReply?
  {
    start.(stage := StageOf(kind, Marked(seen), ok), retired := Marked(retired))
  }

  /** What has been taken so far, seen by the step functions. */
  ghost predicate InStep(start: System, kind: ReplyKind, seen: seq<bool>, ok: bool, retired: seq<bool>, arrivals: seq<Reply>, taken: nat)
    requires kind.PrepareReply? || kind.ActivateReply? || kind.RollbackReply?
  {
    taken <= |arrivals| && Advance(Collecting(start, kind, seen, ok, retired)) == TakeAll(Advance(start), arrivals[..taken])
  }

  lemma CollectingStarts(start: System, kind: ReplyKind, seen: seq<bool>, retired: seq<bool>, arrivals: seq<Reply>)
    requires kind.PrepareReply? || kind.ActivateReply? || kind.RollbackReply?
    requires start.stage == StageOf(kind, {}, true) && start.retired == Marked(retired) && forall i :: 0 <= i < |seen| ==> !seen[i]
    ensures InStep(start, kind, seen, true, retired, arrivals, 0)
  {
    assert Marked(seen) == {};
    assert Collecting(start, kind, seen, true, retired) == start;
    assert arrivals[..0] == [];
  }

  /** One reply taken while some worker is still awaited. */
  lemma TakeWhileWaiting(s: System, kind: ReplyKind, seen: set<nat>, ok: bool, reply: Reply)
    requires kind.PrepareReply? || kind.ActivateReply? || kind.RollbackReply?
    requires s.stage == StageOf(kind, seen, ok) && !Complete(s, seen)
    ensures Advance(s) == s
    ensures var matching := reply.sequence == s.current && reply.kind == kind;
            var next := Take(s, reply);
            if reply.kind.RetiredReply? then
              if kind.RollbackReply? then next == Advance(s.(retired := s.retired + {reply.worker})) else next.stage.Failed?
            else if !matching then next == s
            else if reply.worker in seen then if kind.RollbackReply? then next.unconfirmed else next.stage.Failed?
            else next == Advance(s.(stage := StageOf(kind, seen + {reply.worker}, ok && reply.ok)))
  {
  }

  lemma AdvanceWhenComplete(s: System, kind: ReplyKind, seen: set<nat>, ok: bool)
    requires kind.PrepareReply? || kind.ActivateReply? || kind.RollbackReply?
    requires s.stage == StageOf(kind, seen, ok)
    ensures !Complete(s, seen) ==> Advance(s) == s
    ensures Complete(s, seen) ==> Advance(s).stage == DoneStage(kind, ok)
    ensures Complete(s, seen) && kind.RollbackReply? ==> (Advance(s).unconfirmed <==> s.unconfirmed || !ok)
    ensures Advance(s).retired == s.retired
  {
  }

  /** The stage reached once every awaited worker has answered. */
  function DoneStage(kind: ReplyKind, ok: bool): Stage {
    if kind.RollbackReply? then Idle else if !ok then Failed else if kind.PrepareReply? then Ready else Voted
  }

  /** What the end of the collecting loop means for the system `t` reached by the step functions. */
  ghost predicate Ended(outcome: Outcome, kind: ReplyKind, seen: seq<bool>, ok: bool, retired: seq<bool>, start: System, t: System)
    requires kind.PrepareReply? || kind.ActivateReply? || kind.RollbackReply?
  {
    match outcome
    case Collected =>
      && (forall i :: 0 <= i < |seen| && i < |retired| ==> seen[i] || retired[i])
      && t.stage == DoneStage(kind, ok) && t.retired == Marked(retired)
      && (kind.RollbackReply? ==> (t.unconfirmed <==> start.unconfirmed || !ok))
    case Waiting => t.stage == StageOf(kind, Marked(seen), ok) && t.retired == Marked(retired)
    case Refused => if kind.RollbackReply? then t.unconfirmed else t.stage.Failed?
  }

  lemma TakeAllStep(s: System, replies: seq<Reply>, k: nat)
    requires k < |replies|
    ensures TakeAll(s, replies[..k + 1]) == Take(TakeAll(s, replies[..k]), replies[k])
  {
    assert replies[..k + 1][..k] == replies[..k];
  }

  class Coordinator {
    var queues: seq<seq<W.Request>>
    var retired: seq<bool>
    var sequence: nat
    var committed: nat

    ghost predicate Valid()
      reads this
    {
      |queues| == |retired|
    }

    constructor (n: nat)
      ensures Valid() && |queues| == n && committed == 0 && sequence == 0
      ensures forall i :: 0 <= i < n ==> queues[i] == [] && !retired[i]
    {
      queues, retired := seq(n, _ => []), seq(n, _ => false);
      sequence, committed := 0, 0;
    }

    /** send: one rejection cannot skip the other workers, and every request carries the decision. */
    method Send(request: W.Request, allowRetired: bool, accepts: seq<bool>) returns (ok: bool)
      requires Valid() && |accepts| == |queues|
      modifies this`queues
      ensures Valid()
      ensures queues == Enqueue(old(queues), Marked(accepts) - Marked(retired), request.(committed := committed))
      ensures ok <==> forall i :: 0 <= i < |accepts| ==> if retired[i] then allowRetired else accepts[i]
    {
      var stamped := request.(committed := committed);
      ok := true;
      var index := 0;
      while index < |queues|
        invariant 0 <= index <= |queues| == |old(queues)|
        invariant forall i :: 0 <= i < |queues| ==>
                    queues[i] == if i < index && accepts[i] && !retired[i] then old(queues)[i] + [stamped] else old(queues)[i]
        invariant ok <==> forall i :: 0 <= i < index ==> if retired[i] then allowRetired else accepts[i]
      {
        if retired[index] {
          if !allowRetired {
            ok := false;
          }
        } else if accepts[index] {
          queues := queues[index := queues[index] + [stamped]];
        } else {
          ok := false;
        }
        index := index + 1;
      }
    }

    /** commit_reload: the decision is recorded before any finalize is sent, and a lost finalize changes nothing else. */
    method CommitReload(reload: nat, accepts: seq<bool>)
      requires Valid() && |accepts| == |queues|
      modifies this`queues, this`committed
      ensures Valid() && committed == reload
      ensures queues == Enqueue(old(queues), Marked(accepts), W.Request(W.Finalize, reload, reload))
    {
      committed := reload;
      var index := 0;
      while index < |queues|
        invariant 0 <= index <= |queues| == |old(queues)| && committed == reload
        invariant forall i :: 0 <= i < |queues| ==>
                    queues[i] == if i < index && accepts[i]
                                 then old(queues)[i] + [W.Request(W.Finalize, reload, reload)] else old(queues)[i]
      {
        if accepts[index] {
          queues := queues[index := queues[index] + [W.Request(W.Finalize, reload, committed)]];
        }
        index := index + 1;
      }
    }

    method IsComplete(seen: seq<bool>) returns (complete: bool)
      requires Valid() && |seen| == |queues|
      ensures complete <==> forall i :: 0 <= i < |seen| ==> seen[i] || retired[i]
    {
      var index := 0;
      while index < |queues|
        invariant 0 <= index <= |queues|
        invariant forall i :: 0 <= i < index ==> seen[i] || retired[i]
      {
        if !seen[index] && !retired[index] {
          return false;
        }
        index := index + 1;
      }
      return true;
    }

    /** The body of `receive` for one reply: `s` is the collecting system before it, with this
        coordinator's retired workers, and the result matches the step function. */
    method Count(kind: ReplyKind, current: nat, reply: Reply, seen: seq<bool>, ok: bool, ghost s: System)
      returns (next: seq<bool>, vote: bool, refused: bool)
      requires Valid() && |seen| == |queues| && reply.worker < |queues|
      requires kind.PrepareReply? || kind.ActivateReply? || kind.RollbackReply?
      requires s.stage == StageOf(kind, Marked(seen), ok) && s.retired == Marked(retired) && s.current == current
      requires !Complete(s, Marked(seen))
      modifies this`retired
      ensures Valid() && |next| == |seen|
      ensures refused ==> if kind.RollbackReply? then Take(s, reply).unconfirmed else Take(s, reply).stage.Failed?
      ensures !refused ==>
                Take(s, reply) == Advance(s.(stage := StageOf(kind, Marked(next), vote), retired := Marked(retired)))
    {
      TakeWhileWaiting(s, kind, Marked(seen), ok, reply);
      next, vote, refused := seen, ok, false;
      if reply.kind.RetiredReply? {
        assert Marked(retired[reply.worker := true]) == s.retired + {reply.worker};
        retired := retired[reply.worker := true];
        refused := !kind.RollbackReply?;
      } else if reply.sequence == current && reply.kind == kind {
        if seen[reply.worker] {
          refused := true;
        } else {
          assert Marked(seen[reply.worker := true]) == Marked(seen) + {reply.worker};
          next := seen[reply.worker := true];
          vote := ok && reply.ok;
        }
      }
    }

    /** receive: takes replies until every awaited worker has answered. `start` is the system in
        which the request has just been sent; the stage reached is the one of the step system. */
    method Collect(kind: ReplyKind, current: nat, arrivals: seq<Reply>, ghost start: System)
      returns (outcome: Outcome, seen: seq<bool>, ok: bool, taken: nat)
      requires Valid() && |start.queues| == |queues| && start.current == current && start.retired == Marked(retired)
      requires kind.PrepareReply? || kind.ActivateReply? || kind.RollbackReply?
      requires start.stage == StageOf(kind, {}, true)
      requires forall r :: r in arrivals ==> r.worker < |queues|
      modifies this`retired
      ensures Valid() && taken <= |arrivals| && |seen| == |queues|
      ensures outcome.Waiting? ==> taken == |arrivals|
      ensures Ended(outcome, kind, seen, ok, retired, start, TakeAll(Advance(start), arrivals[..taken]))
    {
      seen, ok, taken := seq(|queues|, _ => false), true, 0;
      CollectingStarts(start, kind, seen, retired, arrivals);
      var end: Option<Outcome> := None;
      while end.None?
        invariant Valid() && |seen| == |queues| && taken <= |arrivals|
        invariant end.None? ==> InStep(start, kind, seen, ok, retired, arrivals, taken)
        invariant end == Some(Waiting) ==> taken == |arrivals|
        invariant end.Some? ==> Ended(end.value, kind, seen, ok, retired, start, TakeAll(Advance(start), arrivals[..taken]))
        decreases |arrivals| - taken, end.None?
      {
        end, seen, ok, taken := CollectOne(kind, current, arrivals, seen, ok, taken, start);
      }
      outcome := end.value;
    }

    /** One turn of the loop of `receive`. */
    method CollectOne(kind: ReplyKind, current: nat, arrivals: seq<Reply>, seen0: seq<bool>, ok0: bool, taken0: nat, ghost start: System)
      returns (end: Option<Outcome>, seen: seq<bool>, ok: bool, taken: nat)
      requires Valid() && |seen0| == |queues| == |start.queues| && start.current == current
      requires kind.PrepareReply? || kind.ActivateReply? || kind.RollbackReply?
      requires forall r :: r in arrivals ==> r.worker < |queues|
      requires InStep(start, kind, seen0, ok0, retired, arrivals, taken0)
      modifies this`retired
      ensures Valid() && |seen| == |queues| && taken0 <= taken <= |arrivals|
      ensures end == Some(Waiting) ==> taken == |arrivals|
      ensures end.None? ==> taken == taken0 + 1 && InStep(start, kind, seen, ok, retired, arrivals, taken)
      ensures end.Some? ==> Ended(end.value, kind, seen, ok, retired, start, TakeAll(Advance(start), arrivals[..taken]))
    {
      seen, ok, taken := seen0, ok0, taken0;
      ghost var s := Collecting(start, kind, seen, ok, retired);
      var complete := IsComplete(seen);
      AdvanceWhenComplete(s, kind, Marked(seen), ok);
      if complete {
        return Some(Collected), seen, ok, taken;
      }
      if taken == |arrivals| {
        return Some(Waiting), seen, ok, taken;
      }
      TakeAllStep(Advance(start), arrivals, taken);
      var next, vote, refused := Count(kind, current, arrivals[taken], seen, ok, s);
      taken := taken + 1;
      if refused {
        return Some(Refused), seen, ok, taken;
      }
      end, seen, ok := None, next, vote;
    }
  }
}
