/** Publication by compare-and-swap (node/data/response_cache.h, response_cache_publication::publish). */
module CachePublication {
  // A worker loads the current immutable object, computes a replacement from it and swaps it in
  // only if the current object is still the one it loaded. Objects are compared by identity, here
  // by version.

  datatype Attempt<T> = Attempt(snapshot: T, version: nat)

  /** `log` lists every object ever published, oldest first; the last one is current. */
  datatype Shared<T> = Shared(log: seq<T>, attempts: map<nat, Attempt<T>>)

  datatype Step<T> =
    | Load(worker: nat)
    | Publish(worker: nat, replacement: T, spurious: bool)

  function Current<T>(s: Shared<T>): T
    requires s.log != []
  {
    s.log[|s.log| - 1]
  }

  /** A worker publishes only what an operation computes from its own snapshot. */
  ghost predicate Enabled<T>(s: Shared<T>, step: Step<T>, operation: (T, T) -> bool) {
    step.Publish? ==> step.worker in s.attempts && operation(s.attempts[step.worker].snapshot, step.replacement)
  }

  /** A failed exchange, real or spurious, reloads the current object. */
  function Apply<T>(s: Shared<T>, step: Step<T>): (n: Shared<T>)
    requires s.log != []
    ensures n.log != []
  {
    match step
    case Load(w) => s.(attempts := s.attempts[w := Attempt(Current(s), |s.log|)])
    case Publish(w, replacement, spurious) =>
      if w !in s.attempts then s
      else if !spurious && s.attempts[w].version == |s.log|
      then Shared(s.log + [replacement], s.attempts - {w})
      else s.(attempts := s.attempts[w := Attempt(Current(s), |s.log|)])
  }

  ghost predicate IsRun<T>(s: Shared<T>, steps: seq<Step<T>>, operation: (T, T) -> bool)
    requires s.log != []
    decreases |steps|
  {
    steps == [] || (Enabled(s, steps[0], operation) && IsRun(Apply(s, steps[0]), steps[1..], operation))
  }

  function Exec<T>(s: Shared<T>, steps: seq<Step<T>>): (n: Shared<T>)
    requires s.log != []
    ensures n.log != []
    decreases |steps|
  {
    if steps == [] then s else Exec(Apply(s, steps[0]), steps[1..])
  }

  ghost predicate Chain<T>(log: seq<T>, operation: (T, T) -> bool) {
    forall i :: 0 <= i < |log| - 1 ==> operation(log[i], log[i + 1])
  }

  ghost predicate Snapshots<T>(s: Shared<T>) {
    forall w :: w in s.attempts ==>
      0 < s.attempts[w].version <= |s.log| && s.attempts[w].snapshot == s.log[s.attempts[w].version - 1]
  }

  /** Under any interleaving every published object is one operation applied to the object
      published just before it: each operation takes effect atomically and no update is lost. */
  lemma {:induction false} PublicationIsAtomic<T>(s: Shared<T>, steps: seq<Step<T>>, operation: (T, T) -> bool)
    requires s.log != [] && Chain(s.log, operation) && Snapshots(s) && IsRun(s, steps, operation)
    ensures Chain(Exec(s, steps).log, operation) && s.log <= Exec(s, steps).log
    decreases |steps|
  {
    if steps != [] {
      var n := Apply(s, steps[0]);
      assert Snapshots(n);
      assert Chain(n.log, operation) by {
        forall i | 0 <= i < |n.log| - 1 ensures operation(n.log[i], n.log[i + 1]) {
          if i < |s.log| - 1 { assert operation(s.log[i], s.log[i + 1]); }
        }
      }
      PublicationIsAtomic(n, steps[1..], operation);
    }
  }

  /** Whatever each operation carries on holds between any published object and every later one. */
  lemma {:induction false} ChainCarries<T(!new)>(log: seq<T>, i: nat, j: nat, operation: (T, T) -> bool, follows: (T, T) -> bool)
    requires i <= j < |log| && Chain(log, operation) && follows(log[i], log[i])
    requires forall a, b, c | follows(a, b) && operation(b, c) :: follows(a, c)
    ensures follows(log[i], log[j])
    decreases j - i
  {
    if i < j {
      ChainCarries(log, i, j - 1, operation, follows);
      assert operation(log[j - 1], log[j - 1 + 1]);
    }
  }
}
