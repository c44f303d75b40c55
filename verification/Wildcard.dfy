/** The greedy wildcard matcher of cache rules (node/data/response_cache.h, cache_wildcard and matching)
    against the recursive meaning of `*` and `?`. */
module Wildcard {

  /** The value from i on matches the pattern from j on: `*` stands for any text, `?` for any one
      character. */
  predicate GlobAt(v: string, p: string, i: nat, j: nat)
    requires i <= |v| && j <= |p|
    decreases |p| - j + |v| - i
  {
    if j == |p| then i == |v|
    else if p[j] == '*' then GlobAt(v, p, i, j + 1) || (i < |v| && GlobAt(v, p, i + 1, j))
    else i < |v| && (p[j] == '?' || p[j] == v[i]) && GlobAt(v, p, i + 1, j + 1)
  }

  predicate Glob(v: string, p: string) { GlobAt(v, p, 0, 0) }

  predicate StarsFrom(p: string, j: nat) { forall t :: j <= t < |p| ==> p[t] == '*' }

  // ---------------------------------------------------------------------------
  // The loop
  // ---------------------------------------------------------------------------

  /** Positions of the loop; `star` is -1 until a star has been passed. */
  datatype Place = Place(at: int, next: int, star: int, retry: int)

  predicate Sound(v: string, p: string, q: Place) {
    0 <= q.at <= |v| && 0 <= q.next <= |p| && -1 <= q.star < q.next && 0 <= q.retry <= q.at
  }

  predicate Same(v: string, p: string, q: Place)
    requires Sound(v, p, q)
  {
    q.at < |v| && q.next < |p| && (p[q.next] == '?' || p[q.next] == v[q.at])
  }

  predicate Star(v: string, p: string, q: Place)
    requires Sound(v, p, q)
  {
    q.next < |p| && p[q.next] == '*'
  }

  function Consume(q: Place): Place { q.(at := q.at + 1, next := q.next + 1) }

  function PassStar(q: Place): Place { Place(q.at, q.next + 1, q.next, q.at) }

  function Retry(q: Place): Place { Place(q.retry + 1, q.star + 1, q.star, q.retry + 1) }

  /** What the loop answers from a place on; it ends because the star only moves right, between two
      stars the retry only moves right, and between two retries the position does. */
  predicate Greedy(v: string, p: string, q: Place)
    requires Sound(v, p, q)
    decreases |p| - q.star, |v| - q.retry, |v| - q.at
  {
    if q.at == |v| then StarsFrom(p, q.next)
    else if Same(v, p, q) then Greedy(v, p, Consume(q))
    else if Star(v, p, q) then Greedy(v, p, PassStar(q))
    else q.star >= 0 && Greedy(v, p, Retry(q))
  }

  function Start(): Place { Place(0, 0, -1, 0) }

  predicate Matches(v: string, p: string) { Greedy(v, p, Start()) }

  method CacheWildcard(value: string, pattern: string) returns (r: bool)
    ensures r == Matches(value, pattern)
  {
    var at, next, star, retry := 0, 0, -1, 0;
    while at < |value|
      invariant Sound(value, pattern, Place(at, next, star, retry))
      invariant Greedy(value, pattern, Place(at, next, star, retry)) == Matches(value, pattern)
      decreases |pattern| - star, |value| - retry, |value| - at
    {
      if next < |pattern| && (pattern[next] == '?' || pattern[next] == value[at]) {
        at, next := at + 1, next + 1;
      } else if next < |pattern| && pattern[next] == '*' {
        star, next, retry := next, next + 1, at;
      } else if star != -1 {
        next, retry := star + 1, retry + 1;
        at := retry;
      } else {
        return false;
      }
    }
    ghost var before := next;
    while next < |pattern| && pattern[next] == '*'
      invariant before <= next <= |pattern| && forall t :: before <= t < next ==> pattern[t] == '*'
    {
      next := next + 1;
    }
    r := next == |pattern|;
  }

  // ---------------------------------------------------------------------------
  // Soundness
  // ---------------------------------------------------------------------------

  /** A star takes in any text before a match of what follows it. */
  lemma {:induction false} StarAbsorbs(v: string, p: string, i: nat, k: nat, j: nat)
    requires i <= k <= |v| && j < |p| && p[j] == '*' && GlobAt(v, p, k, j + 1)
    ensures GlobAt(v, p, i, j)
    decreases k - i
  {
    if i < k { StarAbsorbs(v, p, i + 1, k, j); }
  }

  lemma {:induction false} StarsMatchNothing(v: string, p: string, j: nat)
    requires j <= |p|
    ensures GlobAt(v, p, |v|, j) <==> StarsFrom(p, j)
    decreases |p| - j
  {
    if j < |p| { StarsMatchNothing(v, p, j + 1); }
  }

  /** A later retry of the star of a place would match. */
  ghost predicate RetryMatches(v: string, p: string, q: Place)
    requires Sound(v, p, q)
  {
    q.star >= 0 && MatchAfter(v, p, q.retry + 1, q.star + 1)
  }

  /** The pattern from j on matches the value from some place at or after `from`. */
  ghost predicate MatchAfter(v: string, p: string, from: nat, j: nat)
    requires j <= |p|
  {
    exists k :: from <= k <= |v| && GlobAt(v, p, k, j)
  }

  ghost predicate Hope(v: string, p: string, q: Place)
    requires Sound(v, p, q)
  {
    GlobAt(v, p, q.at, q.next) || RetryMatches(v, p, q)
  }

  lemma StarIsSound(v: string, p: string, q: Place)
    requires Sound(v, p, q) && Star(v, p, q) && Hope(v, p, PassStar(q))
    ensures Hope(v, p, q)
  {
    if RetryMatches(v, p, PassStar(q)) {
      var k :| q.at < k <= |v| && GlobAt(v, p, k, q.next + 1);
      StarAbsorbs(v, p, q.at, k, q.next);
    }
  }

  lemma SameIsSound(v: string, p: string, q: Place)
    requires Sound(v, p, q) && Same(v, p, q) && Hope(v, p, Consume(q))
    ensures Hope(v, p, q)
  {
    if GlobAt(v, p, q.at + 1, q.next + 1) && p[q.next] == '*' { StarAbsorbs(v, p, q.at, q.at + 1, q.next); }
  }

  lemma {:induction false} GreedyIsSound(v: string, p: string, q: Place)
    requires Sound(v, p, q) && Greedy(v, p, q)
    ensures Hope(v, p, q)
    decreases |p| - q.star, |v| - q.retry, |v| - q.at
  {
    if q.at == |v| {
      StarsMatchNothing(v, p, q.next);
    } else if Same(v, p, q) {
      GreedyIsSound(v, p, Consume(q));
      SameIsSound(v, p, q);
    } else if Star(v, p, q) {
      GreedyIsSound(v, p, PassStar(q));
      StarIsSound(v, p, q);
    } else {
      GreedyIsSound(v, p, Retry(q));
    }
  }

  /** Whatever the loop accepts, the pattern means, for every value. */
  lemma AcceptedMeansGlob(v: string, p: string)
    requires Matches(v, p)
    ensures Glob(v, p)
  {
    GreedyIsSound(v, p, Start());
  }

  // ---------------------------------------------------------------------------
  // Completeness for values without a star
  // ---------------------------------------------------------------------------

  /** Since its star the loop has matched a stretch of the pattern without stars. */
  predicate Aligned(v: string, p: string, q: Place)
    requires Sound(v, p, q)
  {
    q.star >= 0 ==> q.at - q.retry == q.next - (q.star + 1) && forall t :: q.star < t < q.next ==> p[t] != '*'
  }

  /** A match of a stretch without stars uses up as many characters. */
  lemma {:induction false} StretchIsPassed(v: string, p: string, i: nat, j: nat, n: nat)
    requires i <= |v| && j + n <= |p| && (forall t :: j <= t < j + n ==> p[t] != '*') && GlobAt(v, p, i, j)
    ensures i + n <= |v| && GlobAt(v, p, i + n, j + n)
    decreases n
  {
    if n > 0 { StretchIsPassed(v, p, i + 1, j + 1, n - 1); }
  }

  /** Where a retry would match, the place where the loop stands lies before it. */
  lemma RetryReaches(v: string, p: string, q: Place) returns (k: nat)
    requires Sound(v, p, q) && Aligned(v, p, q) && RetryMatches(v, p, q)
    ensures q.at < k <= |v| && GlobAt(v, p, k, q.next)
  {
    var r :| q.retry < r <= |v| && GlobAt(v, p, r, q.star + 1);
    StretchIsPassed(v, p, r, q.star + 1, q.next - (q.star + 1));
    k := r + (q.next - (q.star + 1));
  }

  lemma StarIsComplete(v: string, p: string, q: Place)
    requires Sound(v, p, q) && Aligned(v, p, q) && Star(v, p, q) && Hope(v, p, q)
    ensures Hope(v, p, PassStar(q)) && Aligned(v, p, PassStar(q))
  {
    if !GlobAt(v, p, q.at, q.next) {
      var k := RetryReaches(v, p, q);
      StarAbsorbs2(v, p, q.at, k, q.next);
    }
    StarOpens(v, p, q.at, q.next);
  }

  /** A star match later on is a star match here. */
  lemma {:induction false} StarAbsorbs2(v: string, p: string, i: nat, k: nat, j: nat)
    requires i <= k <= |v| && j < |p| && p[j] == '*' && GlobAt(v, p, k, j)
    ensures GlobAt(v, p, i, j)
    decreases k - i
  {
    if i < k { StarAbsorbs2(v, p, i + 1, k, j); }
  }

  /** A star match begins what follows it here or later. */
  lemma {:induction false} StarOpens(v: string, p: string, i: nat, j: nat)
    requires i <= |v| && j < |p| && p[j] == '*' && GlobAt(v, p, i, j)
    ensures MatchAfter(v, p, i, j + 1)
    decreases |v| - i
  {
    if !GlobAt(v, p, i, j + 1) { StarOpens(v, p, i + 1, j); }
  }

  lemma EndIsComplete(v: string, p: string, q: Place)
    requires Sound(v, p, q) && Aligned(v, p, q) && q.at == |v| && Hope(v, p, q)
    ensures StarsFrom(p, q.next)
  {
    StarsMatchNothing(v, p, q.next);
    if !GlobAt(v, p, q.at, q.next) {
      var k := RetryReaches(v, p, q);
    }
  }

  lemma RetryIsComplete(v: string, p: string, q: Place)
    requires Sound(v, p, q) && Aligned(v, p, q) && Hope(v, p, q) && q.at < |v| && !Same(v, p, q) && !Star(v, p, q)
    ensures q.star >= 0 && Hope(v, p, Retry(q)) && Aligned(v, p, Retry(q))
  {
  }

  lemma {:induction false} GreedyIsComplete(v: string, p: string, q: Place)
    requires '*' !in v && Sound(v, p, q) && Aligned(v, p, q) && Hope(v, p, q)
    ensures Greedy(v, p, q)
    decreases |p| - q.star, |v| - q.retry, |v| - q.at
  {
    if q.at == |v| {
      EndIsComplete(v, p, q);
    } else if Same(v, p, q) {
      assert v[q.at] in v;
      GreedyIsComplete(v, p, Consume(q));
    } else if Star(v, p, q) {
      StarIsComplete(v, p, q);
      GreedyIsComplete(v, p, PassStar(q));
    } else {
      RetryIsComplete(v, p, q);
      GreedyIsComplete(v, p, Retry(q));
    }
  }

  // ---------------------------------------------------------------------------
  // The exact condition
  // ---------------------------------------------------------------------------

  ghost predicate Agree(v: string) { forall p: string :: Matches(v, p) <==> Glob(v, p) }

  /** Up to a common prefix both walk in step. */
  lemma {:induction false} PrefixIsWalked(v: string, p: string, i: nat, n: nat)
    requires i <= n <= |v| && n <= |p| && v[..n] == p[..n] && '*' !in v[..n]
    ensures Greedy(v, p, Place(i, i, -1, 0)) == Greedy(v, p, Place(n, n, -1, 0))
    ensures GlobAt(v, p, i, i) == GlobAt(v, p, n, n)
    decreases n - i
  {
    if i < n {
      assert v[i] == v[..n][i] == p[..n][i] == p[i] && v[i] in v[..n];
      PrefixIsWalked(v, p, i + 1, n);
    }
  }

  /** A star in the value that the pattern repeats is taken literally, and the match is missed. */
  lemma StarIsMissed(v: string, n: nat)
    requires n < |v| && v[n] == '*' && '*' !in v[..n]
    ensures exists p: string :: Glob(v, p) && !Matches(v, p)
  {
    var p := v[..n] + if n + 1 < |v| then "*" else "*?";
    assert p[..n] == v[..n] && p[n] == '*';
    PrefixIsWalked(v, p, 0, n);
    if n + 1 < |v| {
      StarAbsorbs(v, p, n, |v|, n);
      assert !Greedy(v, p, Place(n + 1, n + 1, -1, 0));
    } else {
      assert GlobAt(v, p, n + 1, n + 2) && GlobAt(v, p, n, n + 1);
      assert p[n + 1] == '?' && !Greedy(v, p, Place(n + 1, n + 1, -1, 0));
    }
    assert !Greedy(v, p, Place(n, n, -1, 0));
    assert Glob(v, p) && !Matches(v, p);
  }

  lemma {:induction false} FirstStar(v: string) returns (n: nat)
    requires '*' in v
    ensures n < |v| && v[n] == '*' && '*' !in v[..n]
  {
    n := 0;
    while v[n] != '*'
      invariant n < |v| && '*' !in v[..n]
      invariant exists t :: n <= t < |v| && v[t] == '*'
      decreases |v| - n
    {
      n := n + 1;
    }
  }

  /** The loop answers as the pattern means, for every pattern, exactly for the values without a star. */
  lemma AgreesExactlyWithoutStars(v: string)
    ensures Agree(v) <==> '*' !in v
  {
    if '*' in v {
      var n := FirstStar(v);
      StarIsMissed(v, n);
    } else {
      forall p: string ensures Matches(v, p) <==> Glob(v, p) {
        if Matches(v, p) { AcceptedMeansGlob(v, p); }
        if Glob(v, p) { GreedyIsComplete(v, p, Start()); }
      }
    }
  }

  /** The value "*a" is not found by the pattern "*", although everything matches it. */
  lemma StarMissesStarA()
    ensures Glob("*a", "*") && !Matches("*a", "*")
  {
    var v, p := "*a", "*";
    StarAbsorbs(v, p, 0, 2, 0);
    assert !Greedy(v, p, Place(1, 1, -1, 0));
  }
}
