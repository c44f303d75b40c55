/** The loops that feed a range response (node/data/http_session.h). */
module RangeDrivers {
  // A cached body is read by jumps, an origin body is fetched in aligned blocks that arrive in any
  // chunks, and there is one plain pass. All three put out the same payload. The reading sizes are
  // whatever the network and buffers give.

  import opened Wrappers
  import opened CacheRange
  import opened RangeResponse

  const BLOCK: nat := 1024 * 1024

  /** One call of consume on body[offset..end]. */
  method Feed(r: Response, body: string, offset: nat, end: nat) returns (out: string)
    requires r.Valid() && |body| == r.plan.total && offset <= end <= |body| && Ready(r.plan, r.At(), offset)
    modifies r`index, r`consumed
    ensures r.Valid() && Ready(r.plan, r.At(), end)
    ensures out + Rest(r.plan, body, r.At()) == Rest(r.plan, body, old(r.At()))
  {
    ghost var c := r.At();
    out := r.Consume(body[offset..end], offset);
    if r.plan.ignored {
      SliceSplits(body, offset, end, |body|, "");
      assert body[offset..] == body[offset..|body|] == body[offset..|body|] + "" && body[end..] == body[end..|body|] + "";
    } else {
      ProjectDelivers(r.plan, body, offset, end, c);
    }
  }

  /** Feeding also keeps what was put out before it in place. */
  method FeedMore(r: Response, body: string, offset: nat, end: nat, output: string) returns (next: string)
    requires r.Valid() && |body| == r.plan.total && offset <= end <= |body| && Ready(r.plan, r.At(), offset)
    modifies r`index, r`consumed
    ensures r.Valid() && Ready(r.plan, r.At(), end)
    ensures next + Rest(r.plan, body, r.At()) == output + Rest(r.plan, body, old(r.At()))
  {
    var out := Feed(r, body, offset, end);
    Regroup(output, out, Rest(r.plan, body, r.At()), "");
    next := output + out;
  }

  /** A place that is ready at the end of the body leaves nothing to do. */
  lemma EndIsDone(p: Plan, body: string, c: Cursor)
    requires Sound(p) && |body| == p.total && InRange(p, c) && Ready(p, c, p.total)
    ensures IsDone(p, c)
  {
  }

  /** While something is owed, the next offset lies inside the body and may begin a chunk. */
  lemma NextOffsetIsReady(p: Plan, c: Cursor)
    requires Sound(p) && InRange(p, c) && !IsDone(p, c)
    ensures NextOffsetOf(p, c) < p.total && Ready(p, c, NextOffsetOf(p, c))
  {
    if !p.ignored { assert End(p.ranges[c.index]) <= p.total && p.ranges[c.index].length > 0; }
  }

  /** No byte at or after a ready place is skipped by jumping to the next offset. */
  lemma ReadyIsBeforeNext(p: Plan, c: Cursor, offset: nat)
    requires Sound(p) && InRange(p, c) && !IsDone(p, c) && Ready(p, c, offset)
    ensures offset <= NextOffsetOf(p, c)
  {
  }

  lemma StartOwesAll(p: Plan, body: string)
    requires Sound(p) && |body| == p.total
    ensures InRange(p, Cursor(0, 0)) && Ready(p, Cursor(0, 0), 0) && "" + Rest(p, body, Cursor(0, 0)) == Expected(p, body)
  {
    assert "" + Expected(p, body) == Expected(p, body);
  }

  lemma FinishedOutput(p: Plan, body: string, c: Cursor, output: string)
    requires Sound(p) && |body| == p.total && InRange(p, c) && IsDone(p, c)
    requires output + Rest(p, body, c) == Expected(p, body)
    ensures output == Expected(p, body)
  {
    DoneMeansNothingOwed(p, body, c);
    assert output + "" == output;
  }

  /** One pass over the body, cut anywhere. */
  method WriteThrough(r: Response, body: string) returns (output: string)
    requires r.Valid() && r.At() == Cursor(0, 0) && |body| == r.plan.total
    modifies r`index, r`consumed
    ensures output == Expected(r.plan, body)
  {
    var offset := 0;
    output := "";
    StartOwesAll(r.plan, body);
    while offset < |body|
      invariant r.Valid() && offset <= |body| && Ready(r.plan, r.At(), offset)
      invariant output + Rest(r.plan, body, r.At()) == Expected(r.plan, body)
    {
      var end :| offset < end <= |body|;
      output := FeedMore(r, body, offset, end, output);
      offset := end;
    }
    EndIsDone(r.plan, body, r.At());
    FinishedOutput(r.plan, body, r.At(), output);
  }

  /** write_cached_body: jump to the next offset, read at most a buffer, project it. */
  method WriteCached(r: Response, body: string, buffer: nat) returns (output: string)
    requires r.Valid() && r.At() == Cursor(0, 0) && |body| == r.plan.total && buffer > 0
    modifies r`index, r`consumed
    ensures output == Expected(r.plan, body)
  {
    output := "";
    StartOwesAll(r.plan, body);
    var offset := r.NextOffset();
    if !r.Done() { NextOffsetIsReady(r.plan, r.At()); } else { assert Ready(r.plan, r.At(), offset); }
    while offset != |body| && !r.Done()
      invariant r.Valid() && offset <= |body| && Ready(r.plan, r.At(), offset)
      invariant output + Rest(r.plan, body, r.At()) == Expected(r.plan, body)
      decreases |body| - offset
    {
      NextOffsetIsReady(r.plan, r.At());
      ReadyIsBeforeNext(r.plan, r.At(), offset);
      offset := r.NextOffset();
      var end := offset + Min(|body| - offset, buffer);
      output := FeedMore(r, body, offset, end, output);
      offset := end;
    }
    if !r.Done() { EndIsDone(r.plan, body, r.At()); }
    FinishedOutput(r.plan, body, r.At(), output);
  }

  /** One origin block, in whatever chunks it arrives. */
  method FeedBlock(r: Response, body: string, first: nat, end: nat, before: string) returns (output: string)
    requires r.Valid() && |body| == r.plan.total && first <= end <= |body| && Ready(r.plan, r.At(), first)
    modifies r`index, r`consumed
    ensures r.Valid() && Ready(r.plan, r.At(), end)
    ensures output + Rest(r.plan, body, r.At()) == before + Rest(r.plan, body, old(r.At()))
  {
    var offset := first;
    output := before;
    while offset < end
      invariant r.Valid() && offset <= end && Ready(r.plan, r.At(), offset)
      invariant output + Rest(r.plan, body, r.At()) == before + Rest(r.plan, body, old(r.At()))
    {
      var stop :| offset < stop <= end;
      output := FeedMore(r, body, offset, stop, output);
      offset := stop;
    }
  }

  /** The aligned block that holds the next offset, and where it stops. */
  function BlockStart(p: Plan, c: Cursor): nat { NextOffsetOf(p, c) / BLOCK * BLOCK }

  function BlockLast(first: nat, total: nat): int { Min(first + BLOCK - 1, total - 1) }

  predicate BlockEdge(p: Plan, end: nat) { end % BLOCK == 0 || end == p.total }

  /** The block may begin where it is aligned: nothing before the next offset is projected twice,
      because a range only ever stops in the middle at a block's end. */
  lemma BlockIsReady(p: Plan, c: Cursor, end: nat)
    requires Sound(p) && InRange(p, c) && !IsDone(p, c) && Ready(p, c, end) && BlockEdge(p, end)
    ensures Ready(p, c, BlockStart(p, c)) && end <= BlockStart(p, c) <= BlockLast(BlockStart(p, c), p.total) < p.total
    ensures BlockEdge(p, BlockLast(BlockStart(p, c), p.total) + 1)
  {
    NextOffsetIsReady(p, c);
    ReadyIsBeforeNext(p, c, end);
    if !p.ignored { assert End(p.ranges[c.index]) <= p.total; }
  }

  /** A complete block response starts the next one. */
  method NextBlock(r: Response, body: string, end: nat, before: string) returns (output: string, next: nat)
    requires r.Valid() && |body| == r.plan.total && !r.Done() && Ready(r.plan, r.At(), end) && BlockEdge(r.plan, end)
    modifies r`index, r`consumed
    ensures r.Valid() && end < next <= |body| && Ready(r.plan, r.At(), next) && BlockEdge(r.plan, next)
    ensures output + Rest(r.plan, body, r.At()) == before + Rest(r.plan, body, old(r.At()))
  {
    BlockIsReady(r.plan, r.At(), end);
    var first := BlockStart(r.plan, r.At());
    next := BlockLast(first, |body|) + 1;
    output := FeedBlock(r, body, first, next, before);
  }

  /** The part of the response that is still owed, and where the last block stopped. */
  predicate Between(p: Plan, c: Cursor, body: string, output: string, end: nat) {
    && Sound(p) && InRange(p, c) && |body| == p.total && end <= |body| && Ready(p, c, end) && BlockEdge(p, end)
    && output + Rest(p, body, c) == Expected(p, body)
  }

  lemma FirstEdge(p: Plan)
    ensures BlockEdge(p, Min(BLOCK, p.total))
  {
  }

  method FirstBlock(r: Response, body: string) returns (output: string, end: nat)
    requires r.Valid() && r.At() == Cursor(0, 0) && |body| == r.plan.total && |body| > 0
    modifies r`index, r`consumed
    ensures Between(r.plan, r.At(), body, output, end)
  {
    StartOwesAll(r.plan, body);
    FirstEdge(r.plan);
    end := Min(BLOCK, r.plan.total);
    output := FeedBlock(r, body, 0, end, "");
  }

  /** The origin blocks, from the first one until nothing is owed. */
  method WriteBlocks(r: Response, body: string) returns (output: string)
    requires r.Valid() && r.At() == Cursor(0, 0) && |body| == r.plan.total && |body| > 0
    modifies r`index, r`consumed
    ensures output == Expected(r.plan, body)
  {
    var end;
    output, end := FirstBlock(r, body);
    while !r.Done()
      invariant Between(r.plan, r.At(), body, output, end)
      decreases |body| - end
    {
      output, end := NextBlock(r, body, end, output);
    }
    FinishedOutput(r.plan, body, r.At(), output);
  }
}
