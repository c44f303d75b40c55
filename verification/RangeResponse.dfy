/** The projection of one body onto the selected ranges (node/data/cache_range_response.h). */
module RangeResponse {
  // The loops that feed it are in module RangeDrivers.

  import opened Wrappers
  import opened Text
  import opened CacheRange

  /** What stays fixed for one response: the ranges, the text before each one and after the last
      one. The source formats these texts on demand from its fixed fields. */
  datatype Plan = Plan(ranges: seq<ByteRange>, ignored: bool, multipart: bool, total: nat, leads: seq<string>, ending: string)

  predicate Sound(p: Plan) {
    && (!p.ignored ==> WellPlaced(p.ranges, p.total) && |p.leads| == |p.ranges|)
    && (p.multipart ==> !p.ignored && p.ranges != [])
    && (!p.multipart ==> p.ending == "" && forall lead :: lead in p.leads ==> lead == "")
  }

  // ---------------------------------------------------------------------------
  // The reference: what a client has to receive
  // ---------------------------------------------------------------------------

  function Prefix(range: ByteRange, index: nat, total: nat, contentType: string, boundary: string): string
    requires range.length > 0
  {
    Concat([
      if index > 0 then "\r\n--" else "--", boundary, "\r\n",
      if contentType != "" then Concat(["Content-Type: ", contentType, "\r\n"]) else "",
      "Content-Range: bytes ", Decimal(range.offset), "-", Decimal(End(range) - 1), "/", Decimal(total), "\r\n\r\n"])
  }

  function Ending(boundary: string): string { Concat(["\r\n--", boundary, "--\r\n"]) }

  /** The texts of a multipart response, and none for a single part. */
  predicate Frames(p: Plan, contentType: string, boundary: string)
    requires Sound(p)
  {
    && (!p.ignored ==> forall i :: 0 <= i < |p.ranges| ==>
          p.leads[i] == if p.multipart then Prefix(p.ranges[i], i, p.total, contentType, boundary) else "")
    && p.ending == if p.multipart then Ending(boundary) else ""
  }

  function Lead(p: Plan, index: nat): string
    requires index < |p.leads|
  {
    p.leads[index]
  }

  /** What follows the bytes of a range: the closing delimiter after the last one. */
  function Tail(p: Plan, index: nat): string
    requires index < |p.ranges|
  {
    if index + 1 == |p.ranges| then p.ending else ""
  }

  /** The parts from number `index` on. */
  function Parts(p: Plan, body: string, index: nat): string
    requires Sound(p) && !p.ignored && |body| == p.total && index <= |p.ranges|
    decreases |p.ranges| - index, 1
  {
    if index == |p.ranges| then ""
    else
      Lead(p, index) + (body[p.ranges[index].offset..End(p.ranges[index])] + After(p, body, index))
  }

  /** What comes after the bytes of range number `index`. */
  function After(p: Plan, body: string, index: nat): string
    requires Sound(p) && !p.ignored && |body| == p.total && index < |p.ranges|
    decreases |p.ranges| - index, 0
  {
    Tail(p, index) + Parts(p, body, index + 1)
  }

  /** The whole payload. */
  function Expected(p: Plan, body: string): string
    requires Sound(p) && |body| == p.total
  {
    if p.ignored then body else Parts(p, body, 0)
  }

  // ---------------------------------------------------------------------------
  // What the client is told about its bytes
  // ---------------------------------------------------------------------------

  function Status(p: Plan): (status: nat) { if p.ignored then 200 else if p.ranges == [] then 416 else 206 }

  function ContentRange(p: Plan): (header: string)
    requires Sound(p)
  {
    if Status(p) == 416 then "bytes */" + Decimal(p.total)
    else if Status(p) != 206 || p.multipart then ""
    else "bytes " + Decimal(p.ranges[0].offset) + "-" + Decimal(End(p.ranges[0]) - 1) + "/" + Decimal(p.total)
  }

  /** The first and the last byte of a range. */
  ghost predicate Spans(range: ByteRange, first: nat, last: nat) {
    Within(range, first) && Within(range, last) && forall x: nat :: Within(range, x) ==> first <= x <= last
  }

  function Announced(first: nat, last: nat, total: nat): (s: string) { "bytes " + (Decimal(first) + ("-" + (Decimal(last) + ("/" + Decimal(total))))) }

  /** A response is partial exactly when bytes are selected, and the complete body when ranges are
      ignored; the header of one part names the first and the last byte it carries; a multipart
      response and a complete one have none; nothing selected names the size alone. */
  lemma HeaderNamesBytes(p: Plan)
    requires Sound(p)
    ensures p.ignored <==> Status(p) == 200
    ensures Status(p) == 206 <==> !p.ignored && p.ranges != []
    ensures Status(p) == 206 && !p.multipart ==>
              exists first, last :: Spans(p.ranges[0], first, last) && ContentRange(p) == Announced(first, last, p.total)
    ensures Status(p) == 416 ==> ContentRange(p) == "bytes */" + Decimal(p.total)
    ensures Status(p) == 200 || p.multipart ==> ContentRange(p) == ""
  {
    if Status(p) == 206 {
      var r := p.ranges[0];
      assert Spans(r, r.offset, End(r) - 1);
    }
  }

  function Delimiter(index: nat, boundary: string): (s: string) { (if index > 0 then "\r\n--" else "--") + (boundary + "\r\n") }

  function TypeHeader(contentType: string): (s: string) { if contentType != "" then "Content-Type: " + (contentType + "\r\n") else "" }

  function RangeHeader(first: nat, last: nat, total: nat): (s: string) { "Content-Range: " + (Announced(first, last, total) + "\r\n\r\n") }

  lemma PrefixIs(range: ByteRange, index: nat, total: nat, contentType: string, boundary: string)
    requires range.length > 0
    ensures Prefix(range, index, total, contentType, boundary)
            == Delimiter(index, boundary) + (TypeHeader(contentType) + RangeHeader(range.offset, End(range) - 1, total))
  {
    var opening := if index > 0 then "\r\n--" else "--";
    var kind := if contentType != "" then Concat(["Content-Type: ", contentType, "\r\n"]) else "";
    var rest := ["Content-Range: bytes ", Decimal(range.offset), "-", Decimal(End(range) - 1), "/", Decimal(total), "\r\n\r\n"];
    RangeLine(Decimal(range.offset), Decimal(End(range) - 1), Decimal(total));
    TypeLine(contentType);
    ConcatFour(opening, boundary, kind, rest);
    assert [opening, boundary, "\r\n", kind, "Content-Range: bytes ", Decimal(range.offset), "-", Decimal(End(range) - 1), "/", Decimal(total), "\r\n\r\n"]
           == [opening, boundary, "\r\n", kind] + rest;
  }

  /** The text before a part: the delimiter, the content type if there is one, and the first and the last
      byte that follow. */
  lemma PartNamesBytes(range: ByteRange, index: nat, total: nat, contentType: string, boundary: string)
    requires range.length > 0
    ensures exists first, last ::
              Spans(range, first, last)
              && Prefix(range, index, total, contentType, boundary)
                 == Delimiter(index, boundary) + (TypeHeader(contentType) + RangeHeader(first, last, total))
  {
    PrefixIs(range, index, total, contentType, boundary);
    assert Spans(range, range.offset, End(range) - 1);
  }

  lemma RangeLine(a: string, b: string, c: string)
    ensures Concat(["Content-Range: bytes ", a, "-", b, "/", c, "\r\n\r\n"])
            == "Content-Range: " + (("bytes " + (a + ("-" + (b + ("/" + c))))) + "\r\n\r\n")
  {
    var all := ["Content-Range: bytes ", a, "-", b, "/", c, "\r\n\r\n"];
    ConcatFirst("\r\n\r\n", []);
    ConcatFirst(c, ["\r\n\r\n"]);
    ConcatFirst("/", [c, "\r\n\r\n"]);
    ConcatFirst(b, ["/", c, "\r\n\r\n"]);
    ConcatFirst("-", [b, "/", c, "\r\n\r\n"]);
    ConcatFirst(a, ["-", b, "/", c, "\r\n\r\n"]);
    ConcatFirst("Content-Range: bytes ", [a, "-", b, "/", c, "\r\n\r\n"]);
    assert "Content-Range: bytes " == "Content-Range: " + "bytes ";
  }

  lemma TypeLine(kind: string)
    ensures Concat(["Content-Type: ", kind, "\r\n"]) == "Content-Type: " + (kind + "\r\n")
  {
    ConcatFirst("\r\n", []);
    ConcatFirst(kind, ["\r\n"]);
    ConcatFirst("Content-Type: ", [kind, "\r\n"]);
  }

  lemma ConcatFirst(x: string, rest: seq<string>)
    ensures Concat([x] + rest) == x + Concat(rest)
  {
    assert ([x] + rest)[1..] == rest;
  }

  lemma ConcatFour(opening: string, boundary: string, kind: string, rest: seq<string>)
    ensures Concat([opening, boundary, "\r\n", kind] + rest) == (opening + (boundary + "\r\n")) + (kind + Concat(rest))
  {
    ConcatFirst(kind, rest);
    ConcatFirst("\r\n", [kind] + rest);
    ConcatFirst(boundary, ["\r\n"] + ([kind] + rest));
    ConcatFirst(opening, [boundary] + (["\r\n"] + ([kind] + rest)));
    assert [opening, boundary, "\r\n", kind] + rest == [opening] + ([boundary] + (["\r\n"] + ([kind] + rest)));
  }

  // ---------------------------------------------------------------------------
  // The cursor
  // ---------------------------------------------------------------------------

  datatype Cursor = Cursor(index: nat, consumed: nat)

  /** The range at the cursor has delivered some of its bytes. */
  predicate Started(p: Plan, c: Cursor)
    requires !p.ignored
  {
    c.index < |p.ranges| && c.consumed > p.ranges[c.index].offset
  }

  predicate InRange(p: Plan, c: Cursor)
    requires Sound(p)
  {
    if p.ignored then c.consumed <= p.total
    else c.index <= |p.ranges| && (c.index < |p.ranges| ==> c.consumed < End(p.ranges[c.index]))
  }

  predicate IsDone(p: Plan, c: Cursor) { if p.ignored then c.consumed >= p.total else c.index == |p.ranges| }

  function NextOffsetOf(p: Plan, c: Cursor): nat {
    if p.ignored then c.consumed
    else if c.index < |p.ranges| then Max(c.consumed, p.ranges[c.index].offset)
    else p.total
  }

  /** A chunk may begin at `offset`: exactly where the range stopped, or no later than its start. */
  predicate Ready(p: Plan, c: Cursor, offset: nat) {
    if p.ignored then offset == c.consumed
    else if c.index < |p.ranges| then (if Started(p, c) then offset == c.consumed else offset <= p.ranges[c.index].offset)
    else true
  }

  /** What the client is still owed. */
  function Rest(p: Plan, body: string, c: Cursor): string
    requires Sound(p) && |body| == p.total && InRange(p, c)
  {
    if p.ignored then body[c.consumed..]
    else if c.index < |p.ranges| && Started(p, c) then
      body[c.consumed..End(p.ranges[c.index])] + After(p, body, c.index)
    else Parts(p, body, c.index)
  }

  /** Nothing is owed exactly when done() says so. */
  lemma DoneMeansNothingOwed(p: Plan, body: string, c: Cursor)
    requires Sound(p) && |body| == p.total && InRange(p, c)
    ensures IsDone(p, c) <==> Rest(p, body, c) == ""
  {
    if !p.ignored && c.index < |p.ranges| {
      var r := p.ranges[c.index];
      assert |body[r.offset..End(r)]| == r.length;
      if Started(p, c) { assert |body[c.consumed..End(r)]| > 0; }
    }
  }

  // ---------------------------------------------------------------------------
  // One chunk
  // ---------------------------------------------------------------------------

  /** One turn of the loop of consume: its output, the new cursor, and whether the loop goes on. */
  datatype Piece = Piece(out: string, next: Cursor, more: bool)

  function PieceOf(p: Plan, bytes: string, offset: nat, c: Cursor): (r: Piece)
    requires Sound(p) && !p.ignored && c.index < |p.ranges|
    ensures r.more ==> r.next.index == c.index + 1
  {
    var range := p.ranges[c.index];
    var first, last := Max(offset, range.offset), Min(offset + |bytes|, End(range));
    if first >= last then Piece("", c, false)
    else
      var out := OpeningLead(p, c.index, first) + bytes[first - offset..last - offset];
      if last != End(range) then Piece(out, c.(consumed := last), false)
      else Piece(out + Tail(p, c.index), Cursor(c.index + 1, last), true)
  }

  function OpeningLead(p: Plan, index: nat, first: nat): string
    requires index < |p.ranges| && index < |p.leads|
  {
    if first == p.ranges[index].offset then Lead(p, index) else ""
  }

  /** All turns of the loop, from the cursor on. */
  function Project(p: Plan, bytes: string, offset: nat, c: Cursor): (r: (string, Cursor))
    requires Sound(p) && !p.ignored
    decreases |p.ranges| - c.index
  {
    if c.index >= |p.ranges| then ("", c)
    else
      var piece := PieceOf(p, bytes, offset, c);
      if !piece.more then (piece.out, piece.next)
      else var later := Project(p, bytes, offset, piece.next); (piece.out + later.0, later.1)
  }

  lemma Regroup(a: string, b: string, c: string, d: string)
    ensures (a + b) + c == a + (b + c)
    ensures (a + b + c) + d == a + (b + (c + d))
  {
    assert (a + b) + c == a + (b + c);
    assert (a + b + c) + d == a + (b + (c + d));
  }

  lemma SliceSplits(body: string, a: nat, b: nat, c: nat, after: string)
    requires a <= b <= c <= |body|
    ensures body[a..c] + after == body[a..b] + (body[b..c] + after)
  {
    assert body[a..c] == body[a..b] + body[b..c];
    Regroup(body[a..b], body[b..c], after, "");
  }

  /** The bytes owed from `first` on, with the lead when the range has not begun. */
  lemma RestIs(p: Plan, body: string, offset: nat, c: Cursor)
    requires Sound(p) && !p.ignored && |body| == p.total && InRange(p, c) && c.index < |p.ranges| && Ready(p, c, offset)
    ensures var range := p.ranges[c.index];
            var first := Max(offset, range.offset);
            first < End(range)
              && Rest(p, body, c) == OpeningLead(p, c.index, first) + (body[first..End(range)] + After(p, body, c.index))
  {
    var range := p.ranges[c.index];
    if Started(p, c) {
      var rest := body[c.consumed..End(range)] + After(p, body, c.index);
      assert "" + rest == rest;
    }
  }

  lemma SliceOfSlice(body: string, offset: nat, end: nat, first: nat, last: nat)
    requires offset <= first <= last <= end <= |body|
    ensures body[offset..end][first - offset..last - offset] == body[first..last]
  {
    var inner := body[offset..end];
    assert forall k :: first <= k < last ==> inner[k - offset] == body[k];
  }

  /** A turn of the loop, in terms of the bytes it takes. */
  lemma PieceOfBytes(p: Plan, bytes: string, offset: nat, c: Cursor, first: nat, last: nat)
    requires Sound(p) && !p.ignored && c.index < |p.ranges|
    requires first == Max(offset, p.ranges[c.index].offset) && last == Min(offset + |bytes|, End(p.ranges[c.index]))
    ensures first >= last ==> PieceOf(p, bytes, offset, c) == Piece("", c, false)
    ensures first < last ==> first - offset <= last - offset <= |bytes|
    ensures first < last < End(p.ranges[c.index]) ==>
              PieceOf(p, bytes, offset, c) == Piece(OpeningLead(p, c.index, first) + bytes[first - offset..last - offset], c.(consumed := last), false)
    ensures first < last == End(p.ranges[c.index]) ==>
              PieceOf(p, bytes, offset, c)
              == Piece(OpeningLead(p, c.index, first) + bytes[first - offset..last - offset] + Tail(p, c.index), Cursor(c.index + 1, last), true)
  {
  }

  /** The bytes of a turn of the loop, as a part of the body. */
  lemma PieceIs(p: Plan, body: string, offset: nat, end: nat, c: Cursor)
    requires Sound(p) && !p.ignored && c.index < |p.ranges| && offset <= end <= |body|
    ensures var range, piece := p.ranges[c.index], PieceOf(p, body[offset..end], offset, c);
            var first, last := Max(offset, range.offset), Min(end, End(range));
            if first >= last then piece == Piece("", c, false)
            else if last < End(range) then piece == Piece(OpeningLead(p, c.index, first) + body[first..last], c.(consumed := last), false)
            else piece == Piece(OpeningLead(p, c.index, first) + body[first..last] + Tail(p, c.index), Cursor(c.index + 1, last), true)
  {
    var first, last := Max(offset, p.ranges[c.index].offset), Min(end, End(p.ranges[c.index]));
    PieceOfBytes(p, body[offset..end], offset, c, first, last);
    if first < last { SliceOfSlice(body, offset, end, first, last); }
  }

  /** A chunk that stops inside the range at the cursor. */
  lemma PartOfRange(p: Plan, body: string, offset: nat, end: nat, c: Cursor)
    requires Sound(p) && !p.ignored && |body| == p.total && InRange(p, c) && c.index < |p.ranges| && Ready(p, c, offset)
    requires Max(offset, p.ranges[c.index].offset) < end < End(p.ranges[c.index])
    ensures var first, next := Max(offset, p.ranges[c.index].offset), c.(consumed := end);
            InRange(p, next) && Ready(p, next, end)
              && OpeningLead(p, c.index, first) + body[first..end] + Rest(p, body, next) == Rest(p, body, c)
  {
    var range := p.ranges[c.index];
    var first, next, after := Max(offset, range.offset), c.(consumed := end), After(p, body, c.index);
    RestIs(p, body, offset, c);
    SliceSplits(body, first, end, End(range), after);
    Regroup(OpeningLead(p, c.index, first), body[first..end], Rest(p, body, next), "");
  }

  /** A chunk that reaches the end of the range at the cursor. */
  lemma RestOfRange(p: Plan, body: string, offset: nat, c: Cursor)
    requires Sound(p) && !p.ignored && |body| == p.total && InRange(p, c) && c.index < |p.ranges| && Ready(p, c, offset)
    ensures var range := p.ranges[c.index];
            var first, next := Max(offset, range.offset), Cursor(c.index + 1, End(range));
            first < End(range) && InRange(p, next) && Ready(p, next, offset)
              && OpeningLead(p, c.index, first) + body[first..End(range)] + Tail(p, c.index) + Rest(p, body, next) == Rest(p, body, c)
  {
    var range := p.ranges[c.index];
    var first, next := Max(offset, range.offset), Cursor(c.index + 1, End(range));
    assert next.index < |p.ranges| ==> End(range) <= p.ranges[next.index].offset && p.ranges[next.index].length > 0;
    RestIs(p, body, offset, c);
    Regroup(OpeningLead(p, c.index, first), body[first..End(range)], Tail(p, c.index), Rest(p, body, next));
  }

  /** What a turn of the loop has to establish. */
  predicate Delivers(p: Plan, body: string, c: Cursor, piece: Piece, ready: nat)
    requires Sound(p) && |body| == p.total && InRange(p, c)
  {
    InRange(p, piece.next) && piece.out + Rest(p, body, piece.next) == Rest(p, body, c) && Ready(p, piece.next, ready)
  }

  lemma NoPiece(p: Plan, body: string, offset: nat, end: nat, c: Cursor)
    requires Sound(p) && !p.ignored && |body| == p.total && InRange(p, c) && c.index < |p.ranges|
    requires offset <= end <= |body| && Ready(p, c, offset)
    requires Max(offset, p.ranges[c.index].offset) >= Min(end, End(p.ranges[c.index]))
    ensures Delivers(p, body, c, Piece("", c, false), end)
  {
    assert "" + Rest(p, body, c) == Rest(p, body, c);
  }

  /** Whatever a turn of the loop puts out is the next part of what is owed. */
  lemma PieceDelivers(p: Plan, body: string, offset: nat, end: nat, c: Cursor)
    requires Sound(p) && !p.ignored && |body| == p.total && InRange(p, c) && c.index < |p.ranges|
    requires offset <= end <= |body| && Ready(p, c, offset)
    ensures var piece := PieceOf(p, body[offset..end], offset, c); Delivers(p, body, c, piece, if piece.more then offset else end)
  {
    var range := p.ranges[c.index];
    var first, last := Max(offset, range.offset), Min(end, End(range));
    PieceIs(p, body, offset, end, c);
    if first >= last { NoPiece(p, body, offset, end, c); }
    else if last < End(range) { PartOfRange(p, body, offset, end, c); }
    else { RestOfRange(p, body, offset, c); }
  }

  /** A chunk fed where the cursor is ready yields the next bytes owed, and the place right after
      the chunk is ready again. */
  lemma {:induction false} ProjectDelivers(p: Plan, body: string, offset: nat, end: nat, c: Cursor)
    requires Sound(p) && !p.ignored && |body| == p.total && InRange(p, c)
    requires offset <= end <= |body| && Ready(p, c, offset)
    ensures var r := Project(p, body[offset..end], offset, c);
            InRange(p, r.1) && Ready(p, r.1, end) && r.0 + Rest(p, body, r.1) == Rest(p, body, c)
    decreases |p.ranges| - c.index
  {
    if c.index < |p.ranges| {
      var piece := PieceOf(p, body[offset..end], offset, c);
      PieceDelivers(p, body, offset, end, c);
      if piece.more {
        ProjectDelivers(p, body, offset, end, piece.next);
        var later := Project(p, body[offset..end], offset, piece.next);
        Regroup(piece.out, later.0, Rest(p, body, later.1), "");
      }
    }
  }

  /** The output so far and what the loop will still add make up the output from the start. */
  predicate Continues(p: Plan, bytes: string, offset: nat, start: Cursor, output: string, c: Cursor)
    requires Sound(p) && !p.ignored
  {
    var all, later := Project(p, bytes, offset, start), Project(p, bytes, offset, c);
    output + later.0 == all.0 && later.1 == all.1
  }

  lemma ContinuesStep(p: Plan, bytes: string, offset: nat, start: Cursor, output: string, c: Cursor)
    requires Sound(p) && !p.ignored && c.index < |p.ranges| && Continues(p, bytes, offset, start, output, c)
    ensures var piece := PieceOf(p, bytes, offset, c);
            if piece.more then Continues(p, bytes, offset, start, output + piece.out, piece.next)
            else (output + piece.out, piece.next) == Project(p, bytes, offset, start)
  {
    var piece := PieceOf(p, bytes, offset, c);
    if piece.more { Regroup(output, piece.out, Project(p, bytes, offset, piece.next).0, ""); }
  }

  // ---------------------------------------------------------------------------
  // The object
  // ---------------------------------------------------------------------------

  class Response {
    var plan: Plan
    var length: nat
    var index: nat
    var consumed: nat

    predicate Valid() reads this { Sound(plan) && InRange(plan, At()) }

    function At(): Cursor reads this { Cursor(index, consumed) }

    /** The announced length is the size of the payload, for every body of that size. */
    constructor (request: string, total: nat, partial: bool, contentType: string, boundary: string)
      ensures Valid() && At() == Cursor(0, 0) && plan.total == total && Frames(plan, contentType, boundary)
      ensures !StartsWith(request, UNIT) ==> plan.ignored
      ensures StartsWith(request, UNIT) ==>
                exists n :: Selects(Parses(request[|UNIT|..], total), n, partial, Selection(plan.ranges, plan.ignored, plan.multipart))
      ensures forall body: string :: |body| == total ==> |Expected(plan, body)| == length
    {
      var selection := SelectRanges(request, total, partial);
      var p := Framed(selection, total, contentType, boundary);
      var size := AnnouncedLength(p);
      plan, length, index, consumed := p, size, 0, 0;
    }

    predicate Done() reads this { IsDone(plan, At()) }

    function NextOffset(): nat reads this { NextOffsetOf(plan, At()) }

    method Consume(bytes: string, offset: nat) returns (output: string)
      requires Valid()
      modifies this`index, this`consumed
      ensures plan.ignored ==> output == bytes && At() == Cursor(old(index), offset + |bytes|)
      ensures !plan.ignored ==> output == Project(plan, bytes, offset, old(At())).0
      ensures !plan.ignored ==> At() == Project(plan, bytes, offset, old(At())).1
    {
      if plan.ignored {
        consumed := offset + |bytes|;
        return bytes;
      }
      output := "";
      ghost var start := At();
      assert Continues(plan, bytes, offset, start, "", start);
      while index < |plan.ranges|
        invariant Valid() && Continues(plan, bytes, offset, start, output, At())
        decreases |plan.ranges| - index
      {
        ghost var before, c := output, At();
        var piece := PieceOf(plan, bytes, offset, At());
        ContinuesStep(plan, bytes, offset, start, before, c);
        index, consumed := piece.next.index, piece.next.consumed;
        output := output + piece.out;
        if !piece.more { return; }
      }
      assert output + "" == output;
    }
  }

  // ---------------------------------------------------------------------------
  // The announced length
  // ---------------------------------------------------------------------------

  method Framed(selection: Selection, total: nat, contentType: string, boundary: string) returns (p: Plan)
    requires !selection.ignored ==> WellPlaced(selection.ranges, total)
    requires selection.multipart ==> !selection.ignored && selection.ranges != []
    ensures p == Plan(selection.ranges, selection.ignored, selection.multipart, total, p.leads, p.ending)
    ensures Sound(p) && Frames(p, contentType, boundary)
  {
    var leads, n := [], if selection.ignored then 0 else |selection.ranges|;
    while |leads| < n
      invariant |leads| <= n
      invariant forall i :: 0 <= i < |leads| ==>
        leads[i] == if selection.multipart then Prefix(selection.ranges[i], i, total, contentType, boundary) else ""
    {
      leads := leads + [if selection.multipart then Prefix(selection.ranges[|leads|], |leads|, total, contentType, boundary) else ""];
    }
    p := Plan(selection.ranges, selection.ignored, selection.multipart, total, leads, if selection.multipart then Ending(boundary) else "");
  }

  /** The length added up over the first `n` ranges. */
  function LengthUpTo(p: Plan, n: nat): nat
    requires Sound(p) && !p.ignored && n <= |p.ranges|
  {
    if n == 0 then 0 else LengthUpTo(p, n - 1) + p.ranges[n - 1].length + |p.leads[n - 1]|
  }

  lemma {:induction false} PartsLength(p: Plan, body: string, index: nat)
    requires Sound(p) && !p.ignored && |body| == p.total && index <= |p.ranges|
    ensures LengthUpTo(p, index) + |Parts(p, body, index)| == LengthUpTo(p, |p.ranges|) + if index < |p.ranges| then |p.ending| else 0
    decreases |p.ranges| - index
  {
    if index < |p.ranges| {
      PartsLength(p, body, index + 1);
    }
  }

  method AnnouncedLength(p: Plan) returns (length: nat)
    requires Sound(p)
    ensures forall body: string :: |body| == p.total ==> |Expected(p, body)| == length
  {
    if p.ignored { return p.total; }
    length := 0;
    for index := 0 to |p.ranges|
      invariant length == LengthUpTo(p, index)
    {
      length := length + p.ranges[index].length;
      if p.multipart {
        length := length + |p.leads[index]|;
      } else {
        assert p.leads[index] in p.leads;
      }
    }
    if p.multipart {
      length := length + |p.ending|;
    }
    forall body: string | |body| == p.total ensures |Expected(p, body)| == length { PartsLength(p, body, 0); }
  }
}
