/** Byte ranges of a Range header (node/data/cache_range.h). */
module CacheRange {
  import opened Wrappers
  import opened Text

  datatype ByteRange = ByteRange(offset: nat, length: nat, satisfiable: bool)

  function End(r: ByteRange): nat { r.offset + r.length }

  function Unsatisfiable(): ByteRange { ByteRange(0, 0, false) }

  /** range_number: all digits, at least one, and it fits 64 bits. */
  function RangeNumber(s: string): (n: Option<nat>) {
    if s != [] && AllDigits(s) && Number(s) <= U64_MAX then Some(Number(s)) else None
  }

  predicate StartsWith(s: string, prefix: string) { |prefix| <= |s| && s[..|prefix|] == prefix }

  const UNIT := "bytes="

  function ParseRange(field: string, size: nat): (r: Option<ByteRange>)
    ensures r.Some? && r.value.satisfiable ==> r.value.length > 0 && End(r.value) <= size
    ensures r.Some? && !r.value.satisfiable ==> r.value.length == 0
  {
    if !StartsWith(field, UNIT) || Find(field, ',') < |field| then None
    else ParseSpec(field[|UNIT|..], size)
  }

  function ParseSpec(spec: string, size: nat): (r: Option<ByteRange>)
    ensures r.Some? && r.value.satisfiable ==> r.value.length > 0 && End(r.value) <= size
    ensures r.Some? && !r.value.satisfiable ==> r.value.length == 0
  {
    if spec == [] then Some(Unsatisfiable())
    else
      var dash := Find(spec, '-');
      if dash == |spec| then None
      else if dash == 0 then
        var suffix := RangeNumber(spec[1..]);
        if suffix.None? then None
        else var length := Min(suffix.value, size); Some(ByteRange(size - length, length, length != 0))
      else
        var start, tail := RangeNumber(spec[..dash]), spec[dash + 1..];
        var last := if tail == [] then Some(if size > 0 then size - 1 else 0) else RangeNumber(tail);
        if start.None? || last.None? then None else Some(Between(start.value, last.value, size))
  }

  /** The bytes from `start` to `last` of a body of `size` bytes. */
  function Between(start: nat, last: nat, size: nat): (r: ByteRange)
    ensures r.satisfiable ==> r.length > 0 && End(r) <= size
    ensures !r.satisfiable ==> r.length == 0
  {
    if start >= size || last < start then Unsatisfiable() else ByteRange(start, Min(last, size - 1) - start + 1, true)
  }

  predicate Within(r: ByteRange, x: nat) { r.offset <= x < End(r) }

  /** A spec with a dash between two numbers. */
  lemma SpecOfTwo(spec: string, dash: nat, start: string, tail: string, size: nat)
    requires 0 < dash < |spec| && Find(spec, '-') == dash && spec[..dash] == start && spec[dash + 1..] == tail && tail != ""
    requires RangeNumber(start).Some? && RangeNumber(tail).Some?
    ensures ParseSpec(spec, size) == Some(Between(RangeNumber(start).value, RangeNumber(tail).value, size))
  {
  }

  lemma SpecOpen(spec: string, dash: nat, start: string, size: nat)
    requires 0 < dash < |spec| && Find(spec, '-') == dash && spec[..dash] == start && spec[dash + 1..] == "" && RangeNumber(start).Some?
    ensures ParseSpec(spec, size) == Some(Between(RangeNumber(start).value, if size > 0 then size - 1 else 0, size))
  {
  }

  lemma SpecSuffix(spec: string, tail: string, size: nat)
    requires spec != "" && Find(spec, '-') == 0 && spec[1..] == tail && RangeNumber(tail).Some?
    ensures var length := Min(RangeNumber(tail).value, size); ParseSpec(spec, size) == Some(ByteRange(size - length, length, length != 0))
  {
  }

  lemma DecimalIsRange(n: nat)
    requires n <= U64_MAX
    ensures RangeNumber(Decimal(n)) == Some(n)
  {
  }

  /** What a range means against a body of `size` bytes: first-last here, then first- and -suffix. */
  lemma FirstToLast(a: nat, b: nat, size: nat, x: nat)
    requires a <= U64_MAX && b <= U64_MAX && size <= U64_MAX
    ensures var r := ParseSpec(Decimal(a) + "-" + Decimal(b), size);
            r.Some? && (Within(r.value, x) <==> a <= x <= b && x < size)
  {
    DashAfter(Decimal(a), Decimal(b));
    DecimalIsRange(a);
    DecimalIsRange(b);
    SpecOfTwo(Decimal(a) + "-" + Decimal(b), |Decimal(a)|, Decimal(a), Decimal(b), size);
  }

  lemma FromFirst(a: nat, size: nat, x: nat)
    requires a <= U64_MAX && size <= U64_MAX
    ensures var r := ParseSpec(Decimal(a) + "-", size); r.Some? && (Within(r.value, x) <==> a <= x < size)
  {
    var spec := Decimal(a) + "-" + "";
    DashAfter(Decimal(a), "");
    DecimalIsRange(a);
    SpecOpen(spec, |Decimal(a)|, Decimal(a), size);
    assert spec == Decimal(a) + "-";
  }

  lemma LastBytes(b: nat, size: nat, x: nat)
    requires b <= U64_MAX && size <= U64_MAX
    ensures var r := ParseSpec("-" + Decimal(b), size); r.Some? && (Within(r.value, x) <==> x < size && x + b >= size)
  {
    var s := "-" + Decimal(b);
    DecimalIsRange(b);
    assert s[0] == '-' && s[1..] == Decimal(b);
    SpecSuffix(s, Decimal(b), size);
  }

  lemma {:induction false} DashAfter(digits: string, rest: string)
    requires AllDigits(digits)
    ensures var s := digits + "-" + rest;
            Find(s, '-') == |digits| && s[..|digits|] == digits && s[|digits| + 1..] == rest
  {
    var s := digits + "-" + rest;
    var i := Find(s, '-');
    assert s[|digits|] == '-';
    assert forall j :: 0 <= j < |digits| ==> s[j] == digits[j] && digits[j] in digits;
  }

  // ---------------------------------------------------------------------------
  // The list
  // ---------------------------------------------------------------------------

  predicate Space(c: char) { c == ' ' || c == '\t' }

  datatype Parse = Bad | Good(range: ByteRange)

  /** An item without the blanks around it, read as a header of its own. */
  function ItemRange(item: string, size: nat): (r: Parse)
    ensures Fits(r, size)
  {
    if item != [] && Space(item[0]) then ItemRange(item[1..], size)
    else if item != [] && Space(item[|item| - 1]) then ItemRange(item[..|item| - 1], size)
    else
      var r := ParseRange(UNIT + item, size);
      if r.Some? then Good(r.value) else Bad
  }

  predicate Fits(r: Parse, size: nat) { r.Good? && r.range.satisfiable ==> r.range.length > 0 && End(r.range) <= size }

  /** What the comma separated items parse to; there is always at least one item. */
  function Parses(s: string, size: nat): (items: seq<Parse>)
    ensures |items| > 0 && forall r :: r in items ==> Fits(r, size)
    decreases |s|
  {
    var comma := Find(s, ',');
    [ItemRange(s[..comma], size)] + if comma == |s| then [] else Parses(s[comma + 1..], size)
  }

  /** The satisfiable ranges among the first `n` items. */
  function Kept(items: seq<Parse>, n: nat): (r: seq<ByteRange>)
    requires n <= |items|
  {
    if n == 0 then []
    else
      var range := items[n - 1];
      if range.Good? && range.range.satisfiable then Kept(items, n - 1) + [range.range] else Kept(items, n - 1)
  }

  predicate TooMany(n: nat, partial: bool) { n > 300 || (!partial && n == 300) }

  predicate Overlaps(items: seq<Parse>, n: nat)
    requires n < |items|
  {
    var range, kept := items[n], Kept(items, n);
    range.Good? && range.range.satisfiable && kept != [] && range.range.offset < End(kept[|kept| - 1])
  }

  predicate Stops(items: seq<Parse>, n: nat, partial: bool)
    requires n < |items|
  {
    TooMany(n + 1, partial) || items[n].Bad? || Overlaps(items, n)
  }

  /** None of the first `n` items stops the loop. */
  predicate Passed(items: seq<Parse>, n: nat, partial: bool)
    requires n <= |items|
  {
    n == 0 || (Passed(items, n - 1, partial) && !Stops(items, n - 1, partial))
  }

  /** Ascending, disjoint, nonempty and inside the body. */
  predicate WellPlaced(ranges: seq<ByteRange>, size: nat) {
    && (forall i :: 0 <= i < |ranges| ==> ranges[i].length > 0 && End(ranges[i]) <= size)
    && (forall i, j :: 0 <= i < j < |ranges| ==> End(ranges[i]) <= ranges[j].offset)
  }

  lemma PlaceNext(kept: seq<ByteRange>, range: ByteRange, size: nat)
    requires WellPlaced(kept, size) && range.length > 0 && End(range) <= size
    requires kept != [] ==> End(kept[|kept| - 1]) <= range.offset
    ensures WellPlaced(kept + [range], size)
  {
    forall i | 0 <= i < |kept| ensures End(kept[i]) <= range.offset {
      if i < |kept| - 1 { assert End(kept[i]) <= kept[|kept| - 1].offset; }
    }
  }

  lemma {:induction false} KeptArePlaced(items: seq<Parse>, n: nat, partial: bool, size: nat)
    requires n <= |items| && (forall r :: r in items ==> Fits(r, size)) && Passed(items, n, partial)
    ensures WellPlaced(Kept(items, n), size)
  {
    if n > 0 {
      KeptArePlaced(items, n - 1, partial, size);
      var range := items[n - 1];
      assert range in items;
      if range.Good? && range.range.satisfiable { PlaceNext(Kept(items, n - 1), range.range, size); }
    }
  }

  datatype Selection = Selection(ranges: seq<ByteRange>, ignored: bool, multipart: bool)

  /** The outcome when the first `n` items pass and the next one, if any, stops the loop. */
  function Outcome(items: seq<Parse>, n: nat, partial: bool): Selection
    requires n <= |items|
  {
    var kept := Kept(items, n);
    if n == |items| then Selection(kept, false, |kept| > 1 || (partial && n > 1 && kept != []))
    else if !TooMany(n + 1, partial) && Overlaps(items, n) then Selection([], !partial, false)
    else Selection(kept, true, false)
  }

  /** The items before number `n` pass, and number `n` stops the loop if there is one. */
  predicate FirstStop(items: seq<Parse>, n: nat, partial: bool) {
    && n <= |items|
    && Passed(items, n, partial)
    && (n < |items| ==> Stops(items, n, partial))
  }

  lemma OutcomeIsPlaced(items: seq<Parse>, n: nat, partial: bool, size: nat)
    requires FirstStop(items, n, partial) && forall r :: r in items ==> Fits(r, size)
    ensures var s := Outcome(items, n, partial);
            && (!s.ignored ==> WellPlaced(s.ranges, size))
            && (s.multipart ==> !s.ignored && s.ranges != [])
            && (!s.ignored && |s.ranges| > 1 ==> s.multipart)
  {
    KeptArePlaced(items, n, partial, size);
  }

  /** A range that starts before the end of the last one kept. */
  predicate Backwards(range: ByteRange, kept: seq<ByteRange>) {
    range.satisfiable && LastEnd(kept).Some? && range.offset < LastEnd(kept).value
  }

  /** The loop ends at item number `n` with that selection. */
  predicate Selects(items: seq<Parse>, n: nat, partial: bool, selection: Selection) {
    FirstStop(items, n, partial) && selection == Outcome(items, n, partial)
  }

  /** One more item: how the loop ends or goes on. */
  lemma ItemStep(items: seq<Parse>, n: nat, partial: bool)
    requires n < |items| && Passed(items, n, partial)
    ensures var range, kept := items[n], Kept(items, n);
            if TooMany(n + 1, partial) || range.Bad? then
              Selects(items, n, partial, Selection(kept, true, false))
            else if Backwards(range.range, kept) then
              Selects(items, n, partial, Selection([], !partial, false))
            else
              Passed(items, n + 1, partial) && Kept(items, n + 1) == if range.range.satisfiable then kept + [range.range] else kept
  {
  }

  lemma LoopEnds(items: seq<Parse>, partial: bool)
    requires Passed(items, |items|, partial)
    ensures var kept := Kept(items, |items|);
            Selects(items, |items|, partial, Selection(kept, false, |kept| > 1 || (partial && |items| > 1 && kept != [])))
  {
  }

  /** The unread text parses to the items from number `count` on. */
  predicate Remains(items: seq<Parse>, count: nat, value: string, more: bool, size: nat) {
    count <= |items| && items[count..] == if more then Parses(value, size) else []
  }

  lemma OneRemains(items: seq<Parse>, count: nat, first: Parse, rest: seq<Parse>)
    requires count <= |items| && items[count..] == [first] + rest
    ensures count < |items| && items[count] == first && items[count + 1..] == rest
  {
    assert items[count] == items[count..][0] && items[count + 1..] == items[count..][1..];
  }

  /** Cut off the next item and parse it. */
  method ReadItem(value: string, size: nat, ghost items: seq<Parse>, ghost count: nat) returns (item: Parse, more: bool, rest: string)
    requires Remains(items, count, value, true, size)
    ensures count < |items| && item == items[count] && Remains(items, count + 1, rest, more, size)
  {
    var comma := Find(value, ',');
    item, more, rest := ItemRange(value[..comma], size), comma < |value|, "";
    if more { rest := value[comma + 1..]; }
    OneRemains(items, count, item, if more then Parses(rest, size) else []);
  }

  /** select_cache_ranges. */
  method SelectRanges(text: string, size: nat, partial: bool) returns (selection: Selection)
    ensures !StartsWith(text, UNIT) ==> selection == Selection([], true, false)
    ensures StartsWith(text, UNIT) ==>
              exists n :: Selects(Parses(text[|UNIT|..], size), n, partial, selection)
    ensures !selection.ignored ==> WellPlaced(selection.ranges, size)
    ensures selection.multipart ==> !selection.ignored && selection.ranges != []
    ensures !selection.ignored && |selection.ranges| > 1 ==> selection.multipart
  {
    if !StartsWith(text, UNIT) { return Selection([], true, false); }
    ghost var stop;
    selection, stop := SelectItems(text[|UNIT|..], size, partial);
    OutcomeIsPlaced(Parses(text[|UNIT|..], size), stop, partial, size);
  }

  /** What the loop knows after `count` items: the ranges kept and the end of the last one. */
  predicate Reading(items: seq<Parse>, count: nat, value: string, more: bool, ranges: seq<ByteRange>, previousEnd: Option<nat>, size: nat, partial: bool) {
    Remains(items, count, value, more, size) && ranges == Kept(items, count) && previousEnd == LastEnd(ranges) && Passed(items, count, partial)
  }

  /** One turn of the loop; it may end the selection. */
  method SelectOne(value: string, ranges0: seq<ByteRange>, previousEnd0: Option<nat>, count: nat, size: nat, partial: bool, ghost items: seq<Parse>)
    returns (end: Option<Selection>, rest: string, more: bool, ranges: seq<ByteRange>, previousEnd: Option<nat>)
    requires Reading(items, count, value, true, ranges0, previousEnd0, size, partial)
    ensures count < |items|
    ensures end.Some? ==> Selects(items, count, partial, end.value)
    ensures end.None? ==> Reading(items, count + 1, rest, more, ranges, previousEnd, size, partial)
  {
    ranges, previousEnd := ranges0, previousEnd0;
    var item;
    item, more, rest := ReadItem(value, size, items, count);
    ItemStep(items, count, partial);
    if count + 1 > 300 || (!partial && count + 1 == 300) {
      return Some(Selection(ranges, true, false)), rest, more, ranges, previousEnd;
    }
    if item.Bad? {
      return Some(Selection(ranges, true, false)), rest, more, ranges, previousEnd;
    }
    if item.range.satisfiable {
      if previousEnd.Some? && item.range.offset < previousEnd.value {
        return Some(Selection([], !partial, false)), rest, more, ranges, previousEnd;
      }
      previousEnd, ranges := Some(End(item.range)), ranges + [item.range];
    }
    end := None;
  }

  /** The loop over the items, with what the source remembers of the last range kept. */
  method SelectItems(text: string, size: nat, partial: bool) returns (selection: Selection, ghost stop: nat)
    ensures Selects(Parses(text, size), stop, partial, selection)
  {
    ghost var items := Parses(text, size);
    var value, more, count, previousEnd, ranges: seq<ByteRange> := text, true, 0, None, [];
    while more
      invariant Reading(items, count, value, more, ranges, previousEnd, size, partial)
      decreases |items| - count
    {
      var end;
      end, value, more, ranges, previousEnd := SelectOne(value, ranges, previousEnd, count, size, partial, items);
      if end.Some? {
        return end.value, count;
      }
      count := count + 1;
    }
    stop := count;
    LoopEnds(items, partial);
    selection := Selection(ranges, false, |ranges| > 1 || (partial && count > 1 && ranges != []));
  }

  /** previous_end, absent until has_previous is set. */
  function LastEnd(ranges: seq<ByteRange>): Option<nat> {
    if ranges == [] then None else Some(End(ranges[|ranges| - 1]))
  }

  // ---------------------------------------------------------------------------
  // What an item may say, and what a list of items selects
  // ---------------------------------------------------------------------------

  /** The three forms of an item: from first to last, from first on, and the last ones. */
  datatype Wish = FromTo(first: nat, last: nat) | From(first: nat) | Last(count: nat)

  function WishText(w: Wish): string {
    match w
    case FromTo(a, b) => Decimal(a) + "-" + Decimal(b)
    case From(a) => Decimal(a) + "-"
    case Last(n) => "-" + Decimal(n)
  }

  predicate Sized(w: Wish) {
    match w
    case FromTo(a, b) => a <= U64_MAX && b <= U64_MAX
    case From(a) => a <= U64_MAX
    case Last(n) => n <= U64_MAX
  }

  /** Byte `x` of a body of that size is wished for. */
  predicate Wished(w: Wish, size: nat, x: nat) {
    match w
    case FromTo(a, b) => a <= x <= b && x < size
    case From(a) => a <= x < size
    case Last(n) => x < size && x + n >= size
  }

  predicate Blanks(s: string) { forall c :: c in s ==> c == ' ' || c == '\t' }

  lemma WishRead(w: Wish, size: nat, x: nat)
    requires Sized(w) && size <= U64_MAX
    ensures var r := ParseSpec(WishText(w), size); r.Some? && (Within(r.value, x) <==> Wished(w, size, x))
  {
    match w
    case FromTo(a, b) => FirstToLast(a, b, size, x);
    case From(a) => FromFirst(a, size, x);
    case Last(n) => LastBytes(n, size, x);
  }

  /** No blank, and no comma, in the text of a wish. */
  predicate Tight(s: string) { s != [] && forall c :: c in s ==> IsDigit(c) || c == '-' }

  lemma WishIsTight(w: Wish)
    ensures Tight(WishText(w))
  {
    match w
    case FromTo(a, b) => assert AllDigits(Decimal(a)) && AllDigits(Decimal(b));
    case From(a) => assert AllDigits(Decimal(a));
    case Last(n) => assert AllDigits(Decimal(n));
  }

  /** Blanks around an item do not matter. */
  lemma {:induction false} BlanksAround(before: string, core: string, after: string, size: nat)
    requires Blanks(before) && Blanks(after) && core != [] && !Space(core[0]) && !Space(core[|core| - 1])
    ensures ItemRange(before + core + after, size) == ItemRange(core, size)
    decreases |before| + |after|
  {
    var item := before + core + after;
    if before != [] {
      assert item[0] == before[0] && before[0] in before && item[1..] == before[1..] + core + after;
      assert forall c :: c in before[1..] ==> c in before;
      BlanksAround(before[1..], core, after, size);
    } else if after != [] {
      var front := after[..|after| - 1];
      assert item[0] == core[0] && item[|item| - 1] == after[|after| - 1] && after[|after| - 1] in after;
      assert item[..|item| - 1] == before + core + front;
      assert forall c :: c in front ==> c in after;
      BlanksAround(before, core, front, size);
    } else {
      assert item == core;
    }
  }

  lemma TightFieldReads(core: string, size: nat)
    requires Tight(core)
    ensures ParseRange(UNIT + core, size) == ParseSpec(core, size)
  {
    var field := UNIT + core;
    assert field[..|UNIT|] == UNIT && field[|UNIT|..] == core;
    forall i | 0 <= i < |field| ensures field[i] != ',' {
      if i >= |UNIT| { assert field[i] == core[i - |UNIT|] && core[i - |UNIT|] in core; }
    }
  }

  lemma TightItem(core: string, size: nat)
    requires Tight(core)
    ensures ItemRange(core, size) == (var r := ParseSpec(core, size); if r.Some? then Good(r.value) else Bad)
  {
    assert core[0] in core && core[|core| - 1] in core;
    TightFieldReads(core, size);
  }

  /** An item in any of the three forms, with any blanks around it, selects exactly the bytes wished
      for, and is satisfiable exactly when there are any. */
  lemma ItemSelectsWish(before: string, w: Wish, after: string, size: nat, x: nat)
    requires Blanks(before) && Blanks(after) && Sized(w) && size <= U64_MAX
    ensures var r := ItemRange(before + WishText(w) + after, size);
            && r.Good? && (Within(r.range, x) <==> Wished(w, size, x))
            && (Wished(w, size, x) ==> r.range.satisfiable) && (r.range.satisfiable ==> Wished(w, size, r.range.offset))
  {
    var core := WishText(w);
    WishIsTight(w);
    assert core[0] in core && core[|core| - 1] in core;
    BlanksAround(before, core, after, size);
    TightItem(core, size);
    WishRead(w, size, x);
    WishRead(w, size, ParseSpec(core, size).value.offset);
  }

  /** Digits, at least one, of a number that fits 64 bits. */
  predicate Numeric(s: string) { s != [] && AllDigits(s) && Number(s) <= U64_MAX }

  /** An item says nothing, or has a dash at `d` with numbers around it, of which one may be missing. */
  predicate Readable(spec: string, d: nat) {
    spec == [] ||
    (d < |spec| && spec[d] == '-' && (d > 0 ==> Numeric(spec[..d])) && (Numeric(spec[d + 1..]) || (d > 0 && spec[d + 1..] == [])))
  }

  lemma ReadIsReadable(spec: string, size: nat)
    requires ParseSpec(spec, size).Some?
    ensures Readable(spec, Find(spec, '-'))
  {
  }

  /** The dash of a readable item is its first one. */
  lemma ReadableAtFirst(spec: string, d: nat)
    requires spec != [] && Readable(spec, d)
    ensures Find(spec, '-') == d
  {
    assert d > 0 ==> forall j :: 0 <= j < d ==> spec[j] == spec[..d][j] && spec[..d][j] in spec[..d];
  }

  lemma ReadableIsRead(spec: string, d: nat, size: nat)
    requires Readable(spec, d)
    ensures ParseSpec(spec, size).Some?
  {
    if spec != [] { ReadableAtFirst(spec, d); }
  }

  /** Everything else is rejected. */
  lemma SpecIsReadable(spec: string, size: nat)
    ensures ParseSpec(spec, size).Some? <==> exists d :: 0 <= d <= |spec| && Readable(spec, d)
  {
    if ParseSpec(spec, size).Some? { ReadIsReadable(spec, size); }
    if exists d :: 0 <= d <= |spec| && Readable(spec, d) {
      var d :| 0 <= d <= |spec| && Readable(spec, d);
      ReadableIsRead(spec, d, size);
    }
  }

  function Joined(pieces: seq<string>): (s: string)
    requires pieces != []
  {
    if |pieces| == 1 then pieces[0] else pieces[0] + "," + Joined(pieces[1..])
  }

  predicate NoComma(s: string) { ',' !in s }

  /** Where the first comma of a list stands. */
  lemma FirstComma(pieces: seq<string>)
    requires pieces != [] && NoComma(pieces[0])
    ensures var s, n := Joined(pieces), |pieces[0]|;
            && Find(s, ',') == n && s[..n] == pieces[0]
            && (|pieces| == 1 ==> n == |s|) && (|pieces| > 1 ==> n < |s| && s[n + 1..] == Joined(pieces[1..]))
  {
    var s, n := Joined(pieces), |pieces[0]|;
    assert forall j :: 0 <= j < n ==> s[j] == pieces[0][j] && s[j] in pieces[0];
    assert |pieces| > 1 ==> s[n] == ',';
  }

  /** A list is read item by item between its commas. */
  lemma {:induction false} ListIsRead(pieces: seq<string>, size: nat)
    requires pieces != [] && forall i :: 0 <= i < |pieces| ==> NoComma(pieces[i])
    ensures |Parses(Joined(pieces), size)| == |pieces|
    ensures forall i :: 0 <= i < |pieces| ==> Parses(Joined(pieces), size)[i] == ItemRange(pieces[i], size)
    decreases |pieces|
  {
    var s, rest := Joined(pieces), pieces[1..];
    FirstComma(pieces);
    if |pieces| > 1 {
      ListIsRead(rest, size);
      assert Parses(s, size) == [ItemRange(pieces[0], size)] + Parses(Joined(rest), size);
    }
  }

  // ---------------------------------------------------------------------------
  // The outcome of a list, without the loop
  // ---------------------------------------------------------------------------

  predicate Serves(r: Parse) { r.Good? && r.range.satisfiable }

  /** The items are few enough, all readable, and the satisfiable ones each begin where the one before
      has ended or later. */
  predicate Orderly(items: seq<Parse>, partial: bool) {
    && |items| <= (if partial then 300 else 299)
    && (forall i :: 0 <= i < |items| ==> items[i].Good?)
    && (forall i, j :: 0 <= i < j < |items| && Serves(items[i]) && Serves(items[j]) ==> End(items[i].range) <= items[j].range.offset)
  }

  lemma {:induction false} KeptMembers(items: seq<Parse>, n: nat, x: nat)
    requires n <= |items|
    ensures (exists r :: r in Kept(items, n) && Within(r, x)) <==> exists i :: 0 <= i < n && Serves(items[i]) && Within(items[i].range, x)
    ensures Kept(items, n) != [] <==> exists i :: 0 <= i < n && Serves(items[i])
    decreases n
  {
    if n > 0 { KeptMembers(items, n - 1, x); }
  }

  /** The last range kept is that of the last satisfiable item. */
  lemma {:induction false} LastKept(items: seq<Parse>, n: nat) returns (i: nat)
    requires n <= |items| && Kept(items, n) != []
    ensures i < n && Serves(items[i]) && Kept(items, n)[|Kept(items, n)| - 1] == items[i].range
    ensures forall j :: i < j < n ==> !Serves(items[j])
    decreases n
  {
    if Serves(items[n - 1]) { i := n - 1; } else { i := LastKept(items, n - 1); }
  }

  lemma {:induction false} OrderlyPasses(items: seq<Parse>, n: nat, partial: bool)
    requires n <= |items| && Orderly(items, partial)
    ensures Passed(items, n, partial)
    decreases n
  {
    if n > 0 {
      OrderlyPasses(items, n - 1, partial);
      if Kept(items, n - 1) != [] { var i := LastKept(items, n - 1); }
    }
  }

  lemma {:induction false} PassedIsOrderly(items: seq<Parse>, n: nat, partial: bool, size: nat)
    requires n <= |items| && Passed(items, n, partial) && forall r :: r in items ==> Fits(r, size)
    ensures Orderly(items[..n], partial)
    decreases n
  {
    if n > 0 {
      PassedIsOrderly(items, n - 1, partial, size);
      var m := n - 1;
      forall i | 0 <= i < m && Serves(items[i]) && Serves(items[m]) ensures End(items[i].range) <= items[m].range.offset {
        KeptMembers(items, m, 0);
        var last := LastKept(items, m);
        if i < last { assert items[..m][i] == items[i] && items[..m][last] == items[last]; assert items[last] in items; }
      }
      assert forall i :: 0 <= i < m ==> items[..n][i] == items[..m][i];
    }
  }

  /** The outcome: an orderly list selects the bytes of all its items, as a multipart response when more
      than one range is left, or, for a partly stored body, more than one was asked for; any other list
      selects nothing that would be served as ranges: it is ignored, or for a partly stored body with
      overlapping ranges answered as unsatisfiable. */
  lemma SelectionIs(items: seq<Parse>, n: nat, partial: bool, s: Selection, size: nat, x: nat)
    requires Selects(items, n, partial, s) && forall r :: r in items ==> Fits(r, size)
    ensures Orderly(items, partial) ==>
              && !s.ignored && WellPlaced(s.ranges, size)
              && ((exists r :: r in s.ranges && Within(r, x)) <==> exists i :: 0 <= i < |items| && Serves(items[i]) && Within(items[i].range, x))
              && (s.multipart <==> |s.ranges| > 1 || (partial && |items| > 1 && s.ranges != []))
    ensures !Orderly(items, partial) ==> (s.ignored || (partial && s.ranges == [])) && !s.multipart
  {
    if Orderly(items, partial) {
      OrderlyPasses(items, |items|, partial);
      PassedCovers(items, n, |items|, partial);
      KeptMembers(items, |items|, x);
      OutcomeIsPlaced(items, n, partial, size);
    } else {
      PassedIsOrderly(items, n, partial, size);
      assert items[..|items|] == items;
    }
  }

  lemma {:induction false} PassedCovers(items: seq<Parse>, n: nat, m: nat, partial: bool)
    requires n <= m <= |items| && Passed(items, m, partial) && FirstStop(items, n, partial)
    ensures n == m || n == |items|
    decreases m
  {
    if n < m {
      PassedBelow(items, n + 1, m, partial);
    }
  }

  lemma {:induction false} PassedBelow(items: seq<Parse>, n: nat, m: nat, partial: bool)
    requires n <= m <= |items| && Passed(items, m, partial)
    ensures Passed(items, n, partial)
    decreases m
  {
    if n < m { PassedBelow(items, n, m - 1, partial); }
  }
}
