/** The on-disk metadata of a cached response (node/data/cache_disk_record.h): writing a record and
    reading it back under the bounds that apply before any allocation. */
module DiskRecord {
  import opened Wrappers
  import opened DiskNumbers

  datatype Field = Field(name: Bytes, value: Bytes)

  /** `values` are the thirteen numbers of the record. */
  datatype Record = Record(key: Bytes, website: Bytes, policy: Bytes, url: Bytes, headers: seq<Field>, vary: seq<Field>, values: seq<nat>)

  const MAGIC: Bytes := [70, 69, 67, 65, 67, 72, 69, 49, 10]

  const MAX_FIELDS: nat := 256
  const BUDGET: nat := 1024 * 1024

  /** Every size and every value is a 64-bit number, as in the source. */
  predicate WellFormed(r: Record) {
    && |r.values| == 13 && (forall v :: v in r.values ==> Is64(v))
    && (forall s :: s in Texts(r) ==> Is64(|s|))
    && Is64(|r.headers|) && Is64(|r.vary|)
    && (forall f :: f in r.headers + r.vary ==> Is64(|f.name|) && Is64(|f.value|))
  }

  function Texts(r: Record): seq<Bytes> { [r.key, r.website, r.policy, r.url] }

  /** The bounds that reading enforces. */
  predicate Bounded(r: Record) {
    && |r.headers| <= MAX_FIELDS && |r.vary| <= MAX_FIELDS
    && TextBytes(Texts(r)) + FieldBytes(r.headers) + FieldBytes(r.vary) <= BUDGET
  }

  function TextBytes(texts: seq<Bytes>): (n: nat) { if texts == [] then 0 else |texts[0]| + TextBytes(texts[1..]) }

  function FieldBytes(fields: seq<Field>): (n: nat) {
    if fields == [] then 0 else |fields[0].name| + |fields[0].value| + FieldBytes(fields[1..])
  }

  // ---------------------------------------------------------------------------
  // Writing, in front of a tail
  // ---------------------------------------------------------------------------

  function PutText(text: Bytes, tail: Bytes): (s: Bytes) { PutNumber(|text|) + (text + tail) }

  function PutTexts(texts: seq<Bytes>, tail: Bytes): (s: Bytes) {
    if texts == [] then tail else PutText(texts[0], PutTexts(texts[1..], tail))
  }

  function PutPairs(fields: seq<Field>, tail: Bytes): (s: Bytes) {
    if fields == [] then tail else PutText(fields[0].name, PutText(fields[0].value, PutPairs(fields[1..], tail)))
  }

  function PutFields(fields: seq<Field>, tail: Bytes): (s: Bytes) { PutNumber(|fields|) + PutPairs(fields, tail) }

  function PutValues(values: seq<nat>, tail: Bytes): (s: Bytes) {
    if values == [] then tail else PutNumber(values[0]) + PutValues(values[1..], tail)
  }

  /** The bytes that write puts out. */
  function Encode(r: Record): (s: Bytes) {
    MAGIC + PutTexts(Texts(r), PutFields(r.headers, PutFields(r.vary, PutValues(r.values, []))))
  }

  // ---------------------------------------------------------------------------
  // Reading
  // ---------------------------------------------------------------------------

  /** What was read, the input left and the string budget left. */
  datatype Got<T> = Fail | Got(value: T, rest: Bytes, budget: nat)

  function GetText(s: Bytes, budget: nat): (r: Got<Bytes>) {
    var size := GetNumber(s);
    if size.NoNumber? || size.value > budget || |size.rest| < size.value then Fail
    else Got(size.rest[..size.value], size.rest[size.value..], budget - size.value)
  }

  /** `n` more texts after those read so far. */
  function GetTexts(s: Bytes, n: nat, budget: nat, read: seq<Bytes>): (r: Got<seq<Bytes>>)
    decreases n, s
  {
    if n == 0 then Got(read, s, budget)
    else
      var text := GetText(s, budget);
      if text.Fail? then Fail else GetTexts(text.rest, n - 1, text.budget, read + [text.value])
  }

  function GetPair(s: Bytes, budget: nat): (r: Got<Field>) {
    var name := GetText(s, budget);
    if name.Fail? then Fail
    else
      var value := GetText(name.rest, name.budget);
      if value.Fail? then Fail else Got(Field(name.value, value.value), value.rest, value.budget)
  }

  function GetPairs(s: Bytes, n: nat, budget: nat, read: seq<Field>): (r: Got<seq<Field>>)
    decreases n, s
  {
    if n == 0 then Got(read, s, budget)
    else
      var pair := GetPair(s, budget);
      if pair.Fail? then Fail else GetPairs(pair.rest, n - 1, pair.budget, read + [pair.value])
  }

  function GetFields(s: Bytes, budget: nat): (r: Got<seq<Field>>) {
    var count := GetNumber(s);
    if count.NoNumber? || count.value > MAX_FIELDS then Fail else GetPairs(count.rest, count.value, budget, [])
  }

  function GetValues(s: Bytes, n: nat, read: seq<nat>): (r: Got<seq<nat>>)
    decreases n, s
  {
    if n == 0 then Got(read, s, 0)
    else
      var value := GetNumber(s);
      if value.NoNumber? then Fail else GetValues(value.rest, n - 1, read + [value.value])
  }

  /** What read makes of a file: it has to be used up completely. */
  function Decode(s: Bytes): (r: Option<Record>) {
    if |s| < 9 || s[..9] != MAGIC then None
    else
      var texts := GetTexts(s[9..], 4, BUDGET, []);
      if texts.Fail? || |texts.value| != 4 then None else DecodeFields(texts.value, texts.rest, texts.budget)
  }

  function DecodeFields(texts: seq<Bytes>, s: Bytes, budget: nat): (r: Option<Record>)
    requires |texts| == 4
  {
    var headers := GetFields(s, budget);
    if headers.Fail? then None else DecodeVary(texts, headers.value, headers.rest, headers.budget)
  }

  function DecodeVary(texts: seq<Bytes>, headers: seq<Field>, s: Bytes, budget: nat): (r: Option<Record>)
    requires |texts| == 4
  {
    var vary := GetFields(s, budget);
    if vary.Fail? then None
    else
      var values := GetValues(vary.rest, 13, []);
      if values.Fail? || values.rest != [] then None
      else Some(Record(texts[0], texts[1], texts[2], texts[3], headers, vary.value, values.value))
  }

  // ---------------------------------------------------------------------------
  // Reading what was written
  // ---------------------------------------------------------------------------

  lemma TextReadsBack(text: Bytes, tail: Bytes, budget: nat)
    requires Is64(|text|)
    ensures GetText(PutText(text, tail), budget) == if |text| <= budget then Got(text, tail, budget - |text|) else Fail
  {
    NumberRoundTrip(|text|, text + tail);
    assert (text + tail)[..|text|] == text && (text + tail)[|text|..] == tail;
  }

  lemma {:induction false} TextsReadBack(texts: seq<Bytes>, tail: Bytes, budget: nat, read: seq<Bytes>)
    requires forall s :: s in texts ==> Is64(|s|)
    ensures GetTexts(PutTexts(texts, tail), |texts|, budget, read) ==
            if TextBytes(texts) <= budget then Got(read + texts, tail, budget - TextBytes(texts)) else Fail
  {
    if texts == [] { assert read + texts == read; } else {
      TextReadsBack(texts[0], PutTexts(texts[1..], tail), budget);
      if |texts[0]| <= budget {
        TextsReadBack(texts[1..], tail, budget - |texts[0]|, read + [texts[0]]);
        assert read + [texts[0]] + texts[1..] == read + texts;
      }
    }
  }

  lemma PairReadsBack(f: Field, tail: Bytes, budget: nat)
    requires Is64(|f.name|) && Is64(|f.value|)
    ensures GetPair(PutText(f.name, PutText(f.value, tail)), budget) ==
            if |f.name| + |f.value| <= budget then Got(f, tail, budget - |f.name| - |f.value|) else Fail
  {
    TextReadsBack(f.name, PutText(f.value, tail), budget);
    if |f.name| <= budget { TextReadsBack(f.value, tail, budget - |f.name|); }
  }

  lemma {:induction false} PairsReadBack(fields: seq<Field>, tail: Bytes, budget: nat, read: seq<Field>)
    requires forall f :: f in fields ==> Is64(|f.name|) && Is64(|f.value|)
    ensures GetPairs(PutPairs(fields, tail), |fields|, budget, read) ==
            if FieldBytes(fields) <= budget then Got(read + fields, tail, budget - FieldBytes(fields)) else Fail
  {
    if fields == [] { assert read + fields == read; } else {
      PairReadsBack(fields[0], PutPairs(fields[1..], tail), budget);
      if |fields[0].name| + |fields[0].value| <= budget {
        PairsReadBack(fields[1..], tail, budget - |fields[0].name| - |fields[0].value|, read + [fields[0]]);
        assert read + [fields[0]] + fields[1..] == read + fields;
      }
    }
  }

  lemma FieldsReadBack(fields: seq<Field>, tail: Bytes, budget: nat)
    requires Is64(|fields|) && forall f :: f in fields ==> Is64(|f.name|) && Is64(|f.value|)
    ensures GetFields(PutFields(fields, tail), budget) ==
            if |fields| <= MAX_FIELDS && FieldBytes(fields) <= budget then Got(fields, tail, budget - FieldBytes(fields)) else Fail
  {
    NumberRoundTrip(|fields|, PutPairs(fields, tail));
    PairsReadBack(fields, tail, budget, []);
    assert [] + fields == fields;
  }

  lemma {:induction false} ValuesReadBack(values: seq<nat>, tail: Bytes, read: seq<nat>)
    requires forall v :: v in values ==> Is64(v)
    ensures GetValues(PutValues(values, tail), |values|, read) == Got(read + values, tail, 0)
  {
    if values == [] { assert read + values == read; } else {
      NumberRoundTrip(values[0], PutValues(values[1..], tail));
      ValuesReadBack(values[1..], tail, read + [values[0]]);
      assert read + [values[0]] + values[1..] == read + values;
    }
  }

  lemma VaryReadsBack(r: Record, budget: nat)
    requires WellFormed(r)
    ensures DecodeVary(Texts(r), r.headers, PutFields(r.vary, PutValues(r.values, [])), budget) ==
            if |r.vary| <= MAX_FIELDS && FieldBytes(r.vary) <= budget then Some(r) else None
  {
    assert forall f :: f in r.vary ==> f in r.headers + r.vary;
    FieldsReadBack(r.vary, PutValues(r.values, []), budget);
    ValuesReadBack(r.values, [], []);
    assert [] + r.values == r.values;
  }

  lemma BodyReadsBack(r: Record, budget: nat)
    requires WellFormed(r)
    ensures DecodeFields(Texts(r), PutFields(r.headers, PutFields(r.vary, PutValues(r.values, []))), budget) ==
            if |r.headers| <= MAX_FIELDS && |r.vary| <= MAX_FIELDS && FieldBytes(r.headers) + FieldBytes(r.vary) <= budget
            then Some(r) else None
  {
    assert forall f :: f in r.headers ==> f in r.headers + r.vary;
    FieldsReadBack(r.headers, PutFields(r.vary, PutValues(r.values, [])), budget);
    if |r.headers| <= MAX_FIELDS && FieldBytes(r.headers) <= budget {
      VaryReadsBack(r, budget - FieldBytes(r.headers));
    }
  }

  /** A written record reads back as itself exactly when it keeps to the bounds, and not at all otherwise. */
  lemma RoundTrip(r: Record)
    requires WellFormed(r)
    ensures Decode(Encode(r)) == if Bounded(r) then Some(r) else None
  {
    var tail := PutFields(r.headers, PutFields(r.vary, PutValues(r.values, [])));
    var s := Encode(r);
    assert s[..9] == MAGIC && s[9..] == PutTexts(Texts(r), tail);
    TextsReadBack(Texts(r), tail, BUDGET, []);
    assert [] + Texts(r) == Texts(r);
    if TextBytes(Texts(r)) <= BUDGET { BodyReadsBack(r, BUDGET - TextBytes(Texts(r))); }
  }

  // ---------------------------------------------------------------------------
  // Everything that reads was written
  // ---------------------------------------------------------------------------

  lemma TextIsCanonical(s: Bytes, budget: nat)
    requires GetText(s, budget).Got?
    ensures var r := GetText(s, budget); Is64(|r.value|) && s == PutText(r.value, r.rest) && r.budget + |r.value| == budget
  {
    var size := GetNumber(s);
    NumberIsCanonical(s);
    assert size.rest == size.rest[..size.value] + size.rest[size.value..];
  }

  /** The texts are what lies between the input and what is left of it. */
  predicate SpanTexts(texts: seq<Bytes>, s: Bytes, budget: nat, rest: Bytes, left: nat) {
    s == PutTexts(texts, rest) && left + TextBytes(texts) == budget && forall x :: x in texts ==> Is64(|x|)
  }

  lemma {:induction false} TextsAreCanonical(s: Bytes, n: nat, budget: nat, read: seq<Bytes>) returns (texts: seq<Bytes>)
    requires GetTexts(s, n, budget, read).Got?
    ensures var r := GetTexts(s, n, budget, read); |texts| == n && r.value == read + texts && SpanTexts(texts, s, budget, r.rest, r.budget)
    decreases n
  {
    if n == 0 { return []; }
    var text := GetText(s, budget);
    TextIsCanonical(s, budget);
    var later := TextsAreCanonical(text.rest, n - 1, text.budget, read + [text.value]);
    TextsExtend(read, text.value, later, GetTexts(s, n, budget, read).rest);
    texts := [text.value] + later;
  }

  lemma TextsExtend(read: seq<Bytes>, text: Bytes, later: seq<Bytes>, rest: Bytes)
    ensures var texts := [text] + later;
            && read + [text] + later == read + texts && PutTexts(texts, rest) == PutText(text, PutTexts(later, rest))
            && TextBytes(texts) == |text| + TextBytes(later)
  {
    assert ([text] + later)[1..] == later;
  }

  lemma PairIsCanonical(s: Bytes, budget: nat)
    requires GetPair(s, budget).Got?
    ensures var r := GetPair(s, budget);
            && Is64(|r.value.name|) && Is64(|r.value.value|)
            && s == PutText(r.value.name, PutText(r.value.value, r.rest)) && r.budget + |r.value.name| + |r.value.value| == budget
  {
    var name := GetText(s, budget);
    TextIsCanonical(s, budget);
    TextIsCanonical(name.rest, name.budget);
  }

  lemma PairsExtend(read: seq<Field>, f: Field, later: seq<Field>, rest: Bytes)
    ensures var fields := [f] + later;
            && read + [f] + later == read + fields && PutPairs(fields, rest) == PutText(f.name, PutText(f.value, PutPairs(later, rest)))
            && FieldBytes(fields) == |f.name| + |f.value| + FieldBytes(later)
  {
    assert ([f] + later)[1..] == later;
  }

  predicate SpanPairs(fields: seq<Field>, s: Bytes, budget: nat, rest: Bytes, left: nat) {
    s == PutPairs(fields, rest) && left + FieldBytes(fields) == budget && forall f :: f in fields ==> Is64(|f.name|) && Is64(|f.value|)
  }

  lemma {:induction false} PairsAreCanonical(s: Bytes, n: nat, budget: nat, read: seq<Field>) returns (fields: seq<Field>)
    requires GetPairs(s, n, budget, read).Got?
    ensures var r := GetPairs(s, n, budget, read); |fields| == n && r.value == read + fields && SpanPairs(fields, s, budget, r.rest, r.budget)
    decreases n
  {
    if n == 0 { return []; }
    var pair := GetPair(s, budget);
    PairIsCanonical(s, budget);
    var later := PairsAreCanonical(pair.rest, n - 1, pair.budget, read + [pair.value]);
    PairsExtend(read, pair.value, later, GetPairs(s, n, budget, read).rest);
    fields := [pair.value] + later;
  }

  lemma FieldsAreCanonical(s: Bytes, budget: nat)
    requires GetFields(s, budget).Got?
    ensures var r := GetFields(s, budget);
            && |r.value| <= MAX_FIELDS && s == PutFields(r.value, r.rest) && r.budget + FieldBytes(r.value) == budget
            && forall f :: f in r.value ==> Is64(|f.name|) && Is64(|f.value|)
  {
    var count, r := GetNumber(s), GetFields(s, budget);
    NumberIsCanonical(s);
    var fields := PairsAreCanonical(count.rest, count.value, budget, []);
    assert [] + fields == fields;
  }

  lemma {:induction false} ValuesAreCanonical(s: Bytes, n: nat, read: seq<nat>) returns (values: seq<nat>)
    requires GetValues(s, n, read).Got?
    ensures var r := GetValues(s, n, read);
            |values| == n && r.value == read + values && s == PutValues(values, r.rest) && forall v :: v in values ==> Is64(v)
    decreases n
  {
    if n == 0 { return []; }
    var value := GetNumber(s);
    NumberIsCanonical(s);
    var later := ValuesAreCanonical(value.rest, n - 1, read + [value.value]);
    values := [value.value] + later;
    assert values[1..] == later && read + [value.value] + later == read + values;
  }

  lemma VaryIsCanonical(texts: seq<Bytes>, headers: seq<Field>, s: Bytes, budget: nat)
    requires |texts| == 4 && DecodeVary(texts, headers, s, budget).Some?
    ensures var r := DecodeVary(texts, headers, s, budget).value;
            && r.headers == headers && Texts(r) == texts
            && |r.vary| <= MAX_FIELDS && FieldBytes(r.vary) <= budget && s == PutFields(r.vary, PutValues(r.values, []))
            && |r.values| == 13 && (forall v :: v in r.values ==> Is64(v))
            && forall f :: f in r.vary ==> Is64(|f.name|) && Is64(|f.value|)
  {
    var vary := GetFields(s, budget);
    FieldsAreCanonical(s, budget);
    var values := ValuesAreCanonical(vary.rest, 13, []);
    assert [] + values == values;
  }

  lemma FieldsOfRecordAreCanonical(texts: seq<Bytes>, s: Bytes, budget: nat)
    requires |texts| == 4 && DecodeFields(texts, s, budget).Some?
    requires forall x :: x in texts ==> Is64(|x|)
    ensures var r := DecodeFields(texts, s, budget).value;
            && Texts(r) == texts && WellFormed(r) && |r.headers| <= MAX_FIELDS && |r.vary| <= MAX_FIELDS
            && FieldBytes(r.headers) + FieldBytes(r.vary) <= budget
            && s == PutFields(r.headers, PutFields(r.vary, PutValues(r.values, [])))
  {
    var headers := GetFields(s, budget);
    FieldsAreCanonical(s, budget);
    VaryIsCanonical(texts, headers.value, headers.rest, headers.budget);
  }

  /** Every file that reads is exactly what writing its record puts out, within the bounds. */
  lemma AcceptedFilesAreWritten(s: Bytes)
    requires Decode(s).Some?
    ensures var r := Decode(s).value; WellFormed(r) && Bounded(r) && s == Encode(r)
  {
    var got := GetTexts(s[9..], 4, BUDGET, []);
    var texts := TextsAreCanonical(s[9..], 4, BUDGET, []);
    assert [] + texts == texts;
    FieldsOfRecordAreCanonical(got.value, got.rest, got.budget);
    assert s == MAGIC + s[9..];
  }

  // ---------------------------------------------------------------------------
  // The layout
  // ---------------------------------------------------------------------------

  /** A size as eight bytes, least significant first, and the text. */
  function Sized(text: Bytes): (s: Bytes) { Digits(|text|, 8) + text }

  function Pairs(fields: seq<Field>): (s: Bytes) {
    if fields == [] then [] else Sized(fields[0].name) + Sized(fields[0].value) + Pairs(fields[1..])
  }

  function Numbers(values: seq<nat>): (s: Bytes) { if values == [] then [] else Digits(values[0], 8) + Numbers(values[1..]) }

  lemma NumberIsDigits(v: nat)
    ensures PutNumber(v) == Digits(v, 8)
  {
    PutIsDigits(v, 0);
  }

  lemma SizedIsPut(text: Bytes, tail: Bytes)
    ensures PutText(text, tail) == Sized(text) + tail
  {
    NumberIsDigits(|text|);
  }

  lemma {:induction false} PairsArePut(fields: seq<Field>, tail: Bytes)
    ensures PutPairs(fields, tail) == Pairs(fields) + tail
  {
    if fields != [] {
      var rest := PutPairs(fields[1..], tail);
      PairsArePut(fields[1..], tail);
      SizedIsPut(fields[0].name, PutText(fields[0].value, rest));
      SizedIsPut(fields[0].value, rest);
    }
  }

  lemma {:induction false} NumbersArePut(values: seq<nat>, tail: Bytes)
    ensures PutValues(values, tail) == Numbers(values) + tail
  {
    if values != [] {
      NumbersArePut(values[1..], tail);
      NumberIsDigits(values[0]);
    }
  }

  lemma FieldsArePut(fields: seq<Field>, tail: Bytes)
    ensures PutFields(fields, tail) == Digits(|fields|, 8) + (Pairs(fields) + tail)
  {
    NumberIsDigits(|fields|);
    PairsArePut(fields, tail);
  }

  lemma FirstTextIsPut(text: Bytes, rest: seq<Bytes>, tail: Bytes)
    ensures PutTexts([text] + rest, tail) == Sized(text) + PutTexts(rest, tail)
  {
    assert ([text] + rest)[1..] == rest;
    SizedIsPut(text, PutTexts(rest, tail));
  }

  lemma TextsArePut(a: Bytes, b: Bytes, c: Bytes, d: Bytes, tail: Bytes)
    ensures PutTexts([a, b, c, d], tail) == Sized(a) + (Sized(b) + (Sized(c) + (Sized(d) + tail)))
  {
    FirstTextIsPut(d, [], tail);
    FirstTextIsPut(c, [d], tail);
    FirstTextIsPut(b, [c, d], tail);
    FirstTextIsPut(a, [b, c, d], tail);
    assert [a, b, c, d] == [a] + [b, c, d] && [b, c, d] == [b] + [c, d] && [c, d] == [c] + [d] && [d] == [d] + [];
  }

  /** The lists and the numbers of a record. */
  function ListsOf(r: Record): (s: Bytes) {
    Digits(|r.headers|, 8) + (Pairs(r.headers) + (Digits(|r.vary|, 8) + (Pairs(r.vary) + Numbers(r.values))))
  }

  lemma ListsArePut(r: Record)
    ensures PutFields(r.headers, PutFields(r.vary, PutValues(r.values, []))) == ListsOf(r)
  {
    NumbersArePut(r.values, []);
    assert Numbers(r.values) + [] == Numbers(r.values);
    FieldsArePut(r.vary, Numbers(r.values));
    FieldsArePut(r.headers, PutFields(r.vary, Numbers(r.values)));
  }

  /** A record file is the tag FECACHE1 and a line end; key, website, policy and URL, each after its size;
      the number of headers and each header's name and value after their sizes; the Vary pairs in the
      same way; and the numbers, every number in eight bytes with the least significant first. */
  lemma LayoutIs(r: Record)
    ensures Encode(r) == [70, 69, 67, 65, 67, 72, 69, 49, 10]
                         + (Sized(r.key) + (Sized(r.website) + (Sized(r.policy) + (Sized(r.url) + ListsOf(r)))))
  {
    ListsArePut(r);
    TextsArePut(r.key, r.website, r.policy, r.url, ListsOf(r));
  }
}
