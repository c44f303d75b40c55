/** The loops of node/data/cache_disk_record.h over an output and an input stream. A ghost tail
    stands for what is still to be written. */
module DiskRecordStream {
  import opened Wrappers
  import opened DiskNumbers
  import opened DiskRecord

  lemma TextSplits(output: Bytes, text: Bytes, tail: Bytes)
    ensures (output + PutNumber(|text|) + text) + tail == output + PutText(text, tail)
  {
    Regroup(output + PutNumber(|text|), text, tail);
    Regroup(output, PutNumber(|text|), text + tail);
  }

  method WriteText(output: Bytes, text: Bytes, ghost tail: Bytes) returns (next: Bytes)
    ensures next + tail == output + PutText(text, tail)
  {
    next := WriteNumber(output, |text|);
    next := next + text;
    TextSplits(output, text, tail);
  }

  method WriteTexts(output: Bytes, texts: seq<Bytes>, ghost tail: Bytes) returns (next: Bytes)
    ensures next + tail == output + PutTexts(texts, tail)
  {
    next := output;
    var i := 0;
    while i < |texts|
      invariant 0 <= i <= |texts| && next + PutTexts(texts[i..], tail) == output + PutTexts(texts, tail)
    {
      assert texts[i..][1..] == texts[i + 1..];
      next := WriteText(next, texts[i], PutTexts(texts[i + 1..], tail));
      i := i + 1;
    }
  }

  method WriteFields(output: Bytes, fields: seq<Field>, ghost tail: Bytes) returns (next: Bytes)
    ensures next + tail == output + PutFields(fields, tail)
  {
    next := WriteNumber(output, |fields|);
    Regroup(output, PutNumber(|fields|), PutPairs(fields, tail));
    next := WritePairs(next, fields, tail);
  }

  method WritePairs(output: Bytes, fields: seq<Field>, ghost tail: Bytes) returns (next: Bytes)
    ensures next + tail == output + PutPairs(fields, tail)
  {
    next := output;
    var i := 0;
    while i < |fields|
      invariant 0 <= i <= |fields| && next + PutPairs(fields[i..], tail) == output + PutPairs(fields, tail)
    {
      ghost var later := PutPairs(fields[i + 1..], tail);
      assert fields[i..][1..] == fields[i + 1..];
      next := WriteText(next, fields[i].name, PutText(fields[i].value, later));
      next := WriteText(next, fields[i].value, later);
      i := i + 1;
    }
  }

  method WriteValues(output: Bytes, values: seq<nat>, ghost tail: Bytes) returns (next: Bytes)
    ensures next + tail == output + PutValues(values, tail)
  {
    next := output;
    var i := 0;
    while i < |values|
      invariant 0 <= i <= |values| && next + PutValues(values[i..], tail) == output + PutValues(values, tail)
    {
      assert values[i..][1..] == values[i + 1..];
      Regroup(next, PutNumber(values[i]), PutValues(values[i + 1..], tail));
      next := WriteNumber(next, values[i]);
      i := i + 1;
    }
  }

  method Write(r: Record) returns (output: Bytes)
    ensures output == Encode(r)
  {
    ghost var values := PutValues(r.values, []);
    ghost var vary := PutFields(r.vary, values);
    ghost var headers := PutFields(r.headers, vary);
    output := WriteTexts(MAGIC, Texts(r), headers);
    output := WriteFields(output, r.headers, vary);
    output := WriteFields(output, r.vary, values);
    output := WriteValues(output, r.values, []);
    assert output + [] == output;
  }

  method ReadText(input: Bytes, budget: nat) returns (r: Got<Bytes>)
    ensures r == GetText(input, budget)
  {
    var size := ReadNumber(input);
    if size.NoNumber? || size.value > budget { return Fail; }
    if |size.rest| < size.value { return Fail; }
    r := Got(size.rest[..size.value], size.rest[size.value..], budget - size.value);
  }

  method ReadTexts(input: Bytes, n: nat, budget: nat) returns (r: Got<seq<Bytes>>)
    ensures r == GetTexts(input, n, budget, [])
  {
    var texts, rest, remaining, i := [], input, budget, 0;
    while i < n
      invariant 0 <= i <= n && GetTexts(rest, n - i, remaining, texts) == GetTexts(input, n, budget, [])
    {
      var text := ReadText(rest, remaining);
      if text.Fail? { return Fail; }
      texts, rest, remaining, i := texts + [text.value], text.rest, text.budget, i + 1;
    }
    r := Got(texts, rest, remaining);
  }

  method ReadFields(input: Bytes, budget: nat) returns (r: Got<seq<Field>>)
    ensures r == GetFields(input, budget)
  {
    var count := ReadNumber(input);
    if count.NoNumber? || count.value > MAX_FIELDS { return Fail; }
    var n, fields, rest, remaining, i := count.value, [], count.rest, budget, 0;
    while i < n
      invariant 0 <= i <= n && GetPairs(rest, n - i, remaining, fields) == GetPairs(count.rest, n, budget, [])
    {
      var name := ReadText(rest, remaining);
      if name.Fail? { return Fail; }
      var value := ReadText(name.rest, name.budget);
      if value.Fail? { return Fail; }
      fields, rest, remaining, i := fields + [Field(name.value, value.value)], value.rest, value.budget, i + 1;
    }
    r := Got(fields, rest, remaining);
  }

  method ReadValues(input: Bytes) returns (r: Got<seq<nat>>)
    ensures r == GetValues(input, 13, [])
  {
    var values, rest, i := [], input, 0;
    while i < 13
      invariant 0 <= i <= 13 && GetValues(rest, 13 - i, values) == GetValues(input, 13, [])
    {
      var value := ReadNumber(rest);
      if value.NoNumber? { return Fail; }
      values, rest, i := values + [value.value], value.rest, i + 1;
    }
    r := Got(values, rest, 0);
  }

  method Read(input: Bytes) returns (r: Option<Record>)
    ensures r == Decode(input)
  {
    if |input| < 9 || input[..9] != MAGIC { return None; }
    var texts := ReadTexts(input[9..], 4, BUDGET);
    if texts.Fail? { return None; }
    ghost var same := TextsAreCanonical(input[9..], 4, BUDGET, []);
    var headers := ReadFields(texts.rest, texts.budget);
    if headers.Fail? { return None; }
    var vary := ReadFields(headers.rest, headers.budget);
    if vary.Fail? { return None; }
    var values := ReadValues(vary.rest);
    if values.Fail? || values.rest != [] { return None; }
    r := Some(Record(texts.value[0], texts.value[1], texts.value[2], texts.value[3], headers.value, vary.value, values.value));
  }
}
