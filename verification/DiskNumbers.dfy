/** Eight-byte little-endian numbers of the on-disk cache record (node/data/cache_disk_record.h). */
module DiskNumbers {
  import opened Wrappers

  type Byte = b: nat | b < 256

  type Bytes = seq<Byte>

  /** x << (8 * i). */
  function Up(x: nat, i: nat): (r: nat) { if i == 0 then x else 256 * Up(x, i - 1) }

  /** x >> (8 * i). */
  function Down(x: nat, i: nat): (r: nat) { if i == 0 then x else Down(x, i - 1) / 256 }

  predicate Is64(v: nat) { v <= U64_MAX }

  /** The bytes of `v` from number i on. */
  function PutNumberFrom(v: nat, i: nat): (s: Bytes)
    requires i <= 8
    decreases 8 - i, v
  {
    if i == 8 then [] else [Down(v, i) % 256] + PutNumberFrom(v, i + 1)
  }

  function PutNumber(v: nat): (s: Bytes) { PutNumberFrom(v, 0) }

  datatype Number = NoNumber | Number(value: nat, rest: Bytes)

  function GetNumberFrom(s: Bytes, i: nat, value: nat): (r: Number)
    requires i <= 8
    decreases 8 - i, s
  {
    if i == 8 then Number(value, s)
    else if s == [] then NoNumber
    else GetNumberFrom(s[1..], i + 1, value + Up(s[0], i))
  }

  function GetNumber(s: Bytes): (r: Number) { GetNumberFrom(s, 0, 0) }

  // ---------------------------------------------------------------------------
  // The number that bytes spell, least significant first
  // ---------------------------------------------------------------------------

  function Value(s: Bytes): (v: nat) { if s == [] then 0 else s[0] + 256 * Value(s[1..]) }

  function Digits(v: nat, n: nat): (s: Bytes)
    ensures |s| == n
  {
    if n == 0 then [] else [v % 256] + Digits(v / 256, n - 1)
  }

  lemma {:induction false} DigitsSpell(v: nat, n: nat)
    requires v < Up(1, n)
    ensures Value(Digits(v, n)) == v
  {
    if n > 0 {
      DigitsSpell(v / 256, n - 1);
      assert Digits(v, n)[1..] == Digits(v / 256, n - 1);
    }
  }

  lemma {:induction false} SpellingsAreDigits(s: Bytes)
    ensures Value(s) < Up(1, |s|) && Digits(Value(s), |s|) == s
  {
    if s != [] {
      SpellingsAreDigits(s[1..]);
      assert Value(s) / 256 == Value(s[1..]) && Value(s) % 256 == s[0];
    }
  }

  lemma {:induction false} UpAdds(a: nat, b: nat, i: nat)
    ensures Up(a + 256 * b, i) == Up(a, i) + Up(b, i + 1)
  {
    if i > 0 { UpAdds(a, b, i - 1); }
  }

  lemma {:induction false} UpZero(i: nat)
    ensures Up(0, i) == 0
  {
    if i > 0 { UpZero(i - 1); }
  }

  lemma {:induction false} PutIsDigits(v: nat, i: nat)
    requires i <= 8
    ensures PutNumberFrom(v, i) == Digits(Down(v, i), 8 - i)
    decreases 8 - i
  {
    if i < 8 {
      PutIsDigits(v, i + 1);
      assert Down(v, i + 1) == Down(v, i) / 256;
    }
  }

  lemma {:induction false} GetIsValue(s: Bytes, i: nat, value: nat)
    requires i <= 8
    ensures GetNumberFrom(s, i, value) ==
            if |s| < 8 - i then NoNumber else Number(value + Up(Value(s[..8 - i]), i), s[8 - i..])
    decreases 8 - i
  {
    if i == 8 {
      UpZero(8);
      assert s[..0] == [] && s[0..] == s;
    } else if s != [] {
      GetIsValue(s[1..], i + 1, value + Up(s[0], i));
      if |s| >= 8 - i {
        assert s[..8 - i][1..] == s[1..][..7 - i] && s[1..][7 - i..] == s[8 - i..];
        UpAdds(s[0], Value(s[1..][..7 - i]), i);
      }
    }
  }

  lemma EightBytes()
    ensures Up(1, 8) == U64_MAX + 1
  {
  }

  /** A written number is read back, whatever follows it. */
  lemma NumberRoundTrip(v: nat, tail: Bytes)
    requires Is64(v)
    ensures GetNumber(PutNumber(v) + tail) == Number(v, tail)
  {
    var s := PutNumber(v) + tail;
    PutIsDigits(v, 0);
    GetIsValue(s, 0, 0);
    assert s[..8] == Digits(v, 8) && s[8..] == tail;
    EightBytes();
    DigitsSpell(v, 8);
  }

  lemma EightAreCanonical(s: Bytes)
    requires |s| == 8
    ensures Is64(Value(s)) && PutNumber(Value(s)) == s
  {
    SpellingsAreDigits(s);
    EightBytes();
    PutIsDigits(Value(s), 0);
  }

  lemma UpIsNothing(x: nat)
    ensures Up(x, 0) == x
  {
  }

  /** Whatever is read as a number was written by writing that number. */
  lemma NumberIsCanonical(s: Bytes)
    requires GetNumber(s).Number?
    ensures var r := GetNumber(s); Is64(r.value) && s == PutNumber(r.value) + r.rest
  {
    GetIsValue(s, 0, 0);
    EightAreCanonical(s[..8]);
    UpIsNothing(Value(s[..8]));
    assert s == s[..8] + s[8..];
  }

  // ---------------------------------------------------------------------------
  // The loops
  // ---------------------------------------------------------------------------

  lemma PutOneMore(before: Bytes, v: nat, i: nat)
    requires i < 8
    ensures (before + [Down(v, i) % 256]) + PutNumberFrom(v, i + 1) == before + PutNumberFrom(v, i)
  {
    Regroup(before, [Down(v, i) % 256], PutNumberFrom(v, i + 1));
  }

  lemma Regroup(a: Bytes, b: Bytes, c: Bytes)
    ensures (a + b) + c == a + (b + c)
  {
  }

  method WriteNumber(output: Bytes, v: nat) returns (next: Bytes)
    ensures next == output + PutNumber(v)
  {
    next := output;
    var i := 0;
    while i < 8
      invariant i <= 8 && next + PutNumberFrom(v, i) == output + PutNumber(v)
    {
      PutOneMore(next, v, i);
      next := next + [Down(v, i) % 256];
      i := i + 1;
    }
    assert next + [] == next;
  }

  method ReadNumber(input: Bytes) returns (r: Number)
    ensures r == GetNumber(input)
  {
    var value: nat, rest, i := 0, input, 0;
    while i < 8
      invariant i <= 8 && GetNumberFrom(rest, i, value) == GetNumber(input)
    {
      if rest == [] { return NoNumber; }
      value, rest, i := value + Up(rest[0], i), rest[1..], i + 1;
    }
    r := Number(value, rest);
  }
}
