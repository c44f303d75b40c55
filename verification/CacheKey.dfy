/** Cache keys (node/data/cache_key.h, append_cache_key_part; node/data/response_cache.h, lookup):
    every part is preceded by its length, so a key gives its parts back. */
module CacheKey {
  import opened Wrappers
  import opened Text

  /** One part as it stands in a key. */
  function Framed(part: string): (s: string) { Decimal(|part|) + ":" + part }

  function Key(parts: seq<string>): (s: string)
    ensures s == "" <==> parts == []
  {
    if parts == [] then "" else Framed(parts[0]) + Key(parts[1..])
  }

  method AppendPart(key: string, part: string) returns (next: string)
    ensures next == key + Framed(part)
  {
    next := key + Decimal(|part|);
    next := next + ":";
    next := next + part;
    assert next == key + Framed(part);
  }

  // ---------------------------------------------------------------------------
  // The parts of a key
  // ---------------------------------------------------------------------------

  /** Everything up to the first colon is the length of the first part. */
  lemma LengthFirst(part: string, rest: string)
    ensures var s := Framed(part) + rest;
            && Find(s, ':') == |Decimal(|part|)| && s[..Find(s, ':')] == Decimal(|part|)
            && s[Find(s, ':') + 1..] == part + rest
  {
    var digits, s := Decimal(|part|), Framed(part) + rest;
    assert s[|digits|] == ':' && s[..|digits|] == digits && s[|digits| + 1..] == part + rest;
    assert forall i :: 0 <= i < |digits| ==> s[i] == digits[i] && digits[i] in digits;
    FindIs(s, ':', |digits|);
  }

  lemma FindIs(s: string, c: char, n: nat)
    requires n < |s| && s[n] == c && forall i :: 0 <= i < n ==> s[i] != c
    ensures Find(s, c) == n
  {
  }

  /** Two framed texts that are equal begin with the same part. */
  lemma FirstPartIsDetermined(a: string, x: string, b: string, y: string)
    requires Framed(a) + x == Framed(b) + y
    ensures a == b && x == y
  {
    LengthFirst(a, x);
    LengthFirst(b, y);
    assert |a| == Number(Decimal(|a|)) == |b|;
    assert (a + x)[..|a|] == a && (b + y)[..|b|] == b;
    assert (a + x)[|a|..] == x && (b + y)[|b|..] == y;
  }

  /** Injectivity: parts of any number, length and content are determined by their key. */
  lemma {:induction false} KeysAreInjective(a: seq<string>, b: seq<string>)
    requires Key(a) == Key(b)
    ensures a == b
  {
    if a != [] && b != [] {
      FirstPartIsDetermined(a[0], Key(a[1..]), b[0], Key(b[1..]));
      KeysAreInjective(a[1..], b[1..]);
      assert a == [a[0]] + a[1..] && b == [b[0]] + b[1..];
    }
  }

  lemma {:induction false} KeyAppends(parts: seq<string>, part: string)
    ensures Key(parts + [part]) == Key(parts) + Framed(part)
  {
    if parts == [] { assert [part][1..] == []; } else {
      KeyAppends(parts[1..], part);
      assert (parts + [part])[1..] == parts[1..] + [part];
      assert Framed(parts[0]) + (Key(parts[1..]) + Framed(part)) == (Framed(parts[0]) + Key(parts[1..])) + Framed(part);
    }
  }

  // ---------------------------------------------------------------------------
  // The key of a lookup
  // ---------------------------------------------------------------------------

  /** The fixed parts, the representation unless it is empty, and what the rule adds. */
  function Parts(fixed: seq<string>, representation: string, custom: seq<string>): (parts: seq<string>) {
    fixed + (if representation == "" then [] else [representation]) + custom
  }

  lemma KeyStep(before: seq<string>, parts: seq<string>, i: nat)
    requires i < |parts|
    ensures Key(before + parts[..i + 1]) == Key(before + parts[..i]) + Framed(parts[i])
  {
    assert before + parts[..i + 1] == before + parts[..i] + [parts[i]];
    KeyAppends(before + parts[..i], parts[i]);
  }

  method AppendAll(key: string, parts: seq<string>, ghost before: seq<string>) returns (next: string)
    requires key == Key(before)
    ensures next == Key(before + parts)
  {
    next := key;
    var i := 0;
    assert before + parts[..0] == before;
    while i < |parts|
      invariant 0 <= i <= |parts| && next == Key(before + parts[..i])
    {
      KeyStep(before, parts, i);
      next := AppendPart(next, parts[i]);
      i := i + 1;
    }
    assert parts[..i] == parts;
  }

  method LookupKey(fixed: seq<string>, representation: string, custom: seq<string>) returns (key: string)
    ensures key == Key(Parts(fixed, representation, custom))
  {
    key := AppendAll("", fixed, []);
    ghost var done: seq<string> := [] + fixed;
    if representation != "" {
      KeyAppends(done, representation);
      key := AppendPart(key, representation);
      done := done + [representation];
    }
    key := AppendAll(key, custom, done);
    assert done + custom == Parts(fixed, representation, custom);
  }

  /** Lookups that share a key share every fixed part: the website and its revision, the policy and its
      revision, the rule, the host, the target and the encoding. This holds under any two rules. */
  lemma LookupsAreSeparate(fixed: seq<string>, representation: string, custom: seq<string>,
                           fixed': seq<string>, representation': string, custom': seq<string>)
    requires |fixed| == |fixed'|
    requires Key(Parts(fixed, representation, custom)) == Key(Parts(fixed', representation', custom'))
    ensures fixed == fixed'
    ensures |custom| == |custom'| ==> representation == representation' && custom == custom'
  {
    var a, b := Parts(fixed, representation, custom), Parts(fixed', representation', custom');
    KeysAreInjective(a, b);
    assert a[..|fixed|] == fixed && b[..|fixed'|] == fixed';
    assert a[|a| - |custom|..] == custom && b[|b| - |custom'|..] == custom';
    assert representation != "" ==> a[|fixed|] == representation;
    assert representation' != "" ==> b[|fixed'|] == representation';
  }
}
