/** Networks and addresses of IP lists (node/data/request_match_list.h, add_network and contains). */
module AddressNetworks {
  // An address is its sequence of 32 or 128 bits, most significant first: bit number `bit` is the
  // one the source reaches as byte bit / 8 under the mask 1 << (7 - bit % 8). Comparing the byte
  // arrays is comparing the numbers that the bits spell.

  import opened Wrappers
  import opened MatchList

  type Bits = seq<bool>

  /** The number that the bits spell. */
  function Value(s: Bits): (v: nat) {
    if s == [] then 0 else 2 * Value(s[..|s| - 1]) + (if s[|s| - 1] then 1 else 0)
  }

  function Repeat(bit: bool, n: nat): (r: Bits)
    ensures |r| == n && forall i :: 0 <= i < n ==> r[i] == bit
  {
    if n == 0 then [] else [bit] + Repeat(bit, n - 1)
  }

  /** `s` with every bit from `prefix` on replaced by `bit`. */
  function Padded(s: Bits, prefix: nat, bit: bool): (r: Bits)
    requires prefix <= |s|
  {
    s[..prefix] + Repeat(bit, |s| - prefix)
  }

  lemma {:induction false} ValueIsInjective(a: Bits, b: Bits)
    requires |a| == |b| && Value(a) == Value(b)
    ensures a == b
  {
    if a != [] {
      var n := |a| - 1;
      ValueIsInjective(a[..n], b[..n]);
      assert a == a[..n] + [a[n]] && b == b[..n] + [b[n]];
    }
  }

  /** The range from the cleared to the filled address holds exactly the addresses sharing the prefix. */
  lemma {:induction false} RangeIsPrefix(a: Bits, x: Bits, prefix: nat)
    requires |a| == |x| && prefix <= |a|
    ensures Value(Padded(a, prefix, false)) <= Value(x) <= Value(Padded(a, prefix, true)) <==> a[..prefix] == x[..prefix]
  {
    var n := |a| - 1;
    if prefix == |a| {
      assert Padded(a, prefix, false) == a == Padded(a, prefix, true) && x[..prefix] == x && a[..prefix] == a;
      if Value(a) == Value(x) { ValueIsInjective(a, x); }
    } else {
      RangeIsPrefix(a[..n], x[..n], prefix);
      assert Padded(a, prefix, false)[..n] == Padded(a[..n], prefix, false);
      assert Padded(a, prefix, true)[..n] == Padded(a[..n], prefix, true);
      assert a[..n][..prefix] == a[..prefix] && x[..n][..prefix] == x[..prefix];
    }
  }

  /** The bit loop of add_network, on the two ends at once. */
  method NetworkRange(address: Bits, prefix: nat, expires: nat) returns (r: Range)
    requires prefix <= |address|
    ensures r.expires == expires
    ensures forall x: Bits :: |x| == |address| ==> (r.first <= Value(x) <= r.last <==> address[..prefix] == x[..prefix])
  {
    var first, last := new bool[|address|](i requires 0 <= i < |address| => address[i]), new bool[|address|](i requires 0 <= i < |address| => address[i]);
    var bit := prefix;
    while bit < |address|
      invariant prefix <= bit <= |address|
      invariant first[..] == Padded(address[..bit], prefix, false) + address[bit..]
      invariant last[..] == Padded(address[..bit], prefix, true) + address[bit..]
    {
      first[bit] := false;
      last[bit] := true;
      bit := bit + 1;
    }
    assert address[..bit] == address;
    assert first[..] == Padded(address, prefix, false) && last[..] == Padded(address, prefix, true);
    forall x: Bits | |x| == |address|
      ensures Value(first[..]) <= Value(x) <= Value(last[..]) <==> address[..prefix] == x[..prefix]
    {
      RangeIsPrefix(address, x, prefix);
    }
    r := Range(Value(first[..]), Value(last[..]), expires);
  }

  // ---------------------------------------------------------------------------
  // Families and normalisation
  // ---------------------------------------------------------------------------

  datatype Address = V4(bits: Bits) | V6(bits: Bits)

  predicate WellFormed(a: Address) { |a.bits| == Width(a) }

  function Width(a: Address): nat { if a.V4? then 32 else 128 }

  /** The first 96 bits of ::ffff:0:0. */
  function MappedPrefix(): (r: Bits) ensures |r| == 96 { Repeat(false, 80) + Repeat(true, 16) }

  predicate Mapped(a: Address) requires WellFormed(a) { a.V6? && a.bits[..96] == MappedPrefix() }

  /** What follows the address in an entry: nothing, something unreadable, or a length. */
  datatype Suffix = NoSuffix | BadSuffix | Length(prefix: nat)

  /** One entry; the address is None when its text does not parse or carries a scope. */
  datatype Entry = Entry(address: Option<Address>, suffix: Suffix, expires: nat)

  predicate Plausible(e: Entry) { e.address.Some? ==> WellFormed(e.address.value) }

  /** Entries that the constructor does not reject. */
  predicate Accepted(e: Entry) requires Plausible(e) {
    && e.address.Some? && !e.suffix.BadSuffix?
    && (e.suffix.Length? ==> e.suffix.prefix <= Width(e.address.value))
  }

  function PrefixOf(e: Entry): (p: nat)
    requires Plausible(e) && Accepted(e)
    ensures p <= Width(e.address.value)
  {
    if e.suffix.Length? then e.suffix.prefix else Width(e.address.value)
  }

  datatype Network = Network(address: Address, prefix: nat)

  /** An entry written as a long enough IPv4-mapped network is an IPv4 network. */
  function NetworkOf(e: Entry): (n: Network)
    requires Plausible(e) && Accepted(e)
    ensures WellFormed(n.address) && n.prefix <= |n.address.bits|
  {
    var a, p := e.address.value, PrefixOf(e);
    if Mapped(a) && p >= 96 then Network(V4(a.bits[96..]), p - 96) else Network(a, p)
  }

  function Plain(a: Address): (r: Address)
    requires WellFormed(a)
    ensures WellFormed(r)
  {
    if Mapped(a) then V4(a.bits[96..]) else a
  }

  predicate Covers(e: Entry, a: Address)
    requires Plausible(e) && Accepted(e) && WellFormed(a)
  {
    var n, x := NetworkOf(e), Plain(a);
    n.address.V4? == x.V4? && n.address.bits[..n.prefix] == x.bits[..n.prefix]
  }

  lemma SplitPrefix(b: Bits, x: Bits, cut: nat, p: nat)
    requires cut <= p <= |b| && |b| == |x|
    ensures b[..p] == x[..p] <==> b[..cut] == x[..cut] && b[cut..][..p - cut] == x[cut..][..p - cut]
  {
    assert b[..p] == b[..cut] + b[cut..][..p - cut];
    assert x[..p] == x[..cut] + x[cut..][..p - cut];
    assert b[..cut] == b[..p][..cut] && b[cut..][..p - cut] == b[..p][cut..];
    assert x[..cut] == x[..p][..cut] && x[cut..][..p - cut] == x[..p][cut..];
  }

  /** Among IPv6 spellings, coverage is sharing the written prefix, except that a network wider
      than the mapped block never covers a mapped address. */
  lemma CoverageOfSixes(e: Entry, a: Address)
    requires Plausible(e) && Accepted(e) && WellFormed(a) && e.address.value.V6? && a.V6?
    ensures Covers(e, a) <==> e.address.value.bits[..PrefixOf(e)] == a.bits[..PrefixOf(e)] && (Mapped(a) ==> PrefixOf(e) >= 96)
  {
    var b, x, p := e.address.value.bits, a.bits, PrefixOf(e);
    if p >= 96 {
      SplitPrefix(b, x, 96, p);
    }
  }

  // ---------------------------------------------------------------------------
  // What an entry covers, bit by bit
  // ---------------------------------------------------------------------------

  /** An IPv4 address, or an IPv6 one whose first 80 bits are clear and whose next 16 are set. */
  predicate IsFour(a: Address)
    requires WellFormed(a)
  {
    a.V4? || forall i :: 0 <= i < 96 ==> a.bits[i] == (i >= 80)
  }

  /** Bit `i` of the IPv6 form of an address. */
  function WideBit(a: Address, i: nat): (b: bool)
    requires WellFormed(a) && i < 128
  {
    if a.V6? then a.bits[i] else if i < 96 then i >= 80 else a.bits[i - 96]
  }

  /** Bit `i` of the IPv4 form of an address that has one. */
  function FourBit(a: Address, i: nat): (b: bool)
    requires WellFormed(a) && i < 32
  {
    if a.V4? then a.bits[i] else a.bits[96 + i]
  }

  /** The addresses of an entry: its own in either spelling when it has no length; the IPv4 and mapped
      addresses with its first bits for an IPv4 entry; and for an IPv6 entry those whose IPv6 form has
      its first bits, where one shorter than the mapped prefix holds no address that has an IPv4 form. */
  predicate Within(e: Entry, a: Address)
    requires Plausible(e) && Accepted(e) && WellFormed(a)
  {
    if e.suffix.Length? then
      match e.address.value
      case V4(bits) => IsFour(a) && forall i :: 0 <= i < e.suffix.prefix ==> bits[i] == FourBit(a, i)
      case V6(bits) => (IsFour(a) ==> e.suffix.prefix >= 96) && forall i :: 0 <= i < e.suffix.prefix ==> bits[i] == WideBit(a, i)
    else forall i :: 0 <= i < 128 ==> WideBit(e.address.value, i) == WideBit(a, i)
  }

  lemma IsFourIsMapped(a: Address)
    requires WellFormed(a)
    ensures IsFour(a) <==> a.V4? || Mapped(a)
  {
    assert forall i :: 0 <= i < 96 ==> MappedPrefix()[i] == (i >= 80);
    if a.V6? && IsFour(a) { assert a.bits[..96] == MappedPrefix(); }
    if Mapped(a) { assert forall i :: 0 <= i < 96 ==> a.bits[i] == a.bits[..96][i]; }
  }

  lemma PlainBits(a: Address, i: nat)
    requires WellFormed(a) && IsFour(a) && i < 32
    ensures Plain(a).V4? && Plain(a).bits[i] == FourBit(a, i) == WideBit(a, 96 + i)
  {
    IsFourIsMapped(a);
  }

  lemma PrefixBits(a: Bits, b: Bits, p: nat)
    requires p <= |a| && p <= |b|
    ensures a[..p] == b[..p] <==> forall i :: 0 <= i < p ==> a[i] == b[i]
  {
    if a[..p] == b[..p] { assert forall i :: 0 <= i < p ==> a[i] == a[..p][i] && b[i] == b[..p][i]; }
  }

  lemma LengthOfFour(e: Entry, a: Address)
    requires Plausible(e) && Accepted(e) && WellFormed(a) && e.suffix.Length? && e.address.value.V4?
    ensures Covers(e, a) <==> Within(e, a)
  {
    IsFourIsMapped(a);
    var p := e.suffix.prefix;
    if IsFour(a) {
      forall i | 0 <= i < 32 ensures Plain(a).bits[i] == FourBit(a, i) { PlainBits(a, i); }
      PrefixBits(e.address.value.bits, Plain(a).bits, p);
    }
  }

  lemma LengthOfSix(e: Entry, a: Address)
    requires Plausible(e) && Accepted(e) && WellFormed(a) && e.suffix.Length? && e.address.value.V6?
    ensures Covers(e, a) <==> Within(e, a)
  {
    var b, p := e.address.value.bits, e.suffix.prefix;
    IsFourIsMapped(a);
    if a.V6? {
      CoverageOfSixes(e, a);
      PrefixBits(b, a.bits, p);
    } else {
      var x := V6(MappedPrefix() + a.bits);
      assert x.bits[..96] == MappedPrefix() && x.bits[96..] == a.bits;
      assert Plain(x) == a;
      assert Covers(e, a) <==> Covers(e, x);
      CoverageOfSixes(e, x);
      PrefixBits(b, x.bits, p);
      assert forall i :: 0 <= i < 128 ==> x.bits[i] == WideBit(a, i);
    }
  }

  /** Two addresses have the same IPv6 form exactly when they are the same after normalisation. */
  lemma WideIsPlain(a: Address, b: Address)
    requires WellFormed(a) && WellFormed(b)
    ensures Plain(a) == Plain(b) <==> forall i :: 0 <= i < 128 ==> WideBit(a, i) == WideBit(b, i)
  {
    IsFourIsMapped(a);
    IsFourIsMapped(b);
    if IsFour(a) { forall i | 0 <= i < 32 ensures Plain(a).bits[i] == WideBit(a, 96 + i) { PlainBits(a, i); } }
    if IsFour(b) { forall i | 0 <= i < 32 ensures Plain(b).bits[i] == WideBit(b, 96 + i) { PlainBits(b, i); } }
    if forall i :: 0 <= i < 128 ==> WideBit(a, i) == WideBit(b, i) {
      assert forall i :: 0 <= i < 96 && a.V6? ==> a.bits[i] == WideBit(a, i);
      assert forall i :: 0 <= i < 96 && b.V6? ==> b.bits[i] == WideBit(b, i);
      assert IsFour(a) <==> IsFour(b);
      if IsFour(a) {
        assert Plain(a).bits == Plain(b).bits;
      } else {
        assert forall i :: 0 <= i < 128 ==> a.bits[i] == WideBit(a, i) && b.bits[i] == WideBit(b, i);
        assert a.bits == b.bits;
      }
    }
    if Plain(a) == Plain(b) {
      forall i | 0 <= i < 128 ensures WideBit(a, i) == WideBit(b, i) {
        if IsFour(a) && i >= 96 { assert Plain(a).bits[i - 96] == Plain(b).bits[i - 96]; }
      }
    }
  }

  lemma OwnAddress(e: Entry, a: Address)
    requires Plausible(e) && Accepted(e) && WellFormed(a) && e.suffix.NoSuffix?
    ensures Covers(e, a) <==> Within(e, a)
  {
    var own := e.address.value;
    WideIsPlain(own, a);
    assert NetworkOf(e).address == Plain(own);
    assert NetworkOf(e).address.bits[..NetworkOf(e).prefix] == Plain(own).bits;
    if Plain(own).V4? == Plain(a).V4? { assert Plain(a).bits[..NetworkOf(e).prefix] == Plain(a).bits; }
  }

  /** Membership in an entry's network after normalisation is what its address and length say. */
  lemma CoversIsWithin(e: Entry, a: Address)
    requires Plausible(e) && Accepted(e) && WellFormed(a)
    ensures Covers(e, a) <==> Within(e, a)
  {
    if e.suffix.NoSuffix? { OwnAddress(e, a); }
    else if e.address.value.V4? { LengthOfFour(e, a); }
    else { LengthOfSix(e, a); }
  }

  /** ::/0, and the mapped form of 0.0.0.0. */
  function WidestNetwork(): Entry { Entry(Some(V6(Repeat(false, 128))), Length(0), 0) }

  function MappedZero(): Address { V6(MappedPrefix() + Repeat(false, 32)) }

  /** ::/0 shares its prefix with ::ffff:0.0.0.0 and yet does not cover it. */
  lemma WidestNetworkMissesMapped()
    ensures Plausible(WidestNetwork()) && Accepted(WidestNetwork()) && WellFormed(MappedZero())
    ensures WidestNetwork().address.value.bits[..PrefixOf(WidestNetwork())] == MappedZero().bits[..PrefixOf(WidestNetwork())]
    ensures !Covers(WidestNetwork(), MappedZero())
  {
    assert MappedZero().bits[..96] == MappedPrefix();
    CoverageOfSixes(WidestNetwork(), MappedZero());
  }

  // ---------------------------------------------------------------------------
  // The list
  // ---------------------------------------------------------------------------

  function Expiry(e: Entry): nat { if e.expires == 0 then U64_MAX else e.expires }

  predicate LiveAt(e: Entry, clock: nat) { e.expires == 0 || e.expires > clock }

  /** Some entry of one family covers the bits at that time. */
  ghost predicate Listed(entries: seq<Entry>, four: bool, x: Bits, now: nat)
    requires forall e :: e in entries ==> Plausible(e) && Accepted(e)
  {
    exists e :: e in entries && InFamily(e, four, x) && Expiry(e) > now
  }

  predicate InFamily(e: Entry, four: bool, x: Bits)
    requires Plausible(e) && Accepted(e)
  {
    var n := NetworkOf(e);
    n.address.V4? == four && |x| == |n.address.bits| && n.address.bits[..n.prefix] == x[..n.prefix]
  }

  function FamilyWidth(four: bool): nat { if four then 32 else 128 }

  /** The ranges say what the entries say. */
  ghost predicate Represents(ranges: seq<Range>, entries: seq<Entry>, four: bool)
    requires forall e :: e in entries ==> Plausible(e) && Accepted(e)
  {
    forall x: Bits, now: nat :: |x| == FamilyWidth(four) ==> (Scan(ranges, Value(x), now) <==> Listed(entries, four, x, now))
  }

  lemma ListedAppend(entries: seq<Entry>, e: Entry, four: bool, x: Bits, now: nat)
    requires forall e :: e in entries ==> Plausible(e) && Accepted(e)
    requires Plausible(e) && Accepted(e)
    ensures Listed(entries + [e], four, x, now) <==> Listed(entries, four, x, now) || (InFamily(e, four, x) && Expiry(e) > now)
  {
    var all := entries + [e];
    assert e in all;
    if Listed(entries, four, x, now) {
      var f :| f in entries && InFamily(f, four, x) && Expiry(f) > now;
      assert f in all;
    }
  }

  /** Adding an entry's range to its own family keeps both families faithful. */
  lemma RangeAdded(ranges: seq<Range>, entries: seq<Entry>, e: Entry, r: Range)
    requires forall e :: e in entries ==> Plausible(e) && Accepted(e)
    requires Plausible(e) && Accepted(e)
    requires Represents(ranges, entries, NetworkOf(e).address.V4?)
    requires forall x: Bits :: |x| == |NetworkOf(e).address.bits| ==>
      (r.first <= Value(x) <= r.last <==> NetworkOf(e).address.bits[..NetworkOf(e).prefix] == x[..NetworkOf(e).prefix])
    requires r.expires == Expiry(e)
    ensures Represents(ranges + [r], entries + [e], NetworkOf(e).address.V4?)
  {
    var four := NetworkOf(e).address.V4?;
    forall x: Bits, now: nat | |x| == FamilyWidth(four)
      ensures Scan(ranges + [r], Value(x), now) <==> Listed(entries + [e], four, x, now)
    {
      ScanAppend(ranges, r, Value(x), now);
      ListedAppend(entries, e, four, x, now);
    }
  }

  lemma OtherFamilyKept(ranges: seq<Range>, entries: seq<Entry>, e: Entry)
    requires forall e :: e in entries ==> Plausible(e) && Accepted(e)
    requires Plausible(e) && Accepted(e)
    requires Represents(ranges, entries, !NetworkOf(e).address.V4?)
    ensures Represents(ranges, entries + [e], !NetworkOf(e).address.V4?)
  {
    var four := !NetworkOf(e).address.V4?;
    forall x: Bits, now: nat | |x| == FamilyWidth(four)
      ensures Scan(ranges, Value(x), now) <==> Listed(entries + [e], four, x, now)
    {
      ListedAppend(entries, e, four, x, now);
    }
  }

  /** One entry's network goes to its own family. */
  method AddNetwork(ranges4: seq<Range>, ranges6: seq<Range>, ghost read: seq<Entry>, e: Entry) returns (next4: seq<Range>, next6: seq<Range>)
    requires forall e :: e in read ==> Plausible(e) && Accepted(e)
    requires Plausible(e) && Accepted(e) && Represents(ranges4, read, true) && Represents(ranges6, read, false)
    ensures Represents(next4, read + [e], true) && Represents(next6, read + [e], false)
  {
    var network := NetworkOf(e);
    var range := NetworkRange(network.address.bits, network.prefix, Expiry(e));
    next4, next6 := ranges4, ranges6;
    if network.address.V4? {
      RangeAdded(ranges4, read, e, range);
      OtherFamilyKept(ranges6, read, e);
      next4 := ranges4 + [range];
    } else {
      RangeAdded(ranges6, read, e, range);
      OtherFamilyKept(ranges4, read, e);
      next6 := ranges6 + [range];
    }
  }

  /** The entry loop; it stops where the source throws. */
  method ReadEntries(given: seq<Entry>) returns (ok: bool, ranges4: seq<Range>, ranges6: seq<Range>, expiring: bool)
    requires forall e :: e in given ==> Plausible(e)
    ensures ok <==> forall e :: e in given ==> Accepted(e)
    ensures ok ==> Represents(ranges4, given, true) && Represents(ranges6, given, false)
    ensures ok ==> (expiring <==> exists e :: e in given && e.expires != 0)
  {
    ranges4, ranges6, expiring := [], [], false;
    var i := 0;
    while i < |given|
      invariant 0 <= i <= |given|
      invariant forall e :: e in given[..i] ==> Plausible(e) && Accepted(e)
      invariant Represents(ranges4, given[..i], true) && Represents(ranges6, given[..i], false)
      invariant expiring <==> exists e :: e in given[..i] && e.expires != 0
    {
      var e := given[i];
      assert given[..i + 1] == given[..i] + [e];
      if !Accepted(e) { return false, [], [], false; }
      expiring := expiring || e.expires != 0;
      ranges4, ranges6 := AddNetwork(ranges4, ranges6, given[..i], e);
      i := i + 1;
    }
    assert given[..i] == given;
    ok := true;
  }

  /** A tree vector answers for a family, its root first. */
  predicate Found(tree: seq<Node>, address: nat, now: nat)
    requires Forward(tree)
  {
    tree != [] && InTree(tree, At(0), address, now)
  }

  ghost predicate Indexes(tree: seq<Node>, entries: seq<Entry>, four: bool)
    requires forall e :: e in entries ==> Plausible(e) && Accepted(e)
  {
    && Forward(tree)
    && forall x: Bits, now: nat :: |x| == FamilyWidth(four) ==> (Found(tree, Value(x), now) <==> Listed(entries, four, x, now))
  }

  /** Sort, merge and build for one family. */
  method Index(ranges: seq<Range>, ghost entries: seq<Entry>, ghost four: bool) returns (tree: seq<Node>)
    requires forall e :: e in entries ==> Plausible(e) && Accepted(e)
    requires Represents(ranges, entries, four)
    ensures Indexes(tree, entries, four)
  {
    var sorted := SortRanges(ranges);
    var merged := Merge(sorted);
    var link;
    tree, link := BuildTree(merged, [], 0, |merged|);
    forall x: Bits, now: nat | |x| == FamilyWidth(four)
      ensures Found(tree, Value(x), now) <==> Listed(entries, four, x, now)
    {
      ScanByMembers(ranges, sorted, Value(x), now);
      InTreeIsScan(tree, link, merged, 0, |merged|, Value(x), now);
    }
  }

  class AddressList {
    var fours: seq<Node>
    var sixes: seq<Node>
    var hasExpiration: bool
    ghost var entries: seq<Entry>

    ghost predicate Valid() reads this {
      && (forall e :: e in entries ==> Plausible(e) && Accepted(e))
      && Indexes(fours, entries, true) && Indexes(sixes, entries, false)
      && (hasExpiration <==> exists e :: e in entries && e.expires != 0)
    }

    /** The constructor; false where the source throws. */
    method Build(given: seq<Entry>) returns (ok: bool)
      requires forall e :: e in given ==> Plausible(e)
      modifies this
      ensures ok <==> forall e :: e in given ==> Accepted(e)
      ensures ok ==> Valid() && entries == given
    {
      var ranges4, ranges6, expiring;
      ok, ranges4, ranges6, expiring := ReadEntries(given);
      if ok {
        entries, hasExpiration := given, expiring;
        fours := Index(ranges4, given, true);
        sixes := Index(ranges6, given, false);
      }
    }

    /** Membership is the linear scan over the entries: the address is within some live entry. */
    method Contains(input: Option<Address>, clock: nat) returns (found: bool)
      requires Valid() && clock < U64_MAX
      requires input.Some? ==> WellFormed(input.value)
      ensures found <==> input.Some? && exists e :: e in entries && Within(e, input.value) && LiveAt(e, clock)
    {
      if input.None? { return false; }
      var address := Plain(input.value);
      var now := if hasExpiration then clock else 0;
      found := Found(if address.V4? then fours else sixes, Value(address.bits), now);
      assert found <==> Listed(entries, address.V4?, address.bits, now);
      assert forall e :: e in entries ==> (InFamily(e, address.V4?, address.bits) <==> Covers(e, input.value));
      forall e | e in entries ensures Covers(e, input.value) <==> Within(e, input.value) { CoversIsWithin(e, input.value); }
      assert forall e :: e in entries ==> (Expiry(e) > now <==> LiveAt(e, clock));
    }
  }
}
