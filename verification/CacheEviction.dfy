/** Capacity eviction of one policy (node/data/response_cache.h, evict and usage).
    Expired entries leave first, of every policy. Then the least recent entries of this policy
    leave until the disk fits, then memory copies are given up, then entries again. The running
    counters are proved equal to the usage recomputed from scratch. */
module CacheEviction {
  import opened Wrappers
  import opened CacheRoot
  import opened CacheRuns

  const MAX_KEYS := 16384

  /** What is counted: memory bytes, disk bytes, or entries that own a file. */
  datatype Tier = Memory | Disk | Files

  datatype Limits = Limits(memory: nat, disk: nat)

  function Cost(e: Entry, tier: Tier): (c: int)
    ensures Sized(e) ==> 0 <= c
  {
    match tier
    case Memory => e.bytes - (if e.body.Some? then 0 else e.bodyBytes)
    case Disk => if e.file.Some? then e.bytes else 0
    case Files => if e.file.Some? then 1 else 0
  }

  /** An entry takes disk space and a place among the files only while it owns one, then all its bytes;
      it takes memory for all its bytes while its body is held and for the rest without it. */
  lemma EntryTakes(e: Entry)
    ensures e.file.None? ==> Cost(e, Disk) == Cost(e, Files) == 0
    ensures e.file.Some? ==> Cost(e, Disk) == e.bytes && Cost(e, Files) == 1
    ensures e.body.Some? ==> Cost(e, Memory) == e.bytes && Cost(Demoted(e), Memory) == e.bytes - e.bodyBytes
    ensures Cost(Demoted(e), Disk) == Cost(e, Disk) && Cost(Demoted(e), Memory) + (if e.body.Some? then e.bodyBytes else 0) == Cost(e, Memory)
  {
  }

  function ListUsage(s: seq<Entry>, policy: string, tier: Tier): (c: int) {
    if s == [] then 0
    else (if s[0].policy == policy then Cost(s[0], tier) else 0) + ListUsage(s[1..], policy, tier)
  }

  ghost function Sum(m: map<Key, int>): (c: int) {
    if m == map[] then 0
    else
      var k :| k in m;
      m[k] + Sum(m - {k})
  }

  lemma {:induction false} SumTake(m: map<Key, int>, k: Key)
    requires k in m
    ensures Sum(m) == m[k] + Sum(m - {k})
    decreases |m|
  {
    var j :| j in m && Sum(m) == m[j] + Sum(m - {j});
    if j != k {
      SumTake(m - {j}, k);
      SumTake(m - {k}, j);
      assert m - {j} - {k} == m - {k} - {j};
    }
  }

  ghost function Costs(entries: map<Key, seq<Entry>>, policy: string, tier: Tier): map<Key, int> {
    map k | k in entries :: ListUsage(entries[k], policy, tier)
  }

  /** usage: summed over the whole root, in whatever order the map is walked. */
  ghost function Usage(entries: map<Key, seq<Entry>>, policy: string, tier: Tier): (c: int) {
    Sum(Costs(entries, policy, tier))
  }

  lemma UsageTake(entries: map<Key, seq<Entry>>, policy: string, tier: Tier, k: Key)
    requires k in entries
    ensures Usage(entries, policy, tier) == ListUsage(entries[k], policy, tier) + Usage(entries - {k}, policy, tier)
  {
    SumTake(Costs(entries, policy, tier), k);
    assert Costs(entries, policy, tier) - {k} == Costs(entries - {k}, policy, tier);
  }

  lemma UsageUpdate(entries: map<Key, seq<Entry>>, policy: string, tier: Tier, k: Key, list: seq<Entry>)
    requires k in entries
    ensures Usage(entries[k := list], policy, tier)
            == Usage(entries, policy, tier) - ListUsage(entries[k], policy, tier) + ListUsage(list, policy, tier)
  {
    var updated := entries[k := list];
    UsageTake(entries, policy, tier, k);
    UsageTake(updated, policy, tier, k);
    assert updated - {k} == entries - {k};
  }

  function Removed(s: seq<Entry>, e: Entry): (r: seq<Entry>) { Filter(s, (x: Entry) => x != e) }

  lemma {:induction false} RemovedAbsent(s: seq<Entry>, e: Entry)
    requires e !in s
    ensures Removed(s, e) == s
  {
    if s != [] { RemovedAbsent(s[1..], e); }
  }

  lemma {:induction false} RemovedUsage(s: seq<Entry>, e: Entry, policy: string, tier: Tier)
    requires DistinctIds(s) && e in s && e.policy == policy
    ensures ListUsage(s, policy, tier) == ListUsage(Removed(s, e), policy, tier) + Cost(e, tier)
  {
    if s[0] == e {
      forall x | x in s[1..] ensures x.identity != e.identity {
        var j :| 0 <= j < |s[1..]| && s[1..][j] == x;
        assert s[j + 1] == x;
      }
      RemovedAbsent(s[1..], e);
      assert Removed(s, e) == s[1..];
    } else {
      RemovedUsage(s[1..], e, policy, tier);
      assert Removed(s, e) == [s[0]] + Removed(s[1..], e);
    }
  }

  lemma {:induction false} DemotedUsage(s: seq<Entry>, i: nat, policy: string, tier: Tier)
    requires i < |s| && s[i].policy == policy && s[i].body.Some?
    ensures ListUsage(s[i := Demoted(s[i])], policy, tier)
            == ListUsage(s, policy, tier) - (if tier.Memory? then s[i].bodyBytes else 0)
  {
    var t := s[i := Demoted(s[i])];
    if i == 0 {
      assert t[1..] == s[1..];
    } else {
      DemotedUsage(s[1..], i - 1, policy, tier);
      assert t[1..] == s[1..][i - 1 := Demoted(s[i])];
    }
  }

  lemma {:induction false} ListUsageNonNegative(s: seq<Entry>, policy: string, tier: Tier)
    requires forall e :: e in s ==> Sized(e)
    ensures 0 <= ListUsage(s, policy, tier)
    ensures (forall e :: e in s ==> e.policy != policy) ==> ListUsage(s, policy, tier) == 0
  {
    if s != [] { ListUsageNonNegative(s[1..], policy, tier); }
  }

  // ---------------------------------------------------------------------------
  // Thinning
  // ---------------------------------------------------------------------------

  lemma {:induction false} ThinnedSelf(a: seq<Entry>)
    ensures Thinned(a, a)
  {
    if a != [] { ThinnedSelf(a[1..]); }
  }

  lemma {:induction false} ThinnedFilter(a: seq<Entry>, b: seq<Entry>, keep: Entry -> bool)
    requires Thinned(a, b)
    ensures Thinned(a, Filter(b, keep))
    decreases |a|
  {
    if a != [] {
      if Thinned(a[1..], b) { ThinnedFilter(a[1..], b, keep); } else { ThinnedFilter(a[1..], b[1..], keep); }
      if b != [] && keep(b[0]) { assert Filter(b, keep)[1..] == Filter(b[1..], keep); }
    }
  }

  lemma {:induction false} ThinnedDemote(a: seq<Entry>, b: seq<Entry>, i: nat)
    requires Thinned(a, b) && i < |b| && b[i].file.Some?
    ensures Thinned(a, b[i := Demoted(b[i])])
    decreases |a|
  {
    if Thinned(a[1..], b) {
      ThinnedDemote(a[1..], b, i);
    } else if i > 0 {
      ThinnedDemote(a[1..], b[1..], i - 1);
      assert b[i := Demoted(b[i])][1..] == b[1..][i - 1 := Demoted(b[i])];
    } else {
      assert b[i := Demoted(b[i])][1..] == b[1..];
    }
  }

  // ---------------------------------------------------------------------------
  // The private copy under eviction, with its running counters
  // ---------------------------------------------------------------------------

  type Item = (Key, Entry)

  datatype Stock = Stock(entries: map<Key, seq<Entry>>, memory: int, disk: int, retire: bool)

  function VariantsOf(entries: map<Key, seq<Entry>>, k: Key): seq<Entry> { if k in entries then entries[k] else [] }

  predicate Present(entries: map<Key, seq<Entry>>, item: Item) { item.1 in VariantsOf(entries, item.0) }

  function OthersOf(s: seq<Entry>, policy: string): (r: seq<Entry>) { Filter(s, (e: Entry) => e.policy != policy) }

  /** The running counters are the recomputed usage, so they never underflow. */
  ghost predicate Accounted(st: Stock, policy: string) {
    && Unique(st.entries) && AllSized(st.entries)
    && st.memory == Usage(st.entries, policy, Memory) && 0 <= st.memory
    && st.disk == Usage(st.entries, policy, Disk) && 0 <= st.disk
  }

  /** Nothing but this policy's entries was touched, and those were only removed or demoted. */
  ghost predicate Derived(base: map<Key, seq<Entry>>, entries: map<Key, seq<Entry>>, policy: string) {
    && (forall k :: k in entries ==> k in base && entries[k] != [] && Thinned(base[k], entries[k]))
    && (forall k :: k in base ==> OthersOf(VariantsOf(entries, k), policy) == OthersOf(base[k], policy))
  }

  lemma {:induction false} SumNonNegative(m: map<Key, int>)
    requires forall k :: k in m ==> 0 <= m[k]
    ensures 0 <= Sum(m)
    ensures (forall k :: k in m ==> m[k] == 0) ==> Sum(m) == 0
    decreases |m|
  {
    if m != map[] {
      var k :| k in m && Sum(m) == m[k] + Sum(m - {k});
      SumNonNegative(m - {k});
    }
  }

  lemma UsageNonNegative(entries: map<Key, seq<Entry>>, policy: string, tier: Tier)
    requires AllSized(entries)
    ensures 0 <= Usage(entries, policy, tier)
    ensures (forall k, e :: k in entries && e in entries[k] ==> e.policy != policy) ==> Usage(entries, policy, tier) == 0
  {
    forall k | k in entries
      ensures 0 <= ListUsage(entries[k], policy, tier)
      ensures (forall e :: e in entries[k] ==> e.policy != policy) ==> ListUsage(entries[k], policy, tier) == 0
    {
      ListUsageNonNegative(entries[k], policy, tier);
    }
    SumNonNegative(Costs(entries, policy, tier));
  }

  lemma {:induction false} OthersRemoved(s: seq<Entry>, e: Entry, policy: string)
    requires e.policy == policy
    ensures OthersOf(Removed(s, e), policy) == OthersOf(s, policy)
  {
    if s != [] { OthersRemoved(s[1..], e, policy); }
  }

  lemma {:induction false} OthersDemoted(s: seq<Entry>, i: nat, policy: string)
    requires i < |s| && s[i].policy == policy
    ensures OthersOf(s[i := Demoted(s[i])], policy) == OthersOf(s, policy)
  {
    var t := s[i := Demoted(s[i])];
    if i == 0 {
      assert t[1..] == s[1..];
    } else {
      OthersDemoted(s[1..], i - 1, policy);
      assert t[1..] == s[1..][i - 1 := Demoted(s[i])];
    }
  }

  /** The `remove` step: gone from the copy, the counters and, if it owned a file, from disk. */
  function RemoveItem(st: Stock, item: Item): (n: Stock) {
    if !Present(st.entries, item) then st
    else
      var left := Removed(st.entries[item.0], item.1);
      Stock(if left == [] then st.entries - {item.0} else st.entries[item.0 := left],
            st.memory - Cost(item.1, Memory), st.disk - Cost(item.1, Disk), st.retire || item.1.file.Some?)
  }

  lemma UsageRemoved(entries: map<Key, seq<Entry>>, item: Item, policy: string, tier: Tier)
    requires Unique(entries) && Present(entries, item) && item.1.policy == policy
    ensures var left := Removed(entries[item.0], item.1);
            Usage(if left == [] then entries - {item.0} else entries[item.0 := left], policy, tier)
            == Usage(entries, policy, tier) - Cost(item.1, tier)
  {
    var k, e := item.0, item.1;
    var left := Removed(entries[k], e);
    RemovedUsage(entries[k], e, policy, tier);
    if left == [] { UsageTake(entries, policy, tier, k); } else { UsageUpdate(entries, policy, tier, k, left); }
  }

  lemma RemovePresence(st: Stock, item: Item)
    ensures forall x :: Present(RemoveItem(st, item).entries, x) <==> Present(st.entries, x) && x != item
  {
    var n := RemoveItem(st, item);
    if Present(st.entries, item) {
      var left := Removed(st.entries[item.0], item.1);
      forall x: Item | x.0 == item.0 ensures Present(n.entries, x) <==> x.1 in left {}
    }
  }

  lemma RemoveShape(st: Stock, item: Item)
    requires Unique(st.entries) && AllSized(st.entries)
    ensures Unique(RemoveItem(st, item).entries) && AllSized(RemoveItem(st, item).entries)
  {
    if Present(st.entries, item) {
      var n := RemoveItem(st, item);
      FilterDistinct(st.entries[item.0], (x: Entry) => x != item.1);
      assert Shrinks(st.entries, n.entries);
      ShrinksKeepsUnique(st.entries, n.entries);
    }
  }

  lemma RemoveAccounts(st: Stock, item: Item, policy: string)
    requires Accounted(st, policy) && item.1.policy == policy
    ensures Accounted(RemoveItem(st, item), policy)
  {
    if Present(st.entries, item) {
      var n := RemoveItem(st, item);
      UsageRemoved(st.entries, item, policy, Memory);
      UsageRemoved(st.entries, item, policy, Disk);
      RemoveShape(st, item);
      UsageNonNegative(n.entries, policy, Memory);
      UsageNonNegative(n.entries, policy, Disk);
    }
  }

  lemma RemoveDerives(base: map<Key, seq<Entry>>, st: Stock, item: Item, policy: string)
    requires Derived(base, st.entries, policy) && item.1.policy == policy
    ensures Derived(base, RemoveItem(st, item).entries, policy)
  {
    if Present(st.entries, item) {
      var k := item.0;
      var n := RemoveItem(st, item).entries;
      ThinnedFilter(base[k], st.entries[k], (x: Entry) => x != item.1);
      OthersRemoved(st.entries[k], item.1, policy);
      forall j | j in base ensures OthersOf(VariantsOf(n, j), policy) == OthersOf(base[j], policy) {
        if j != k { assert VariantsOf(n, j) == VariantsOf(st.entries, j); }
      }
      forall j | j in n ensures j in base && n[j] != [] && Thinned(base[j], n[j]) {
        if j != k { assert n[j] == st.entries[j]; }
      }
    }
  }

  /** The disk-only copy replaces the entry in place. */
  function DemoteItem(st: Stock, item: Item): (n: Stock)
    requires Present(st.entries, item)
  {
    var i := IndexOf(st.entries[item.0], item.1.identity);
    if i == |st.entries[item.0]| then st
    else st.(entries := st.entries[item.0 := st.entries[item.0][i := Demoted(item.1)]], memory := st.memory - item.1.bodyBytes)
  }

  lemma IndexOfPresent(s: seq<Entry>, e: Entry)
    requires DistinctIds(s) && e in s
    ensures IndexOf(s, e.identity) < |s| && s[IndexOf(s, e.identity)] == e
  {
    var j :| 0 <= j < |s| && s[j] == e;
  }

  lemma DemotePresence(st: Stock, item: Item)
    requires Unique(st.entries) && Present(st.entries, item)
    ensures forall x :: Present(DemoteItem(st, item).entries, x) <==>
              (Present(st.entries, x) && x != item) || x == (item.0, Demoted(item.1))
  {
    var (k, e) := item;
    var list, n := st.entries[k], DemoteItem(st, item);
    IndexOfPresent(list, e);
    var i := IndexOf(list, e.identity);
    assert n.entries[k] == list[i := Demoted(e)];
    forall x: Item | x.0 == k ensures Present(n.entries, x) <==> (x.1 in list && x.1 != e) || x.1 == Demoted(e) {
      assert n.entries[k][i] == Demoted(e);
      if x.1 in list && x.1 != e {
        var j :| 0 <= j < |list| && list[j] == x.1;
        assert n.entries[k][j] == x.1;
      }
      if x.1 in n.entries[k] {
        var j :| 0 <= j < |list| && n.entries[k][j] == x.1;
        if j != i { assert list[j].identity != e.identity; }
      }
    }
  }

  lemma DemoteShrinks(st: Stock, item: Item)
    requires Unique(st.entries) && Present(st.entries, item)
    ensures Shrinks(st.entries, DemoteItem(st, item).entries)
  {
    var (k, e) := item;
    var n := DemoteItem(st, item);
    IndexOfPresent(st.entries[k], e);
    forall id | id in IdSet(n.entries[k]) ensures id in IdSet(st.entries[k]) {
      var j :| 0 <= j < |n.entries[k]| && n.entries[k][j].identity == id;
      assert st.entries[k][j] in st.entries[k];
    }
  }

  lemma DemoteShape(st: Stock, item: Item)
    requires Unique(st.entries) && AllSized(st.entries) && Present(st.entries, item)
    ensures Unique(DemoteItem(st, item).entries) && AllSized(DemoteItem(st, item).entries)
  {
    var (k, e) := item;
    var n := DemoteItem(st, item);
    DemoteShrinks(st, item);
    ShrinksKeepsUnique(st.entries, n.entries);
    DemotePresence(st, item);
    forall j, x | j in n.entries && x in n.entries[j] ensures Sized(x) {
      assert Present(n.entries, (j, x));
      assert Sized(e) && (x == Demoted(e) || x in st.entries[j]);
    }
  }

  lemma DemoteAccounts(st: Stock, item: Item, policy: string)
    requires Accounted(st, policy) && Present(st.entries, item) && item.1.policy == policy && item.1.body.Some?
    ensures Accounted(DemoteItem(st, item), policy)
  {
    var (k, e) := item;
    var n := DemoteItem(st, item);
    IndexOfPresent(st.entries[k], e);
    var i := IndexOf(st.entries[k], e.identity);
    DemotedUsage(st.entries[k], i, policy, Memory);
    DemotedUsage(st.entries[k], i, policy, Disk);
    UsageUpdate(st.entries, policy, Memory, k, n.entries[k]);
    UsageUpdate(st.entries, policy, Disk, k, n.entries[k]);
    DemoteShape(st, item);
    UsageNonNegative(n.entries, policy, Memory);
  }

  lemma DemoteDerives(base: map<Key, seq<Entry>>, st: Stock, item: Item, policy: string)
    requires Derived(base, st.entries, policy) && Present(st.entries, item) && item.1.policy == policy
    requires Unique(st.entries) && item.1.file.Some?
    ensures Derived(base, DemoteItem(st, item).entries, policy)
  {
    var n := DemoteItem(st, item);
    var list := st.entries[item.0];
    IndexOfPresent(list, item.1);
    var i := IndexOf(list, item.1.identity);
    ThinnedDemote(base[item.0], list, i);
    OthersDemoted(list, i, policy);
    assert n.entries[item.0] == list[i := Demoted(list[i])];
    forall k | k in base ensures OthersOf(VariantsOf(n.entries, k), policy) == OthersOf(base[k], policy) {
      if k != item.0 { assert VariantsOf(n.entries, k) == VariantsOf(st.entries, k); }
    }
    forall k | k in n.entries ensures k in base && n.entries[k] != [] && Thinned(base[k], n.entries[k]) {
      if k != item.0 { assert n.entries[k] == st.entries[k]; }
    }
  }

  // ---------------------------------------------------------------------------
  // The passes
  // ---------------------------------------------------------------------------

  predicate Sorted(items: seq<Item>) {
    forall i, j :: 0 <= i < j < |items| ==> items[i].1.sequence <= items[j].1.sequence
  }

  lemma SortedCons(x: Item, items: seq<Item>)
    requires Sorted(items) && forall y :: y in items ==> x.1.sequence <= y.1.sequence
    ensures Sorted([x] + items)
  {
    var all := [x] + items;
    forall i, j | 0 <= i < j < |all| ensures all[i].1.sequence <= all[j].1.sequence {
      assert all[j] in items;
    }
  }

  function InsertItem(items: seq<Item>, x: Item): (r: seq<Item>)
    requires Sorted(items)
    ensures Sorted(r) && |r| == |items| + 1
    ensures forall y :: y in r <==> y in items || y == x
  {
    if items == [] then [x]
    else if x.1.sequence <= items[0].1.sequence then
      SortedCons(x, items);
      [x] + items
    else
      var rest := InsertItem(items[1..], x);
      SortedCons(items[0], rest);
      [items[0]] + rest
  }

  function SortItems(items: seq<Item>): (r: seq<Item>)
    ensures Sorted(r) && |r| == |items|
    ensures forall y :: y in r <==> y in items
  {
    if items == [] then [] else InsertItem(SortItems(items[1..]), items[0])
  }

  predicate NoRepeat(items: seq<Item>) { forall i, j :: 0 <= i < j < |items| ==> items[i] != items[j] }

  lemma {:induction false} InsertKeepsNoRepeat(items: seq<Item>, x: Item)
    requires Sorted(items) && NoRepeat(items) && x !in items
    ensures NoRepeat(InsertItem(items, x))
  {
    if items != [] && items[0].1.sequence < x.1.sequence {
      InsertKeepsNoRepeat(items[1..], x);
      var rest := InsertItem(items[1..], x);
      forall j | 0 <= j < |rest| ensures rest[j] != items[0] { assert rest[j] in rest; }
    }
  }

  lemma {:induction false} SortKeepsNoRepeat(items: seq<Item>)
    requires NoRepeat(items)
    ensures NoRepeat(SortItems(items))
  {
    if items != [] {
      SortKeepsNoRepeat(items[1..]);
      InsertKeepsNoRepeat(SortItems(items[1..]), items[0]);
    }
  }

  // The passes as functions of how many items they have handled.

  function RemoveFirst(st: Stock, items: seq<Item>, n: nat): (r: Stock)
    requires n <= |items|
  {
    if n == 0 then st else RemoveItem(RemoveFirst(st, items, n - 1), items[n - 1])
  }

  /** One item of the memory pass: nothing, a demotion that keeps the file, or a removal. */
  function Release(st: Stock, item: Item): (r: (Stock, Item)) {
    if !Present(st.entries, item) || item.1.body.None? then (st, item)
    else if item.1.file.Some? then (DemoteItem(st, item), (item.0, Demoted(item.1)))
    else (RemoveItem(st, item), item)
  }

  function ReleaseFirst(st: Stock, items: seq<Item>, n: nat): (r: (Stock, seq<Item>))
    requires n <= |items|
    ensures |r.1| == |items|
  {
    if n == 0 then (st, items)
    else
      var (before, list) := ReleaseFirst(st, items, n - 1);
      var (after, item) := Release(before, list[n - 1]);
      (after, list[n - 1 := item])
  }

  predicate OfPolicy(items: seq<Item>, policy: string) { forall x :: x in items ==> x.1.policy == policy }

  /** The counters, the shape and the retire flag, relative to a starting stock. */
  ghost predicate Books(base: Stock, st: Stock, policy: string) {
    && Accounted(st, policy)
    && st.disk <= base.disk && st.memory <= base.memory
    && Usage(st.entries, policy, Files) <= Usage(base.entries, policy, Files)
    && (st.retire <==> base.retire || Usage(st.entries, policy, Files) < Usage(base.entries, policy, Files))
  }

  lemma RemoveBooks(base: Stock, st: Stock, item: Item, policy: string)
    requires Books(base, st, policy) && item.1.policy == policy
    ensures Books(base, RemoveItem(st, item), policy)
  {
    RemoveAccounts(st, item, policy);
    if Present(st.entries, item) {
      UsageRemoved(st.entries, item, policy, Files);
      assert Sized(item.1);
    }
  }

  lemma ReleaseBooks(base: Stock, st: Stock, item: Item, policy: string)
    requires Books(base, st, policy) && item.1.policy == policy
    ensures Books(base, Release(st, item).0, policy)
  {
    RemoveBooks(base, st, item, policy);
    if Present(st.entries, item) && item.1.body.Some? && item.1.file.Some? {
      DemoteAccounts(st, item, policy);
      var list := st.entries[item.0];
      IndexOfPresent(list, item.1);
      DemotedUsage(list, IndexOf(list, item.1.identity), policy, Files);
      UsageUpdate(st.entries, policy, Files, item.0, DemoteItem(st, item).entries[item.0]);
    }
  }

  lemma {:induction false} RemoveFirstBooks(base: Stock, st: Stock, items: seq<Item>, n: nat, policy: string)
    requires n <= |items| && OfPolicy(items, policy) && Books(base, st, policy)
    ensures Books(base, RemoveFirst(st, items, n), policy)
  {
    if n > 0 {
      RemoveFirstBooks(base, st, items, n - 1, policy);
      RemoveBooks(base, RemoveFirst(st, items, n - 1), items[n - 1], policy);
    }
  }

  lemma {:induction false} RemoveFirstDerives(base: map<Key, seq<Entry>>, st: Stock, items: seq<Item>, n: nat, policy: string)
    requires n <= |items| && OfPolicy(items, policy) && Derived(base, st.entries, policy)
    ensures Derived(base, RemoveFirst(st, items, n).entries, policy)
  {
    if n > 0 {
      RemoveFirstDerives(base, st, items, n - 1, policy);
      RemoveDerives(base, RemoveFirst(st, items, n - 1), items[n - 1], policy);
    }
  }

  lemma {:induction false} RemoveFirstPresence(st: Stock, items: seq<Item>, n: nat)
    requires n <= |items|
    ensures forall x :: Present(RemoveFirst(st, items, n).entries, x) <==> Present(st.entries, x) && x !in items[..n]
  {
    if n > 0 {
      RemoveFirstPresence(st, items, n - 1);
      RemovePresence(RemoveFirst(st, items, n - 1), items[n - 1]);
      assert items[..n] == items[..n - 1] + [items[n - 1]];
    }
  }

  lemma {:induction false} ReleaseFirstBooks(base: Stock, st: Stock, items: seq<Item>, n: nat, policy: string)
    requires n <= |items| && OfPolicy(items, policy) && Books(base, st, policy)
    ensures Books(base, ReleaseFirst(st, items, n).0, policy) && OfPolicy(ReleaseFirst(st, items, n).1, policy)
  {
    if n > 0 {
      ReleaseFirstBooks(base, st, items, n - 1, policy);
      var (before, list) := ReleaseFirst(st, items, n - 1);
      ReleaseBooks(base, before, list[n - 1], policy);
    }
  }

  lemma ReleaseDerives(base: map<Key, seq<Entry>>, st: Stock, item: Item, policy: string)
    requires Unique(st.entries) && item.1.policy == policy && Derived(base, st.entries, policy)
    ensures Derived(base, Release(st, item).0.entries, policy)
  {
    RemoveDerives(base, st, item, policy);
    if Present(st.entries, item) && item.1.file.Some? {
      DemoteDerives(base, st, item, policy);
    }
  }

  lemma ReleaseFirstIs(st: Stock, items: seq<Item>, n: nat)
    requires 0 < n <= |items|
    ensures var before := ReleaseFirst(st, items, n - 1);
            ReleaseFirst(st, items, n) == (Release(before.0, before.1[n - 1]).0, before.1[n - 1 := Release(before.0, before.1[n - 1]).1])
  {
  }

  /** What one item of the memory pass keeps, the whole pass keeps. */
  lemma {:induction false} ReleaseKeeps(st: Stock, items: seq<Item>, n: nat, kept: (Stock, seq<Item>, nat) -> bool)
    requires n <= |items| && kept(st, items, 0)
    requires forall s: Stock, list: seq<Item>, i: nat | i < |list| && kept(s, list, i) ::
               kept(Release(s, list[i]).0, list[i := Release(s, list[i]).1], i + 1)
    ensures kept(ReleaseFirst(st, items, n).0, ReleaseFirst(st, items, n).1, n)
  {
    if n > 0 {
      ReleaseKeeps(st, items, n - 1, kept);
      ReleaseFirstIs(st, items, n);
      var before := ReleaseFirst(st, items, n - 1);
      assert kept(before.0, before.1, n - 1);
    }
  }

  lemma ReleaseShape(st: Stock, item: Item)
    requires Unique(st.entries) && AllSized(st.entries)
    ensures Unique(Release(st, item).0.entries) && AllSized(Release(st, item).0.entries)
  {
    RemoveShape(st, item);
    if Present(st.entries, item) { DemoteShape(st, item); }
  }

  lemma ReleaseFirstDerives(base: map<Key, seq<Entry>>, st: Stock, items: seq<Item>, n: nat, policy: string)
    requires n <= |items| && OfPolicy(items, policy) && Unique(st.entries) && AllSized(st.entries) && Derived(base, st.entries, policy)
    ensures Derived(base, ReleaseFirst(st, items, n).0.entries, policy)
  {
    ghost var kept := (s: Stock, list: seq<Item>, i: nat) =>
      Derived(base, s.entries, policy) && Unique(s.entries) && AllSized(s.entries) && OfPolicy(list, policy);
    forall s: Stock, list: seq<Item>, i: nat | i < |list| && kept(s, list, i)
      ensures kept(Release(s, list[i]).0, list[i := Release(s, list[i]).1], i + 1)
    {
      assert list[i] in list;
      ReleaseDerives(base, s, list[i], policy);
      ReleaseShape(s, list[i]);
    }
    ReleaseKeeps(st, items, n, kept);
  }

  ghost predicate AllItems(entries: map<Key, seq<Entry>>, items: seq<Item>, policy: string) {
    forall x: Item :: Present(entries, x) && x.1.policy == policy ==> x in items
  }

  lemma ReplaceItem(before: map<Key, seq<Entry>>, after: map<Key, seq<Entry>>, items: seq<Item>, i: nat, x: Item, policy: string)
    requires i < |items| && AllItems(before, items, policy)
    requires forall y :: Present(after, y) ==> (Present(before, y) && y != items[i]) || y == x
    ensures AllItems(after, items[i := x], policy)
  {
    forall y: Item | Present(after, y) && y.1.policy == policy ensures y in items[i := x] {
      if y != x {
        var j :| 0 <= j < |items| && items[j] == y;
        assert items[i := x][j] == y;
      } else {
        assert items[i := x][i] == x;
      }
    }
  }

  lemma ReleasePresence(st: Stock, item: Item)
    requires Unique(st.entries)
    ensures forall y :: Present(Release(st, item).0.entries, y) ==> (Present(st.entries, y) && y != item) || y == Release(st, item).1
    ensures Present(Release(st, item).0.entries, Release(st, item).1) ==> Release(st, item).1.1.body.None?
  {
    RemovePresence(st, item);
    if Present(st.entries, item) && item.1.body.Some? && item.1.file.Some? {
      DemotePresence(st, item);
    }
  }

  lemma ReleaseItems(st: Stock, items: seq<Item>, i: nat, policy: string)
    requires Unique(st.entries) && i < |items| && AllItems(st.entries, items, policy)
    ensures AllItems(Release(st, items[i]).0.entries, items[i := Release(st, items[i]).1], policy)
  {
    ReleasePresence(st, items[i]);
    ReplaceItem(st.entries, Release(st, items[i]).0.entries, items, i, Release(st, items[i]).1, policy);
  }

  /** The item list stays complete. */
  lemma ReleaseFirstItems(st: Stock, items: seq<Item>, n: nat, policy: string)
    requires n <= |items| && Unique(st.entries) && AllSized(st.entries) && AllItems(st.entries, items, policy)
    ensures AllItems(ReleaseFirst(st, items, n).0.entries, ReleaseFirst(st, items, n).1, policy)
  {
    ghost var kept := (s: Stock, list: seq<Item>, i: nat) => AllItems(s.entries, list, policy) && Unique(s.entries) && AllSized(s.entries);
    forall s: Stock, list: seq<Item>, i: nat | i < |list| && kept(s, list, i)
      ensures kept(Release(s, list[i]).0, list[i := Release(s, list[i]).1], i + 1)
    {
      ReleaseItems(s, list, i, policy);
      ReleaseShape(s, list[i]);
    }
    ReleaseKeeps(st, items, n, kept);
  }

  lemma NothingLeft(st: Stock, policy: string)
    requires Accounted(st, policy) && forall x: Item :: Present(st.entries, x) ==> x.1.policy != policy
    ensures st.memory == 0 && st.disk == 0
  {
    forall k, e | k in st.entries && e in st.entries[k] ensures e.policy != policy { assert Present(st.entries, (k, e)); }
    UsageNonNegative(st.entries, policy, Memory);
    UsageNonNegative(st.entries, policy, Disk);
  }

  /** Removing only the first `n` items would leave a limit exceeded. */
  predicate DiskShort(start: Stock, items: seq<Item>, n: nat, limit: nat) { n <= |items| && !DiskFits(RemoveFirst(start, items, n), limit) }

  predicate MemoryShort(start: Stock, items: seq<Item>, n: nat, limit: nat) { n <= |items| && RemoveFirst(start, items, n).memory > limit }

  /** Releasing only the memory of the first `n` items would. */
  predicate ReleaseShort(start: Stock, items: seq<Item>, n: nat, limit: nat) { n <= |items| && ReleaseFirst(start, items, n).0.memory > limit }

  predicate DiskFits(st: Stock, limit: nat) { st.disk <= limit && |st.entries| <= MAX_KEYS }

  /** The disk pass stops at the first prefix whose removal makes the disk and the key count fit. */
  method DiskPass(start: Stock, items: seq<Item>, limit: nat) returns (st: Stock, cut: nat)
    ensures cut <= |items| && st == RemoveFirst(start, items, cut)
    ensures cut < |items| ==> DiskFits(st, limit)
    ensures forall n :: 0 <= n < cut ==> DiskShort(start, items, n, limit)
  {
    st, cut := start, 0;
    while cut < |items| && !DiskFits(st, limit)
      invariant 0 <= cut <= |items| && st == RemoveFirst(start, items, cut)
      invariant forall n :: 0 <= n < cut ==> DiskShort(start, items, n, limit)
    {
      st := RemoveItem(st, items[cut]);
      cut := cut + 1;
    }
  }

  /** The memory pass stops at the first prefix whose release makes memory fit. */
  method MemoryPass(start: Stock, list: seq<Item>, limit: nat) returns (st: Stock, items: seq<Item>, cut: nat)
    ensures cut <= |list| && (st, items) == ReleaseFirst(start, list, cut)
    ensures cut < |list| ==> st.memory <= limit
    ensures forall n :: 0 <= n < cut ==> ReleaseShort(start, list, n, limit)
  {
    st, items, cut := start, list, 0;
    while cut < |items| && st.memory > limit
      invariant 0 <= cut <= |items| == |list| && (st, items) == ReleaseFirst(start, list, cut)
      invariant forall n :: 0 <= n < cut ==> ReleaseShort(start, list, n, limit)
    {
      var item := items[cut];
      if Present(st.entries, item) && item.1.body.Some? {
        if item.1.file.Some? {
          st := DemoteItem(st, item);
          items := items[cut := (item.0, Demoted(item.1))];
        } else {
          st := RemoveItem(st, item);
        }
      }
      assert items == items[cut := items[cut]];
      cut := cut + 1;
    }
  }

  method FinalPass(start: Stock, items: seq<Item>, limit: nat) returns (st: Stock, cut: nat)
    ensures cut <= |items| && st == RemoveFirst(start, items, cut)
    ensures cut < |items| ==> st.memory <= limit
    ensures forall n :: 0 <= n < cut ==> MemoryShort(start, items, n, limit)
  {
    st, cut := start, 0;
    while cut < |items| && st.memory > limit
      invariant 0 <= cut <= |items| && st == RemoveFirst(start, items, cut)
      invariant forall n :: 0 <= n < cut ==> MemoryShort(start, items, n, limit)
    {
      assert MemoryShort(start, items, cut, limit);
      st := RemoveItem(st, items[cut]);
      cut := cut + 1;
    }
  }

  // ---------------------------------------------------------------------------
  // Collecting, and the whole eviction
  // ---------------------------------------------------------------------------

  function Unexpiring(s: seq<Entry>, now: int): (r: seq<Entry>) { Filter(s, (e: Entry) => e.retainUntil > now) }

  /** The root without its expired entries and without the keys that held nothing else, as far as
      the keys outside `todo` go. */
  ghost predicate Purged(entries: map<Key, seq<Entry>>, todo: set<Key>, purged: map<Key, seq<Entry>>, now: int) {
    && (forall k :: k in purged ==> k in entries && k !in todo && purged[k] == Unexpiring(entries[k], now) && purged[k] != [])
    && (forall k :: k in entries && k !in todo && k !in purged ==> Unexpiring(entries[k], now) == [])
  }

  lemma PurgedStep(entries: map<Key, seq<Entry>>, todo: set<Key>, purged: map<Key, seq<Entry>>, now: int, k: Key)
    requires Purged(entries, todo, purged, now) && k in todo && k in entries
    ensures var list := Unexpiring(entries[k], now);
            Purged(entries, todo - {k}, if list == [] then purged else purged[k := list], now)
  {
  }

  /** The policy's share of one variant list. */
  method CollectList(k: Key, s: seq<Entry>, policy: string) returns (items: seq<Item>, memory: int, disk: int)
    ensures memory == ListUsage(s, policy, Memory) && disk == ListUsage(s, policy, Disk)
    ensures forall x :: x in items <==> x.0 == k && x.1 in s && x.1.policy == policy
    ensures DistinctIds(s) ==> NoRepeat(items)
  {
    items, memory, disk := [], 0, 0;
    var i := 0;
    while i < |s|
      invariant 0 <= i <= |s|
      invariant memory == ListUsage(s, policy, Memory) - ListUsage(s[i..], policy, Memory)
      invariant disk == ListUsage(s, policy, Disk) - ListUsage(s[i..], policy, Disk)
      invariant forall x :: x in items <==> x.0 == k && x.1 in s[..i] && x.1.policy == policy
      invariant DistinctIds(s) ==> NoRepeat(items)
    {
      assert s[i..] == [s[i]] + s[i + 1..] && s[..i + 1] == s[..i] + [s[i]];
      if s[i].policy == policy {
        memory := memory + Cost(s[i], Memory);
        disk := disk + Cost(s[i], Disk);
        items := items + [(k, s[i])];
      }
      i := i + 1;
    }
    assert s[..i] == s;
  }

  lemma UsageAdd(entries: map<Key, seq<Entry>>, policy: string, tier: Tier, k: Key, list: seq<Entry>)
    requires k !in entries
    ensures Usage(entries[k := list], policy, tier) == Usage(entries, policy, tier) + ListUsage(list, policy, tier)
  {
    UsageTake(entries[k := list], policy, tier, k);
    assert entries[k := list] - {k} == entries;
  }

  predicate ExpiredFile(s: seq<Entry>, now: int) { exists e :: e in s && e.retainUntil <= now && e.file.Some? }

  /** The counters and the item list describe exactly what has been copied so far. */
  ghost predicate Collected(st: Stock, items: seq<Item>, policy: string) {
    && st.memory == Usage(st.entries, policy, Memory) && st.disk == Usage(st.entries, policy, Disk)
    && forall x :: x in items <==> Present(st.entries, x) && x.1.policy == policy
  }

  method CollectKey(st: Stock, items: seq<Item>, k: Key, list: seq<Entry>, retire: bool, policy: string)
    returns (n: Stock, all: seq<Item>)
    requires Collected(st, items, policy) && k !in st.entries
    ensures Collected(n, all, policy) && (NoRepeat(items) && DistinctIds(list) ==> NoRepeat(all))
    ensures n.entries == (if list == [] then st.entries else st.entries[k := list]) && n.retire == (st.retire || retire)
  {
    var more, memory, disk := CollectList(k, list, policy);
    UsageAdd(st.entries, policy, Memory, k, list);
    UsageAdd(st.entries, policy, Disk, k, list);
    n := Stock(if list == [] then st.entries else st.entries[k := list], st.memory + memory, st.disk + disk, st.retire || retire);
    all := items + more;
  }

  /** The first walk over the whole copy: erase expired entries of every policy, count this one. */
  method Collect(entries: map<Key, seq<Entry>>, policy: string, now: int) returns (st: Stock, items: seq<Item>)
    ensures Purged(entries, {}, st.entries, now) && Collected(st, items, policy) && (Unique(entries) ==> NoRepeat(items))
    ensures st.retire <==> exists k :: k in entries && ExpiredFile(entries[k], now)
  {
    st, items := Stock(map[], 0, 0, false), [];
    var keys := entries.Keys;
    while keys != {}
      invariant keys <= entries.Keys && Purged(entries, keys, st.entries, now)
      invariant Collected(st, items, policy) && (Unique(entries) ==> NoRepeat(items))
      invariant st.retire <==> exists k :: k in entries && k !in keys && ExpiredFile(entries[k], now)
      decreases |keys|
    {
      var k :| k in keys;
      PurgedStep(entries, keys, st.entries, now, k);
      if Unique(entries) { FilterDistinct(entries[k], (e: Entry) => e.retainUntil > now); }
      st, items := CollectKey(st, items, k, Unexpiring(entries[k], now), ExpiredFile(entries[k], now), policy);
      keys := keys - {k};
    }
  }

  lemma {:induction false} ThinnedOfFilter(a: seq<Entry>, keep: Entry -> bool, b: seq<Entry>)
    requires Thinned(Filter(a, keep), b)
    ensures Thinned(a, b)
    decreases |a|
  {
    if a != [] {
      var f := Filter(a, keep);
      if !keep(a[0]) {
        ThinnedOfFilter(a[1..], keep, b);
      } else {
        assert f == [a[0]] + Filter(a[1..], keep);
        if Thinned(f[1..], b) { ThinnedOfFilter(a[1..], keep, b); } else { ThinnedOfFilter(a[1..], keep, b[1..]); }
      }
    }
  }

  lemma PurgedShape(entries: map<Key, seq<Entry>>, purged: map<Key, seq<Entry>>, now: int)
    requires Unique(entries) && AllSized(entries) && Purged(entries, {}, purged, now)
    ensures Unique(purged) && AllSized(purged)
  {
    forall k | k in purged ensures DistinctIds(purged[k]) && IdSet(purged[k]) <= IdSet(entries[k]) {
      FilterDistinct(entries[k], (e: Entry) => e.retainUntil > now);
    }
    ShrinksKeepsUnique(entries, purged);
  }

  lemma PurgedDerives(purged: map<Key, seq<Entry>>, policy: string)
    requires forall k :: k in purged ==> purged[k] != []
    ensures Derived(purged, purged, policy)
  {
    forall k | k in purged ensures Thinned(purged[k], purged[k]) { ThinnedSelf(purged[k]); }
  }

  /** What the whole eviction does to the entries: expired entries of every policy leave, other
      policies keep everything else, and this policy's entries are only removed or demoted. */
  ghost predicate Trims(entries: map<Key, seq<Entry>>, next: map<Key, seq<Entry>>, policy: string, now: int) {
    && (forall k :: k in next ==> k in entries && next[k] != [] && Thinned(entries[k], next[k]))
    && (forall k, e :: k in next && e in next[k] ==> e.retainUntil > now)
    && (forall k :: k in entries ==> OthersOf(VariantsOf(next, k), policy) == OthersOf(Unexpiring(entries[k], now), policy))
  }

  lemma DerivedTrims(entries: map<Key, seq<Entry>>, purged: map<Key, seq<Entry>>, next: map<Key, seq<Entry>>, policy: string, now: int)
    requires Purged(entries, {}, purged, now) && Derived(purged, next, policy)
    ensures Trims(entries, next, policy, now)
  {
    forall k | k in next ensures k in entries && Thinned(entries[k], next[k]) {
      ThinnedOfFilter(entries[k], (e: Entry) => e.retainUntil > now, next[k]);
    }
    forall k, e | k in next && e in next[k] ensures e.retainUntil > now {
      ThinnedSources(purged[k], next[k]);
      var x :| x in purged[k] && (e == x || e == Demoted(x));
    }
    forall k | k in entries ensures OthersOf(VariantsOf(next, k), policy) == OthersOf(Unexpiring(entries[k], now), policy) {
      if k !in purged { assert k !in next; }
    }
  }

  /** The stocks after the three passes, from the purged stock. */
  lemma PassesKeepBooks(start: Stock, items: seq<Item>, a: nat, b: nat, c: nat, policy: string)
    requires Books(start, start, policy) && OfPolicy(items, policy) && AllItems(start.entries, items, policy)
    requires a <= |items| && b <= |items| && c <= |items|
    ensures var one := RemoveFirst(start, items, a);
            var two := ReleaseFirst(one, items, b);
            Books(start, RemoveFirst(two.0, two.1, c), policy) && RemoveFirst(two.0, two.1, c).disk <= one.disk
  {
    RemoveFirstBooks(start, start, items, a, policy);
    var one := RemoveFirst(start, items, a);
    ReleaseFirstBooks(start, one, items, b, policy);
    ReleaseFirstBooks(one, one, items, b, policy);
    var two := ReleaseFirst(one, items, b);
    RemoveFirstBooks(start, two.0, two.1, c, policy);
    RemoveFirstBooks(one, two.0, two.1, c, policy);
  }

  lemma PassesDerive(start: Stock, items: seq<Item>, a: nat, b: nat, c: nat, policy: string)
    requires Books(start, start, policy) && OfPolicy(items, policy) && Derived(start.entries, start.entries, policy)
    requires a <= |items| && b <= |items| && c <= |items|
    ensures var two := ReleaseFirst(RemoveFirst(start, items, a), items, b);
            Derived(start.entries, RemoveFirst(two.0, two.1, c).entries, policy)
  {
    RemoveFirstBooks(start, start, items, a, policy);
    RemoveFirstDerives(start.entries, start, items, a, policy);
    var one := RemoveFirst(start, items, a);
    ReleaseFirstDerives(start.entries, one, items, b, policy);
    ReleaseFirstBooks(one, one, items, b, policy);
    var two := ReleaseFirst(one, items, b);
    RemoveFirstDerives(start.entries, two.0, two.1, c, policy);
  }

  /** A pass that handled every item leaves nothing of the policy. */
  lemma RemoveAllEmpties(base: Stock, st: Stock, items: seq<Item>, policy: string)
    requires Books(base, st, policy) && OfPolicy(items, policy) && AllItems(st.entries, items, policy)
    ensures RemoveFirst(st, items, |items|).memory == 0 && RemoveFirst(st, items, |items|).disk == 0
  {
    RemoveFirstBooks(base, st, items, |items|, policy);
    RemoveFirstPresence(st, items, |items|);
    assert items[..|items|] == items;
    NothingLeft(RemoveFirst(st, items, |items|), policy);
  }

  /** Without memory pressure the survivors are the most recent entries, unchanged. */
  lemma SurvivorsAreMostRecent(start: Stock, items: seq<Item>, cut: nat, policy: string, x: Item, y: Item)
    requires cut <= |items| && Sorted(items)
    requires forall z :: z in items <==> Present(start.entries, z) && z.1.policy == policy
    requires x in items && y in items && y.1.sequence < x.1.sequence
    requires Present(RemoveFirst(start, items, cut).entries, y)
    ensures Present(RemoveFirst(start, items, cut).entries, x)
  {
    RemoveFirstPresence(start, items, cut);
    var j :| 0 <= j < |items| && items[j] == y;
    assert y !in items[..cut];
    assert j >= cut;
    forall i | 0 <= i < cut ensures items[..cut][i] != x { assert items[i].1.sequence <= items[j].1.sequence; }
  }

  ghost function PurgedEntries(entries: map<Key, seq<Entry>>, now: int): map<Key, seq<Entry>> {
    map k | k in entries && Unexpiring(entries[k], now) != [] :: Unexpiring(entries[k], now)
  }

  lemma PurgedIs(entries: map<Key, seq<Entry>>, purged: map<Key, seq<Entry>>, now: int)
    requires Purged(entries, {}, purged, now)
    ensures purged == PurgedEntries(entries, now)
  {
  }

  /** Both limits hold, the counters are the recomputed usage, and the retire flag tells whether
      an entry that owned a file left. */
  ghost predicate Settled(entries: map<Key, seq<Entry>>, next: Stock, policy: string, now: int, limits: Limits) {
    && Unique(next.entries)
    && next.memory == Usage(next.entries, policy, Memory) && 0 <= next.memory <= limits.memory
    && next.disk == Usage(next.entries, policy, Disk) && 0 <= next.disk <= limits.disk
    && (next.retire <==>
          || (exists k :: k in entries && ExpiredFile(entries[k], now))
          || Usage(next.entries, policy, Files) < Usage(PurgedEntries(entries, now), policy, Files))
  }

  /** Only a least-recent part of the policy is gone. */
  ghost predicate KeepsMostRecent(purged: map<Key, seq<Entry>>, next: map<Key, seq<Entry>>, policy: string) {
    forall x, y | Present(purged, x) && x.1.policy == policy && Present(next, y) && y.1.policy == policy
                  && y.1.sequence < x.1.sequence :: Present(next, x)
  }

  lemma LimitsHold(start: Stock, items: seq<Item>, a: nat, b: nat, c: nat, policy: string, limits: Limits)
    requires Books(start, start, policy) && OfPolicy(items, policy) && AllItems(start.entries, items, policy)
    requires a <= |items| && b <= |items| && c <= |items|
    requires a < |items| ==> RemoveFirst(start, items, a).disk <= limits.disk
    requires var two := ReleaseFirst(RemoveFirst(start, items, a), items, b);
             c < |items| ==> RemoveFirst(two.0, two.1, c).memory <= limits.memory
    ensures var two := ReleaseFirst(RemoveFirst(start, items, a), items, b);
            RemoveFirst(two.0, two.1, c).memory <= limits.memory && RemoveFirst(two.0, two.1, c).disk <= limits.disk
  {
    PassesKeepBooks(start, items, a, b, c, policy);
    if a == |items| { RemoveAllEmpties(start, start, items, policy); }
    if c == |items| {
      RemoveFirstBooks(start, start, items, a, policy);
      var one := RemoveFirst(start, items, a);
      RemoveFirstPresence(start, items, a);
      ReleaseFirstBooks(start, one, items, b, policy);
      ReleaseFirstItems(one, items, b, policy);
      var two := ReleaseFirst(one, items, b);
      RemoveAllEmpties(start, two.0, two.1, policy);
    }
  }

  lemma RecencyHolds(start: Stock, items: seq<Item>, cut: nat, policy: string)
    requires cut <= |items| && Sorted(items)
    requires forall z :: z in items <==> Present(start.entries, z) && z.1.policy == policy
    ensures KeepsMostRecent(start.entries, RemoveFirst(start, items, cut).entries, policy)
  {
    var next := RemoveFirst(start, items, cut).entries;
    forall x, y | Present(start.entries, x) && x.1.policy == policy && Present(next, y) && y.1.policy == policy
                  && y.1.sequence < x.1.sequence
      ensures Present(next, x)
    {
      RemoveFirstPresence(start, items, cut);
      SurvivorsAreMostRecent(start, items, cut, policy, x, y);
    }
  }

  lemma StartBooks(entries: map<Key, seq<Entry>>, start: Stock, items: seq<Item>, policy: string, now: int)
    requires Unique(entries) && AllSized(entries) && Purged(entries, {}, start.entries, now) && Collected(start, items, policy)
    ensures Books(start, start, policy) && OfPolicy(items, policy) && AllItems(start.entries, items, policy)
    ensures Derived(start.entries, start.entries, policy) && start.entries == PurgedEntries(entries, now)
  {
    PurgedShape(entries, start.entries, now);
    PurgedIs(entries, start.entries, now);
    UsageNonNegative(start.entries, policy, Memory);
    UsageNonNegative(start.entries, policy, Disk);
    PurgedDerives(start.entries, policy);
  }

  lemma DiskPassMemory(start: Stock, items: seq<Item>, a: nat, policy: string)
    requires Books(start, start, policy) && OfPolicy(items, policy) && a <= |items|
    ensures RemoveFirst(start, items, a).memory <= start.memory
  {
    RemoveFirstBooks(start, start, items, a, policy);
  }

  /** The three passes together, given where each one stopped. */
  lemma PassesSettle(entries: map<Key, seq<Entry>>, start: Stock, items: seq<Item>, a: nat, b: nat, c: nat,
                     policy: string, now: int, limits: Limits)
    requires Unique(entries) && AllSized(entries) && Purged(entries, {}, start.entries, now) && Collected(start, items, policy)
    requires start.retire <==> exists k :: k in entries && ExpiredFile(entries[k], now)
    requires a <= |items| && b <= |items| && c <= |items|
    requires a < |items| ==> RemoveFirst(start, items, a).disk <= limits.disk
    requires var two := ReleaseFirst(RemoveFirst(start, items, a), items, b);
             c < |items| ==> RemoveFirst(two.0, two.1, c).memory <= limits.memory
    ensures var two := ReleaseFirst(RemoveFirst(start, items, a), items, b);
            var next := RemoveFirst(two.0, two.1, c);
            Settled(entries, next, policy, now, limits) && Trims(entries, next.entries, policy, now)
  {
    StartBooks(entries, start, items, policy, now);
    PassesKeepBooks(start, items, a, b, c, policy);
    LimitsHold(start, items, a, b, c, policy, limits);
    PassesDerive(start, items, a, b, c, policy);
    var two := ReleaseFirst(RemoveFirst(start, items, a), items, b);
    DerivedTrims(entries, start.entries, RemoveFirst(two.0, two.1, c).entries, policy, now);
  }

  /** Without memory pressure the last two passes do nothing. */
  lemma PassesKeepRecency(entries: map<Key, seq<Entry>>, start: Stock, items: seq<Item>, a: nat, b: nat, c: nat,
                          policy: string, now: int, limits: Limits)
    requires Unique(entries) && AllSized(entries) && Purged(entries, {}, start.entries, now) && Collected(start, items, policy)
    requires a <= |items| && b <= |items| && c <= |items| && Sorted(items)
    requires b > 0 ==> RemoveFirst(start, items, a).memory > limits.memory
    requires c > 0 ==> ReleaseFirst(RemoveFirst(start, items, a), items, b).0.memory > limits.memory
    ensures var two := ReleaseFirst(RemoveFirst(start, items, a), items, b);
            Usage(PurgedEntries(entries, now), policy, Memory) <= limits.memory ==>
              KeepsMostRecent(PurgedEntries(entries, now), RemoveFirst(two.0, two.1, c).entries, policy)
  {
    PurgedIs(entries, start.entries, now);
    if start.memory <= limits.memory {
      StartBooks(entries, start, items, policy, now);
      DiskPassMemory(start, items, a, policy);
      RecencyHolds(start, items, a, policy);
    }
  }

  // ---------------------------------------------------------------------------
  // Which entries give way to which, whatever the limits
  // ---------------------------------------------------------------------------

  /** The disk-only copy of an item; the item itself when it has no body. */
  function Copy(x: Item): Item { (x.0, Demoted(x.1)) }

  predicate Survives(entries: map<Key, seq<Entry>>, x: Item) { Present(entries, x) || Present(entries, Copy(x)) }

  lemma OneCopy(entries: map<Key, seq<Entry>>, x: Item, y: Item)
    requires Unique(entries) && Present(entries, x) && Present(entries, y) && x.1.identity == y.1.identity
    ensures x == y
  {
    assert x.1.identity in IdSet(entries[x.0]) && y.1.identity in IdSet(entries[y.0]);
    assert x.0 == y.0;
    var i :| 0 <= i < |entries[x.0]| && entries[x.0][i] == x.1;
    var j :| 0 <= j < |entries[x.0]| && entries[x.0][j] == y.1;
  }

  predicate DistinctItems(items: seq<Item>) {
    forall i, j :: 0 <= i < j < |items| ==> items[i].1.identity != items[j].1.identity
  }

  lemma NoRepeatIsDistinct(entries: map<Key, seq<Entry>>, items: seq<Item>)
    requires Unique(entries) && NoRepeat(items) && forall x :: x in items ==> Present(entries, x)
    ensures DistinctItems(items)
  {
    forall i, j | 0 <= i < j < |items| ensures items[i].1.identity != items[j].1.identity {
      assert items[i] in items && items[j] in items;
      if items[i].1.identity == items[j].1.identity { OneCopy(entries, items[i], items[j]); }
    }
  }

  /** One item during the memory pass: `was` as collected, `held` in the list now, `there` whether the
      disk pass left it, `handled` whether the memory pass has reached it. */
  ghost predicate Tracked(entries: map<Key, seq<Entry>>, was: Item, held: Item, there: bool, handled: bool) {
    && (held == was || held == Copy(was)) && (handled || held == was)
    && if !there then held == was && !Survives(entries, was)
       else
         || (Present(entries, held) && (handled ==> held.1.body.None?))
         || (handled && held == was && was.1.body.Some? && was.1.file.None? && !Survives(entries, was))
  }

  ghost predicate AllTracked(one: map<Key, seq<Entry>>, items: seq<Item>, s: Stock, list: seq<Item>, n: nat) {
    |list| == |items| && forall j :: 0 <= j < |items| ==> Tracked(s.entries, items[j], list[j], Present(one, items[j]), j < n)
  }

  /** Releasing one item leaves every item of another identity as it was. */
  lemma ReleaseSparesOthers(st: Stock, item: Item, x: Item)
    requires Unique(st.entries) && x.1.identity != item.1.identity
    ensures Present(Release(st, item).0.entries, x) <==> Present(st.entries, x)
  {
    RemovePresence(st, item);
    if Present(st.entries, item) { DemotePresence(st, item); }
  }

  lemma ReleaseTracks(s: Stock, was: Item, held: Item, there: bool)
    requires Unique(s.entries) && Tracked(s.entries, was, held, there, false)
    ensures Tracked(Release(s, held).0.entries, was, Release(s, held).1, there, true)
  {
    RemovePresence(s, held);
    if Present(s.entries, held) {
      DemotePresence(s, held);
      if Present(s.entries, Copy(was)) { OneCopy(s.entries, held, Copy(was)); }
    }
  }

  lemma ReleaseTracksAll(one: map<Key, seq<Entry>>, items: seq<Item>, s: Stock, list: seq<Item>, n: nat)
    requires DistinctItems(items) && n < |list| && Unique(s.entries) && AllTracked(one, items, s, list, n)
    ensures AllTracked(one, items, Release(s, list[n]).0, list[n := Release(s, list[n]).1], n + 1)
  {
    forall j | 0 <= j < |items|
      ensures Tracked(Release(s, list[n]).0.entries, items[j], list[n := Release(s, list[n]).1][j], Present(one, items[j]), j < n + 1)
    {
      assert Tracked(s.entries, items[j], list[j], Present(one, items[j]), j < n);
      assert Tracked(s.entries, items[n], list[n], Present(one, items[n]), false);
      if j == n { ReleaseTracks(s, items[n], list[n], Present(one, items[n])); } else {
        assert items[j].1.identity != items[n].1.identity;
        ReleaseSparesOthers(s, list[n], items[j]);
        ReleaseSparesOthers(s, list[n], Copy(items[j]));
      }
    }
  }

  lemma MemoryPassTracks(one: Stock, items: seq<Item>, b: nat)
    requires DistinctItems(items) && b <= |items| && Unique(one.entries) && AllSized(one.entries)
    requires forall j :: 0 <= j < |items| && !Present(one.entries, items[j]) ==> !Present(one.entries, Copy(items[j]))
    ensures Unique(ReleaseFirst(one, items, b).0.entries)
    ensures AllTracked(one.entries, items, ReleaseFirst(one, items, b).0, ReleaseFirst(one, items, b).1, b)
  {
    ghost var kept := (s: Stock, list: seq<Item>, i: nat) =>
      AllTracked(one.entries, items, s, list, i) && Unique(s.entries) && AllSized(s.entries);
    forall s: Stock, list: seq<Item>, i: nat | i < |list| && kept(s, list, i)
      ensures kept(Release(s, list[i]).0, list[i := Release(s, list[i]).1], i + 1)
    {
      ReleaseTracksAll(one.entries, items, s, list, i);
      ReleaseShape(s, list[i]);
    }
    assert kept(one, items, 0);
    ReleaseKeeps(one, items, b, kept);
  }

  /** An entry gives way to a less recent one only in memory: what left owned no file and had a body,
      and what stayed in its place has no body any more. */
  ghost predicate GivesWay(purged: map<Key, seq<Entry>>, next: map<Key, seq<Entry>>, policy: string) {
    forall x, y | Present(purged, x) && x.1.policy == policy && Present(purged, y) && y.1.policy == policy
                  && y.1.sequence < x.1.sequence && Survives(next, y) && !Survives(next, x) ::
      x.1.file.None? && x.1.body.Some? && Present(next, Copy(y))
  }

  lemma PositionsOf(items: seq<Item>, y: Item, x: Item) returns (p: nat, q: nat)
    requires Sorted(items) && y in items && x in items && y.1.sequence < x.1.sequence
    ensures p < q < |items| && items[p] == y && items[q] == x
  {
    p :| 0 <= p < |items| && items[p] == y;
    q :| 0 <= q < |items| && items[q] == x;
  }

  /** What the two removing passes leave, by position. */
  lemma PrefixLeaves(st: Stock, list: seq<Item>, n: nat, j: nat)
    requires n <= |list| && j < |list| && DistinctItems(list)
    ensures Present(RemoveFirst(st, list, n).entries, list[j]) <==> Present(st.entries, list[j]) && n <= j
  {
    RemoveFirstPresence(st, list, n);
    if j < n { assert list[..n][j] == list[j]; }
    if list[j] in list[..n] {
      var i :| 0 <= i < n && list[..n][i] == list[j];
      assert list[i] == list[j];
    }
  }

  /** The item at position q gives way to the one at position p only as the statement above says. */
  lemma PassesGiveWay(start: Stock, items: seq<Item>, a: nat, b: nat, c: nat, p: nat, q: nat)
    requires Unique(start.entries) && AllSized(start.entries) && DistinctItems(items)
    requires forall x :: x in items ==> Present(start.entries, x)
    requires a <= |items| && b <= |items| && c <= |items| && p < q < |items|
    ensures var two := ReleaseFirst(RemoveFirst(start, items, a), items, b);
            var next := RemoveFirst(two.0, two.1, c).entries;
            Survives(next, items[p]) && !Survives(next, items[q]) ==>
              items[q].1.file.None? && items[q].1.body.Some? && Present(next, Copy(items[p]))
  {
    var one := RemoveFirst(start, items, a);
    DiskPassLeaves(start, items, a);
    MemoryPassTracks(one, items, b);
    var two := ReleaseFirst(one, items, b);
    assert Tracked(two.0.entries, items[p], two.1[p], Present(one.entries, items[p]), p < b);
    assert Tracked(two.0.entries, items[q], two.1[q], Present(one.entries, items[q]), q < b);
    TrackedAreDistinct(one.entries, items, two.0, two.1, b);
    PrefixLeaves(start, items, a, p);
    PrefixLeaves(start, items, a, q);
    PrefixLeaves(two.0, two.1, c, p);
    PrefixLeaves(two.0, two.1, c, q);
    RemoveFirstPresence(two.0, two.1, c);
    assert items[p] in items && items[q] in items;
    if Present(two.0.entries, two.1[p]) {
      if Present(two.0.entries, items[p]) { OneCopy(two.0.entries, two.1[p], items[p]); }
      if Present(two.0.entries, Copy(items[p])) { OneCopy(two.0.entries, two.1[p], Copy(items[p])); }
    }
  }

  lemma TrackedAreDistinct(one: map<Key, seq<Entry>>, items: seq<Item>, s: Stock, list: seq<Item>, n: nat)
    requires DistinctItems(items) && AllTracked(one, items, s, list, n)
    ensures DistinctItems(list)
  {
    forall j | 0 <= j < |list| ensures list[j].1.identity == items[j].1.identity {
      assert Tracked(s.entries, items[j], list[j], Present(one, items[j]), j < n);
    }
  }

  lemma DiskPassLeaves(start: Stock, items: seq<Item>, a: nat)
    requires a <= |items| && Unique(start.entries) && AllSized(start.entries)
    requires forall x :: x in items ==> Present(start.entries, x)
    ensures var one := RemoveFirst(start, items, a).entries;
            && Unique(one) && AllSized(one)
            && forall j :: 0 <= j < |items| && !Present(one, items[j]) ==> !Present(one, Copy(items[j]))
  {
    RemoveFirstShape(start, items, a);
    RemoveFirstPresence(start, items, a);
    var one := RemoveFirst(start, items, a).entries;
    forall j | 0 <= j < |items| && !Present(one, items[j]) ensures !Present(one, Copy(items[j])) {
      assert items[j] in items;
      if Present(one, Copy(items[j])) { OneCopy(start.entries, items[j], Copy(items[j])); }
    }
  }

  lemma {:induction false} RemoveFirstShape(st: Stock, items: seq<Item>, n: nat)
    requires n <= |items| && Unique(st.entries) && AllSized(st.entries)
    ensures Unique(RemoveFirst(st, items, n).entries) && AllSized(RemoveFirst(st, items, n).entries)
  {
    if n > 0 {
      RemoveFirstShape(st, items, n - 1);
      RemoveShape(RemoveFirst(st, items, n - 1), items[n - 1]);
    }
  }

  /** The same by position in the list. */
  ghost predicate GivesWayAt(items: seq<Item>, next: map<Key, seq<Entry>>, p: nat, q: nat)
    requires p < q < |items|
  {
    Survives(next, items[p]) && !Survives(next, items[q]) ==>
      items[q].1.file.None? && items[q].1.body.Some? && Present(next, Copy(items[p]))
  }

  lemma PositionsGiveWay(purged: map<Key, seq<Entry>>, items: seq<Item>, next: map<Key, seq<Entry>>, policy: string)
    requires Sorted(items) && forall x :: x in items <==> Present(purged, x) && x.1.policy == policy
    requires forall p, q | 0 <= p < q < |items| :: GivesWayAt(items, next, p, q)
    ensures GivesWay(purged, next, policy)
  {
    forall x, y | Present(purged, x) && x.1.policy == policy && Present(purged, y) && y.1.policy == policy
                  && y.1.sequence < x.1.sequence && Survives(next, y) && !Survives(next, x)
      ensures x.1.file.None? && x.1.body.Some? && Present(next, Copy(y))
    {
      var p, q := PositionsOf(items, y, x);
      assert GivesWayAt(items, next, p, q);
    }
  }

  /** The three passes, wherever each one stopped. */
  lemma PassesKeepOrder(start: Stock, items: seq<Item>, a: nat, b: nat, c: nat, next: Stock, policy: string)
    requires Unique(start.entries) && AllSized(start.entries) && Sorted(items) && NoRepeat(items)
    requires forall x :: x in items <==> Present(start.entries, x) && x.1.policy == policy
    requires a <= |items| && b <= |items| && c <= |items|
    requires next == var two := ReleaseFirst(RemoveFirst(start, items, a), items, b); RemoveFirst(two.0, two.1, c)
    ensures GivesWay(start.entries, next.entries, policy)
  {
    NoRepeatIsDistinct(start.entries, items);
    forall p, q | 0 <= p < q < |items| ensures GivesWayAt(items, next.entries, p, q) {
      PassesGiveWay(start, items, a, b, c, p, q);
    }
    PositionsGiveWay(start.entries, items, next.entries, policy);
  }

  /** How the three passes ran: each one handled the shortest prefix after which its limit holds. */
  ghost predicate Passes(start: Stock, items: seq<Item>, a: nat, b: nat, c: nat, next: Stock, limits: Limits) {
    && a <= |items| && b <= |items| && c <= |items|
    && var one := RemoveFirst(start, items, a);
       var two := ReleaseFirst(one, items, b);
       && next == RemoveFirst(two.0, two.1, c)
       && (a < |items| ==> DiskFits(one, limits.disk)) && (forall n :: 0 <= n < a ==> DiskShort(start, items, n, limits.disk))
       && (b < |items| ==> two.0.memory <= limits.memory) && (forall n :: 0 <= n < b ==> ReleaseShort(one, items, n, limits.memory))
       && (c < |items| ==> next.memory <= limits.memory) && (forall n :: 0 <= n < c ==> MemoryShort(two.0, two.1, n, limits.memory))
  }

  lemma PassesAct(start: Stock, items: seq<Item>, a: nat, b: nat, c: nat, next: Stock, limits: Limits)
    requires Passes(start, items, a, b, c, next, limits)
    ensures a < |items| ==> RemoveFirst(start, items, a).disk <= limits.disk
    ensures b > 0 ==> RemoveFirst(start, items, a).memory > limits.memory
    ensures c > 0 ==> ReleaseFirst(RemoveFirst(start, items, a), items, b).0.memory > limits.memory
    ensures DiskFits(start, limits.disk) && start.memory <= limits.memory ==> next == start
  {
    var one := RemoveFirst(start, items, a);
    var two := ReleaseFirst(one, items, b);
    assert a > 0 ==> DiskShort(start, items, 0, limits.disk);
    assert b > 0 ==> ReleaseShort(one, items, 0, limits.memory);
    assert c > 0 ==> MemoryShort(two.0, two.1, 0, limits.memory);
  }

  method RunPasses(start: Stock, items: seq<Item>, limits: Limits) returns (next: Stock, ghost a: nat, ghost b: nat, ghost c: nat)
    ensures Passes(start, items, a, b, c, next, limits)
  {
    var one, first := DiskPass(start, items, limits.disk);
    var two, list, second := MemoryPass(one, items, limits.memory);
    var third;
    next, third := FinalPass(two, list, limits.memory);
    a, b, c := first, second, third;
  }

  /** What evict leaves is exactly what the three passes leave of the unexpired entries. */
  ghost predicate Evicted(purged: map<Key, seq<Entry>>, next: Stock, policy: string, limits: Limits) {
    exists start: Stock, items: seq<Item>, a: nat, b: nat, c: nat ::
      && start.entries == purged && Collected(start, items, policy) && Sorted(items) && NoRepeat(items)
      && Passes(start, items, a, b, c, next, limits)
  }

  /** The number of keys is within its bound, or nothing of the policy is left. */
  ghost predicate KeysFit(entries: map<Key, seq<Entry>>, policy: string) {
    |entries| <= 16384 || forall k, e :: k in entries && e in entries[k] ==> e.policy != policy
  }

  lemma FewerKeysFit(one: map<Key, seq<Entry>>, next: map<Key, seq<Entry>>, policy: string)
    requires KeysFit(one, policy) && Derived(one, next, policy)
    ensures KeysFit(next, policy)
  {
    FewerKeys(next.Keys, one.Keys);
    assert |next| == |next.Keys| && |one| == |one.Keys|;
    forall k, e | k in next && e in next[k] ensures exists x :: x in one[k] && x.policy == e.policy { ThinnedSources(one[k], next[k]); }
  }

  lemma {:induction false} FewerKeys(a: set<Key>, b: set<Key>)
    requires a <= b
    ensures |a| <= |b|
    decreases |a|
  {
    if a != {} {
      var k :| k in a;
      FewerKeys(a - {k}, b - {k});
    }
  }

  lemma PassesFitKeys(entries: map<Key, seq<Entry>>, start: Stock, items: seq<Item>, a: nat, b: nat, c: nat, st: Stock,
                      policy: string, now: int, limits: Limits)
    requires Unique(entries) && AllSized(entries) && Purged(entries, {}, start.entries, now) && Collected(start, items, policy)
    requires Passes(start, items, a, b, c, st, limits)
    ensures KeysFit(st.entries, policy)
  {
    StartBooks(entries, start, items, policy, now);
    var one := RemoveFirst(start, items, a);
    var two := ReleaseFirst(one, items, b);
    RemoveFirstBooks(start, start, items, a, policy);
    RemoveFirstDerives(start.entries, start, items, a, policy);
    if a == |items| {
      RemoveFirstPresence(start, items, a);
      assert items[..a] == items;
      forall k, e | k in one.entries && e in one.entries[k] ensures e.policy != policy { assert Present(one.entries, (k, e)); }
    }
    PurgedDerives(one.entries, policy);
    LaterPassesDerive(one, items, b, c, policy);
    FewerKeysFit(one.entries, st.entries, policy);
  }

  /** The memory passes only take away from what the disk pass left. */
  lemma LaterPassesDerive(one: Stock, items: seq<Item>, b: nat, c: nat, policy: string)
    requires b <= |items| && c <= |items| && OfPolicy(items, policy) && Books(one, one, policy)
    requires Derived(one.entries, one.entries, policy)
    ensures var two := ReleaseFirst(one, items, b); Derived(one.entries, RemoveFirst(two.0, two.1, c).entries, policy)
  {
    var two := ReleaseFirst(one, items, b);
    ReleaseFirstDerives(one.entries, one, items, b, policy);
    ReleaseFirstBooks(one, one, items, b, policy);
    RemoveFirstDerives(one.entries, two.0, two.1, c, policy);
  }

  lemma PassesMeetLimits(entries: map<Key, seq<Entry>>, start: Stock, items: seq<Item>, a: nat, b: nat, c: nat, st: Stock,
                         policy: string, now: int, limits: Limits)
    requires Unique(entries) && AllSized(entries) && Purged(entries, {}, start.entries, now) && Collected(start, items, policy)
    requires start.retire <==> exists k :: k in entries && ExpiredFile(entries[k], now)
    requires Sorted(items) && NoRepeat(items) && Passes(start, items, a, b, c, st, limits)
    ensures Settled(entries, st, policy, now, limits) && Trims(entries, st.entries, policy, now)
    ensures Evicted(PurgedEntries(entries, now), st, policy, limits)
  {
    PassesAct(start, items, a, b, c, st, limits);
    PassesSettle(entries, start, items, a, b, c, policy, now, limits);
    PurgedIs(entries, start.entries, now);
  }

  lemma PassesOrder(entries: map<Key, seq<Entry>>, start: Stock, items: seq<Item>, a: nat, b: nat, c: nat, st: Stock,
                    policy: string, now: int, limits: Limits)
    requires Unique(entries) && AllSized(entries) && Purged(entries, {}, start.entries, now) && Collected(start, items, policy)
    requires Sorted(items) && NoRepeat(items) && Passes(start, items, a, b, c, st, limits)
    ensures Usage(PurgedEntries(entries, now), policy, Memory) <= limits.memory ==>
              KeepsMostRecent(PurgedEntries(entries, now), st.entries, policy)
    ensures GivesWay(PurgedEntries(entries, now), st.entries, policy)
    ensures Fit(PurgedEntries(entries, now), policy, limits) ==> st.entries == PurgedEntries(entries, now)
  {
    PassesAct(start, items, a, b, c, st, limits);
    PassesKeepRecency(entries, start, items, a, b, c, policy, now, limits);
    PurgedIs(entries, start.entries, now);
    PurgedShape(entries, start.entries, now);
    PassesKeepOrder(start, items, a, b, c, st, policy);
  }

  /** evict on a private copy of the root: everything but the entries is untouched, so the result
      is one of the roots that the runs of module CacheRuns allow. */
  method Evict(root: Root, policy: string, now: int, limits: Limits) returns (next: Root, retire: bool, memory: int, disk: int)
    requires Unique(root.entries) && AllSized(root.entries)
    ensures Evicts(root, next)
    ensures Settled(root.entries, Stock(next.entries, memory, disk, retire), policy, now, limits)
    ensures Trims(root.entries, next.entries, policy, now) && KeysFit(next.entries, policy)
    ensures Usage(PurgedEntries(root.entries, now), policy, Memory) <= limits.memory ==>
              KeepsMostRecent(PurgedEntries(root.entries, now), next.entries, policy)
    ensures GivesWay(PurgedEntries(root.entries, now), next.entries, policy)
    ensures Evicted(PurgedEntries(root.entries, now), Stock(next.entries, memory, disk, retire), policy, limits)
    ensures Fit(PurgedEntries(root.entries, now), policy, limits) ==> next.entries == PurgedEntries(root.entries, now)
  {
    var start, unsorted := Collect(root.entries, policy, now);
    var items := SortItems(unsorted);
    SortKeepsNoRepeat(unsorted);
    var st;
    ghost var a, b, c;
    st, a, b, c := RunPasses(start, items, limits);
    PassesMeetLimits(root.entries, start, items, a, b, c, st, policy, now, limits);
    PassesOrder(root.entries, start, items, a, b, c, st, policy, now, limits);
    PassesFitKeys(root.entries, start, items, a, b, c, st, policy, now, limits);
    next, retire, memory, disk := root.(entries := st.entries), st.retire, st.memory, st.disk;
    assert Stock(next.entries, memory, disk, retire) == st;
  }

  /** Both limits and the bound on keys hold already. */
  ghost predicate Fit(entries: map<Key, seq<Entry>>, policy: string, limits: Limits) {
    && Usage(entries, policy, Memory) <= limits.memory && Usage(entries, policy, Disk) <= limits.disk
    && |entries| <= MAX_KEYS
  }
}
