/** What each cache operation does to the stored variants, entry by entry (node/data/response_cache.h). */
module CacheVariants {
  import opened Wrappers
  import opened CacheRoot
  import opened CacheRuns

  /** Nothing but the variants of one key differs. */
  ghost predicate SameElsewhere(r: Root, n: Root, key: Key) {
    n.epochs == r.epochs && forall k :: k != key ==> (k in n.entries <==> k in r.entries) && (k in n.entries ==> n.entries[k] == r.entries[k])
  }

  // ---------------------------------------------------------------------------
  // Looking up
  // ---------------------------------------------------------------------------

  datatype Found = Hit(entry: Entry) | Miss(stale: Option<Entry>)

  /** The entry may serve this request and is still retained; `suits` says whether its Vary values and
      the request's authorization allow it. */
  predicate Usable(e: Entry, suits: Entry -> bool, now: int) { suits(e) && e.retainUntil > now }

  /** The variant a lookup finds: the first usable one that is fresh, or else the most recent stale one. */
  method FindVariant(list: seq<Entry>, suits: Entry -> bool, now: int) returns (found: Found)
    ensures found.Hit? <==> exists e :: e in list && Usable(e, suits, now) && e.expiresAt > now
    ensures found.Hit? ==>
              exists i :: 0 <= i < |list| && list[i] == found.entry && Usable(list[i], suits, now) && list[i].expiresAt > now
                          && forall j :: 0 <= j < i ==> !(Usable(list[j], suits, now) && list[j].expiresAt > now)
    ensures found.Miss? ==> (found.stale.Some? <==> exists e :: e in list && Usable(e, suits, now))
    ensures found.Miss? && found.stale.Some? ==>
              found.stale.value in list && Usable(found.stale.value, suits, now)
              && forall e :: e in list && Usable(e, suits, now) ==> e.sequence <= found.stale.value.sequence
  {
    var stale: Option<Entry> := None;
    var i := 0;
    while i < |list|
      invariant 0 <= i <= |list|
      invariant forall j :: 0 <= j < i ==> !(Usable(list[j], suits, now) && list[j].expiresAt > now)
      invariant stale.Some? ==> stale.value in list && Usable(stale.value, suits, now)
      invariant forall j :: 0 <= j < i && Usable(list[j], suits, now) ==> stale.Some? && list[j].sequence <= stale.value.sequence
    {
      var item := list[i];
      if Usable(item, suits, now) {
        if item.expiresAt > now {
          return Hit(item);
        }
        if stale.None? || item.sequence > stale.value.sequence {
          stale := Some(item);
        }
      }
      i := i + 1;
    }
    found := Miss(stale);
  }

  // ---------------------------------------------------------------------------
  // Storing
  // ---------------------------------------------------------------------------

  /** Places of the variants that a response with these Vary values does not replace. */
  function Others(s: seq<Entry>, vary: seq<(string, string)>): set<nat> { set i: nat | i < |s| && s[i].vary != vary }

  /** The rising places of `s` from which `kept` was taken. */
  ghost predicate Selects(places: seq<nat>, kept: seq<Entry>, s: seq<Entry>) {
    && |places| == |kept|
    && (forall a :: 0 <= a < |kept| ==> places[a] < |s| && s[places[a]] == kept[a])
    && (forall a, b :: 0 <= a < b < |kept| ==> places[a] < places[b])
  }

  /** `kept` lists some elements of `s` in their order. */
  ghost predicate InOrderOf(kept: seq<Entry>, s: seq<Entry>) { exists places: seq<nat> :: Selects(places, kept, s) }

  /** The places of a list are the first one and those of its tail, moved on by one. */
  lemma OthersOfTail(s: seq<Entry>, vary: seq<(string, string)>)
    requires s != []
    ensures |Others(s, vary)| == |Others(s[1..], vary)| + if s[0].vary != vary then 1 else 0
  {
    var all, rest := Others(s, vary), Others(s[1..], vary);
    var shifted := all - {0};
    forall j: nat ensures j in shifted <==> j > 0 && j - 1 in rest {
      if 0 < j < |s| { assert s[j] == s[1..][j - 1]; }
    }
    ShiftedSize(rest, shifted);
    if s[0].vary != vary { assert all == shifted + {0}; } else { assert all == shifted; }
  }

  lemma {:induction false} FilterCounts(s: seq<Entry>, vary: seq<(string, string)>)
    ensures |Filter(s, (e: Entry) => e.vary != vary)| == |Others(s, vary)|
  {
    if s != [] {
      FilterCounts(s[1..], vary);
      OthersOfTail(s, vary);
    }
  }

  lemma {:induction false} ShiftedSize(a: set<nat>, b: set<nat>)
    requires forall j: nat :: j in b <==> j > 0 && j - 1 in a
    ensures |b| == |a|
    decreases |a|
  {
    if a != {} {
      var x :| x in a;
      assert x + 1 in b by { assert x + 1 - 1 in a; }
      ShiftedSize(a - {x}, b - {x + 1});
    } else {
      assert b == {};
    }
  }

  function Shifted(places: seq<nat>): (r: seq<nat>)
    ensures |r| == |places| && forall a :: 0 <= a < |places| ==> r[a] == places[a] + 1
  {
    seq(|places|, a requires 0 <= a < |places| => places[a] + 1)
  }

  lemma ShiftSelects(places: seq<nat>, kept: seq<Entry>, s: seq<Entry>)
    requires s != [] && Selects(places, kept, s[1..])
    ensures Selects(Shifted(places), kept, s) && Selects([0] + Shifted(places), [s[0]] + kept, s)
  {
    assert forall a :: 0 <= a < |kept| ==> s[Shifted(places)[a]] == s[1..][places[a]];
  }

  lemma {:induction false} FilterSelects(s: seq<Entry>, keep: Entry -> bool) returns (places: seq<nat>)
    ensures Selects(places, Filter(s, keep), s)
  {
    places := [];
    if s != [] {
      var rest := FilterSelects(s[1..], keep);
      ShiftSelects(rest, Filter(s[1..], keep), s);
      places := if keep(s[0]) then [0] + Shifted(rest) else Shifted(rest);
    }
  }

  lemma FilterInOrder(s: seq<Entry>, keep: Entry -> bool)
    ensures InOrderOf(Filter(s, keep), s)
  {
    var places := FilterSelects(s, keep);
  }

  lemma TailInOrder(kept: seq<Entry>, s: seq<Entry>)
    requires kept != [] && InOrderOf(kept, s)
    ensures InOrderOf(kept[1..], s)
  {
    var places: seq<nat> :| Selects(places, kept, s);
    assert Selects(places[1..], kept[1..], s);
  }

  lemma {:induction false} FilterFirst(s: seq<Entry>, keep: Entry -> bool, i: nat)
    requires i < |s| && keep(s[i]) && forall j :: 0 <= j < i ==> !keep(s[j])
    ensures Filter(s, keep) != [] && Filter(s, keep)[0] == s[i]
  {
    if i > 0 { FilterFirst(s[1..], keep, i - 1); }
  }

  /** A variant leaves when a response is stored: it had the same Vary values, or there were already
      sixteen others and it is the oldest of them. */
  ghost predicate GivenUp(s: seq<Entry>, vary: seq<(string, string)>, i: nat)
    requires i < |s|
  {
    s[i].vary == vary || (|Others(s, vary)| >= 16 && forall j :: 0 <= j < i ==> s[j].vary == vary)
  }

  lemma StoredKeeps(s: seq<Entry>, vary: seq<(string, string)>, room: seq<Entry>, i: nat)
    requires DistinctIds(s) && i < |s|
    requires var others := Filter(s, (e: Entry) => e.vary != vary); room == if |others| >= 16 then others[1..] else others
    ensures s[i] in room <==> !GivenUp(s, vary, i)
  {
    var keep := (e: Entry) => e.vary != vary;
    var others := Filter(s, keep);
    FilterCounts(s, vary);
    FilterDistinct(s, keep);
    if keep(s[i]) && |others| >= 16 {
      assert others == [others[0]] + room;
      assert s[i] in others;
      if forall j :: 0 <= j < i ==> s[j].vary == vary {
        FilterFirst(s, keep, i);
        assert forall j :: 0 <= j < |room| ==> room[j] == others[j + 1];
      } else {
        var m := FirstOther(s, vary, i);
        FilterFirst(s, keep, m);
      }
    }
  }

  /** The first place before `i` that is not replaced. */
  lemma FirstOther(s: seq<Entry>, vary: seq<(string, string)>, i: nat) returns (m: nat)
    requires i < |s| && exists j :: 0 <= j < i && s[j].vary != vary
    ensures m < i && s[m].vary != vary && forall j :: 0 <= j < m ==> s[j].vary == vary
  {
    m := 0;
    while s[m].vary == vary
      invariant m < i && forall j :: 0 <= j < m ==> s[j].vary == vary
      decreases i - m
    {
      var j :| 0 <= j < i && s[j].vary != vary;
      m := m + 1;
    }
  }

  /** Storing puts the new variant last under the next number, keeps in their order exactly the
      variants with other Vary values, the oldest of sixteen excepted, releases the claim, and
      touches nothing else. */
  lemma StoreReplacesVariant(r: Root, t: Ticket, item: Entry)
    requires Good(r)
    ensures var n := Insert(r, t, item);
            && SameElsewhere(r, n, t.key) && n.filling == r.filling - {t.key} && n.sequence == r.sequence + 1
            && t.key in n.entries && n.entries[t.key] != []
            && var list, was := n.entries[t.key], r.Variants(t.key);
            && list[|list| - 1] == item.(website := t.key.website, policy := t.key.policy, websiteEpoch := t.websiteEpoch,
                                         policyEpoch := t.policyEpoch, sequence := n.sequence, identity := n.sequence)
            && InOrderOf(list[..|list| - 1], was)
            && (forall e :: e in list[..|list| - 1] ==> e in was)
            && (forall i :: 0 <= i < |was| ==> (was[i] in list[..|list| - 1] <==> !GivenUp(was, item.vary, i)))
            && (|was| <= 16 ==> |list| <= 16)
  {
    var n, was := Insert(r, t, item), r.Variants(t.key);
    var room := Room(was, item.vary);
    assert n.entries[t.key][..|n.entries[t.key]| - 1] == room;
    RoomKeeps(was, item.vary);
  }

  /** The variants a stored response leaves in place. */
  function Room(s: seq<Entry>, vary: seq<(string, string)>): (room: seq<Entry>) {
    var others := Filter(s, (e: Entry) => e.vary != vary);
    if |others| >= 16 then others[1..] else others
  }

  lemma RoomKeeps(s: seq<Entry>, vary: seq<(string, string)>)
    requires DistinctIds(s)
    ensures var room := Room(s, vary);
            && InOrderOf(room, s) && (forall e :: e in room ==> e in s) && (|s| <= 16 ==> |room| <= 15)
            && forall i :: 0 <= i < |s| ==> (s[i] in room <==> !GivenUp(s, vary, i))
  {
    var keep := (e: Entry) => e.vary != vary;
    var others, room := Filter(s, keep), Room(s, vary);
    FilterInOrder(s, keep);
    if |others| >= 16 {
      TailInOrder(others, s);
      assert forall e :: e in room ==> e in others;
    }
    FilterCounts(s, vary);
    OthersFit(s, vary);
    forall i | 0 <= i < |s| ensures s[i] in room <==> !GivenUp(s, vary, i) { StoredKeeps(s, vary, room, i); }
  }

  lemma {:induction false} OthersFit(s: seq<Entry>, vary: seq<(string, string)>)
    ensures |Others(s, vary)| <= |s|
  {
    if s != [] {
      OthersFit(s[..|s| - 1], vary);
      assert Others(s, vary) - {|s| - 1} == Others(s[..|s| - 1], vary);
    }
  }

  /** A store or revalidation publishes exactly when the ticket still holds its claim under unchanged
      epochs and the entry is there afterwards, or was there before; otherwise only the claim may go. */
  lemma PublishesExactly(c: Cache, e: Event)
    requires Enabled(c, e) && (e.Stored? || e.Revalidated?)
    ensures var t, n := e.ticket, Apply(c, e);
            var holds := t.key in c.root.filling && c.root.filling[t.key].id == t.claim;
            var current := c.root.Epoch(Website(t.key.website)) == t.websiteEpoch && c.root.Epoch(Policy(t.key.policy)) == t.policyEpoch;
            var there := if e.Stored? then t.key in e.evicted.entries
                         else exists x :: x in c.root.Variants(t.key) && x.identity == e.previous.identity;
            && (holds && current && there <==> n.published == c.published + [t.claim])
            && (holds && current && there && e.Stored? ==> n.root == e.evicted)
            && (!(holds && current && there) ==>
                  n.published == c.published && n.root.entries == c.root.entries && n.root.epochs == c.root.epochs)
  {
    if e.Revalidated? && e.ticket.key in c.root.entries {
      var i := IndexOf(c.root.entries[e.ticket.key], e.previous.identity);
      assert i < |c.root.entries[e.ticket.key]| ==> c.root.entries[e.ticket.key][i] in c.root.Variants(e.ticket.key);
    }
  }

  // ---------------------------------------------------------------------------
  // The other operations
  // ---------------------------------------------------------------------------

  /** Discarding removes exactly the entry of that identity, and the key with its last entry. */
  lemma DiscardRemovesExactly(r: Root, key: Key, identity: nat)
    ensures var n := Discard(r, key, identity);
            && SameElsewhere(r, n, key) && n.filling == r.filling && n.sequence == r.sequence
            && InOrderOf(n.Variants(key), r.Variants(key))
            && (forall e :: e in n.Variants(key) <==> e in r.Variants(key) && e.identity != identity)
            && (key in n.entries && key in r.entries && r.entries[key] != [] ==> n.entries[key] != [])
  {
    assert Selects([], [], r.Variants(key));
    if key in r.entries {
      FilterInOrder(r.entries[key], (e: Entry) => e.identity != identity);
      assert Discard(r, key, identity).Variants(key) == Filter(r.entries[key], (e: Entry) => e.identity != identity);
    }
  }

  /** Renewing moves nothing but the expiry of the ticket's own claim, and only while the ticket may
      publish; releasing takes exactly the ticket's own claim. */
  lemma ClaimChanges(r: Root, t: Ticket, now: int, k: Key)
    ensures var held := t.key in r.filling && r.filling[t.key].id == t.claim;
            var current := r.Epoch(Website(t.key.website)) == t.websiteEpoch && r.Epoch(Policy(t.key.policy)) == t.policyEpoch;
            var n, a := Renew(r, t, now), Abandon(r, t);
            && n == r.(filling := n.filling) && a == r.(filling := a.filling)
            && (k in n.filling <==> k in r.filling)
            && (k in n.filling ==> n.filling[k] == if k == t.key && held && current then r.filling[k].(expiresAt := now + 30) else r.filling[k])
            && (k in a.filling <==> k in r.filling && !(k == t.key && held))
            && (k in a.filling ==> a.filling[k] == r.filling[k])
  {
  }

  /** The places of a list where exactly one entry was replaced under a new number. */
  predicate ReplacedAt(s: seq<Entry>, n: seq<Entry>, i: nat, e: Entry) {
    i < |s| == |n| && n[i] == e && forall j :: 0 <= j < |s| && j != i ==> n[j] == s[j]
  }

  /** Revalidation replaces the entry of that identity by the refreshed one under the next number and
      releases the claim, when the ticket still holds under unchanged epochs; else nothing happens. */
  lemma RevalidateReplacesExactly(r: Root, t: Ticket, previous: Entry, refreshed: Entry, i: nat)
    requires Good(r) && i < |r.Variants(t.key)| && r.Variants(t.key)[i].identity == previous.identity
    ensures var n := Revalidate(r, t, previous, refreshed);
            if t.key in r.filling && r.filling[t.key].id == t.claim
               && r.Epoch(Website(t.key.website)) == t.websiteEpoch && r.Epoch(Policy(t.key.policy)) == t.policyEpoch
            then
              && SameElsewhere(r, n, t.key) && n.filling == r.filling - {t.key} && n.sequence == r.sequence + 1
              && ReplacedAt(r.Variants(t.key), n.Variants(t.key), i, refreshed.(sequence := n.sequence))
            else n == r
  {
    assert DistinctIds(r.entries[t.key]);
  }

  lemma RevalidateNeedsEntry(r: Root, t: Ticket, previous: Entry, refreshed: Entry)
    requires forall e :: e in r.Variants(t.key) ==> e.identity != previous.identity
    ensures Revalidate(r, t, previous, refreshed) == r
  {
  }

  /** Promotion gives the first entry that owns the file the body it is handed, under the next number;
      an entry that has a body, or a file nobody owns, changes nothing. */
  lemma PromoteGivesBody(r: Root, key: Key, file: string, body: string, i: nat)
    requires i < |r.Variants(key)| && r.Variants(key)[i].file == Some(file)
    requires forall j :: 0 <= j < i ==> r.Variants(key)[j].file != Some(file)
    ensures var n := Promote(r, key, file, body);
            if r.Variants(key)[i].body.Some? then n == r
            else
              && SameElsewhere(r, n, key) && n.filling == r.filling && n.sequence == r.sequence + 1
              && ReplacedAt(r.Variants(key), n.Variants(key), i, r.Variants(key)[i].(body := Some(body), sequence := n.sequence))
  {
  }

  lemma PromoteNeedsFile(r: Root, key: Key, file: string, body: string)
    requires forall e :: e in r.Variants(key) ==> e.file != Some(file)
    ensures Promote(r, key, file, body) == r
  {
  }

  predicate TouchedBy(touches: seq<(Key, set<nat>)>, key: Key, identity: nat) {
    exists t :: t in touches && t.0 == key && identity in t.1
  }

  /** An entry with a newer number than any before, or the same entry. */
  predicate RenewedTo(was: Entry, e: Entry, touched: bool, before: nat, after: nat) {
    e == was.(sequence := e.sequence) && (if touched then before < e.sequence <= after else e == was)
  }

  lemma {:induction false} TouchListRenews(s: seq<Entry>, ids: set<nat>, sequence: nat)
    ensures var r := TouchList(s, ids, sequence);
            forall i :: 0 <= i < |s| ==> RenewedTo(s[i], r.0[i], s[i].identity in ids, sequence, r.1)
  {
    if s != [] {
      var next := if s[0].identity in ids then sequence + 1 else sequence;
      TouchListRenews(s[1..], ids, next);
      var r, rest := TouchList(s, ids, sequence), TouchList(s[1..], ids, next);
      forall i | 0 <= i < |s| ensures RenewedTo(s[i], r.0[i], s[i].identity in ids, sequence, r.1) {
        if i > 0 { assert s[i] == s[1..][i - 1] && r.0[i] == rest.0[i - 1]; }
      }
    }
  }

  /** A flush gives every touched entry a number newer than any before it and changes nothing else,
      however many keys and however often. */
  lemma {:induction false} TouchRenewsExactly(r: Root, touches: seq<(Key, set<nat>)>, key: Key)
    ensures var n := Touch(r, touches);
            && n.epochs == r.epochs && n.filling == r.filling && r.sequence <= n.sequence && n.entries.Keys == r.entries.Keys
            && |n.Variants(key)| == |r.Variants(key)|
            && forall i :: 0 <= i < |r.Variants(key)| ==>
                 RenewedTo(r.Variants(key)[i], n.Variants(key)[i], TouchedBy(touches, key, r.Variants(key)[i].identity), r.sequence, n.sequence)
    decreases |touches|
  {
    if touches != [] {
      var (k, ids) := touches[0];
      var m := if k !in r.entries then r
               else r.(entries := r.entries[k := TouchList(r.entries[k], ids, r.sequence).0], sequence := TouchList(r.entries[k], ids, r.sequence).1);
      var n := Touch(r, touches);
      assert n == Touch(m, touches[1..]);
      TouchRenewsExactly(m, touches[1..], key);
      TouchListRenews(r.Variants(k), ids, r.sequence);
      forall i | 0 <= i < |r.Variants(key)|
        ensures RenewedTo(r.Variants(key)[i], n.Variants(key)[i], TouchedBy(touches, key, r.Variants(key)[i].identity), r.sequence, n.sequence)
      {
        TouchedSplit(touches, key, r.Variants(key)[i].identity);
      }
    }
  }

  lemma TouchedSplit(touches: seq<(Key, set<nat>)>, key: Key, identity: nat)
    requires touches != []
    ensures TouchedBy(touches, key, identity) <==> (touches[0].0 == key && identity in touches[0].1) || TouchedBy(touches[1..], key, identity)
  {
    if TouchedBy(touches, key, identity) {
      var t :| t in touches && t.0 == key && identity in t.1;
      assert t == touches[0] || t in touches[1..];
    }
  }

  // ---------------------------------------------------------------------------
  // Invalidation
  // ---------------------------------------------------------------------------

  /** A clean fences its policy, a refresh each listed website. */
  predicate Fences(c: Command, k: EpochKey) { if c.clean then k == Policy(c.policy) else k.Website? && k.id in c.websites }

  function CountIn(s: seq<string>, x: string): (n: nat)
    ensures n > 0 <==> x in s
  {
    if s == [] then 0 else (if s[0] == x then 1 else 0) + CountIn(s[1..], x)
  }

  lemma {:induction false} BumpAllCounts(epochs: map<EpochKey, nat>, websites: seq<string>, k: EpochKey)
    ensures (if k in BumpAll(epochs, websites) then BumpAll(epochs, websites)[k] else 0)
            == (if k in epochs then epochs[k] else 0) + if k.Website? then CountIn(websites, k.id) else 0
    decreases |websites|
  {
    if websites != [] {
      var w := Website(websites[0]);
      BumpAllCounts(epochs[w := (if w in epochs then epochs[w] else 0) + 1], websites[1..], k);
    }
  }

  /** Exactly the fenced epochs rise, exactly the claims of covered keys are dropped, and an entry that
      stays keeps everything but its epochs, in its place among the others. */
  lemma InvalidationTouchesExactly(r: Root, c: Command, now: int, k: EpochKey, key: Key)
    ensures var n := Invalidate(r, c, now);
            && n.sequence == r.sequence
            && (if Fences(c, k) then r.Epoch(k) < n.Epoch(k) else n.Epoch(k) == r.Epoch(k))
            && (key in n.filling <==> key in r.filling && !(r.filling[key].policy == c.policy && (c.clean || r.filling[key].website in c.websites)))
            && (key in n.filling ==> n.filling[key] == r.filling[key])
            && |n.Variants(key)| <= |r.Variants(key)|
            && exists kept: seq<Entry> :: InOrderOf(kept, r.Variants(key)) && Refenced(kept, n.Variants(key), n)
  {
    BumpAllCounts(r.epochs, c.websites, k);
    var n, keep := Invalidate(r, c, now), (e: Entry) => !Invalidates(c, e, now);
    var kept := Filter(r.Variants(key), keep);
    FilterInOrder(r.Variants(key), keep);
    FilterShrinks(r.Variants(key), keep);
    assert Refenced(kept, n.Variants(key), n);
  }

  lemma {:induction false} FilterShrinks(s: seq<Entry>, keep: Entry -> bool)
    ensures |Filter(s, keep)| <= |s|
  {
    if s != [] { FilterShrinks(s[1..], keep); }
  }

  /** The same entries under the epochs of `n`. */
  predicate Refenced(kept: seq<Entry>, list: seq<Entry>, n: Root) {
    |list| == |kept| && forall i :: 0 <= i < |kept| ==>
      list[i] == kept[i].(websiteEpoch := n.Epoch(Website(kept[i].website)), policyEpoch := n.Epoch(Policy(kept[i].policy)))
  }

  /** The text before the first question mark. */
  predicate BeforeQuery(path: string, target: string) {
    path <= target && '?' !in path && (path == target || target[|path|] == '?')
  }

  lemma {:induction false} PathOnlyIsBeforeQuery(target: string)
    ensures BeforeQuery(PathOnly(target), target)
  {
    if target != [] && target[0] != '?' { PathOnlyIsBeforeQuery(target[1..]); }
  }

  lemma BeforeQueryIsUnique(path: string, other: string, target: string)
    requires BeforeQuery(path, target) && BeforeQuery(other, target)
    ensures path == other
  {
    assert forall i :: 0 <= i < |path| ==> path[i] == target[i] && target[i] != '?';
    assert forall i :: 0 <= i < |other| ==> other[i] == target[i] && target[i] != '?';
    assert path == target[..|path|] && other == target[..|other|];
  }

  /** A URL names an entry of its website and origin whose target it equals, or starts in prefix mode;
      when the entry ignores the query, only what stands before the URL's question mark counts. */
  ghost predicate Names(url: (string, string, string), prefix: bool, e: Entry) {
    && url.0 == e.website && url.1 == e.origin
    && (exists candidate: string :: Fits(candidate, url.2, prefix, e))
  }

  predicate Fits(candidate: string, target: string, prefix: bool, e: Entry) {
    && (if e.ignoreQuery then BeforeQuery(candidate, target) else candidate == target)
    && (if prefix then candidate <= e.target else candidate == e.target)
  }

  lemma NamesIs(url: (string, string, string), prefix: bool, e: Entry)
    ensures Names(url, prefix, e) <==> UrlNames(e, url, prefix)
  {
    PathOnlyIsBeforeQuery(url.2);
    var candidate := if e.ignoreQuery then PathOnly(url.2) else url.2;
    forall other: string | BeforeQuery(other, url.2) ensures other == PathOnly(url.2) { BeforeQueryIsUnique(other, PathOnly(url.2), url.2); }
    assert UrlNames(e, url, prefix) ==> Fits(candidate, url.2, prefix, e);
  }

  /** Which entries an invalidation takes: those of the policy, and for a refresh of the listed
      websites, that are in its scope: all, the expired ones, or those some URL names. */
  lemma InvalidatesExactly(c: Command, e: Entry, now: int)
    ensures Invalidates(c, e, now) <==>
            && e.policy == c.policy && (c.clean || e.website in c.websites)
            && (c.scope.ExpiredOnly? ==> e.expiresAt <= now)
            && (c.scope.Urls? ==> exists url :: url in c.scope.urls && Names(url, c.scope.prefix, e))
  {
    if c.scope.Urls? {
      var urls, prefix := c.scope.urls, c.scope.prefix;
      forall url ensures Names(url, prefix, e) <==> UrlNames(e, url, prefix) { NamesIs(url, prefix, e); }
      assert (exists url :: url in urls && Names(url, prefix, e)) <==> UrlMatches(e, urls, prefix);
    }
  }

  // ---------------------------------------------------------------------------
  // Recency never ties
  // ---------------------------------------------------------------------------

  /** The entries of a root by identity and recency. */
  function Stamps(r: Root): set<(nat, nat)> { set k, e | k in r.entries && e in r.entries[k] :: (e.identity, e.sequence) }

  /** No two entries share a recency number. */
  predicate Total(r: Root) { forall p, q :: p in Stamps(r) && q in Stamps(r) && p.1 == q.1 ==> p == q }

  /** Every stamp is an old one or newer than all before, and no new number is given twice. */
  predicate Restamps(r: Root, n: Root) {
    && (forall p :: p in Stamps(n) ==> p in Stamps(r) || r.sequence < p.1)
    && (forall p, q :: p in Stamps(n) && q in Stamps(n) && p.1 == q.1 > r.sequence ==> p == q)
  }

  lemma StampsBounded(r: Root)
    requires Good(r)
    ensures forall p :: p in Stamps(r) ==> p.1 <= r.sequence
  {
    forall p | p in Stamps(r) ensures p.1 <= r.sequence {
      var k, e :| k in r.entries && e in r.entries[k] && p == (e.identity, e.sequence);
      assert EntryOk(r, k, e);
    }
  }

  lemma RestampsOn(r: Root, m: Root, n: Root)
    requires Good(m) && r.sequence <= m.sequence && Restamps(r, m) && Restamps(m, n)
    ensures Restamps(r, n)
  {
    StampsBounded(m);
  }

  /** Same stamps, or fewer. */
  lemma FewerRestamps(r: Root, n: Root)
    requires Good(r) && Stamps(n) <= Stamps(r)
    ensures Restamps(r, n)
  {
    StampsBounded(r);
  }

  /** Fewer stamps and one newer. */
  lemma OneRestamps(r: Root, n: Root, p: (nat, nat))
    requires Good(r) && Stamps(n) <= Stamps(r) + {p} && r.sequence < p.1
    ensures Restamps(r, n)
  {
    StampsBounded(r);
  }

  lemma EvictRestamps(r: Root, n: Root)
    requires Good(r) && Evicts(r, n)
    ensures Restamps(r, n)
  {
    forall p | p in Stamps(n) ensures p in Stamps(r) {
      var k, e :| k in n.entries && e in n.entries[k] && p == (e.identity, e.sequence);
      ThinnedSources(r.entries[k], n.entries[k]);
      var x :| x in r.entries[k] && (e == x || e == Demoted(x));
      assert p == (x.identity, x.sequence);
    }
    FewerRestamps(r, n);
  }

  lemma InsertRestamps(r: Root, t: Ticket, item: Entry)
    requires Good(r)
    ensures Restamps(r, Insert(r, t, item))
  {
    var n := Insert(r, t, item);
    StoreReplacesVariant(r, t, item);
    var newest := (n.sequence, n.sequence);
    forall p | p in Stamps(n) ensures p in Stamps(r) + {newest} {
      var k, e :| k in n.entries && e in n.entries[k] && p == (e.identity, e.sequence);
      if k == t.key {
        var list := n.entries[k];
        assert list == list[..|list| - 1] + [list[|list| - 1]];
      }
    }
    OneRestamps(r, n, newest);
  }

  lemma ReplaceRestamps(r: Root, n: Root, key: Key, i: nat, e: Entry)
    requires Good(r) && SameElsewhere(r, n, key) && key in r.entries && key in n.entries
    requires ReplacedAt(r.entries[key], n.entries[key], i, e) && r.sequence < e.sequence
    ensures Restamps(r, n)
  {
    forall p | p in Stamps(n) ensures p in Stamps(r) + {(e.identity, e.sequence)} {
      var k, x :| k in n.entries && x in n.entries[k] && p == (x.identity, x.sequence);
      if k == key && x != e {
        var j :| 0 <= j < |n.entries[k]| && n.entries[k][j] == x;
        assert r.entries[k][j] == x;
      }
    }
    OneRestamps(r, n, (e.identity, e.sequence));
  }

  lemma RevalidateRestamps(r: Root, t: Ticket, previous: Entry, refreshed: Entry)
    requires Good(r)
    ensures Restamps(r, Revalidate(r, t, previous, refreshed))
  {
    FewerRestamps(r, r);
    if MayRevalidate(r, t, previous) {
      var i := IndexOf(r.entries[t.key], previous.identity);
      RevalidateReplacesExactly(r, t, previous, refreshed, i);
      ReplaceRestamps(r, Revalidate(r, t, previous, refreshed), t.key, i, refreshed.(sequence := r.sequence + 1));
    }
  }

  lemma PromoteRestamps(r: Root, key: Key, file: string, body: string)
    requires Good(r)
    ensures Restamps(r, Promote(r, key, file, body))
  {
    FewerRestamps(r, r);
    if MayPromote(r, key, file) {
      var i := IndexOfFile(r.entries[key], file);
      PromoteGivesBody(r, key, file, body, i);
      ReplaceRestamps(r, Promote(r, key, file, body), key, i, r.entries[key][i].(body := Some(body), sequence := r.sequence + 1));
    }
  }

  function Stamped(s: seq<Entry>, ids: set<nat>, sequence: nat, i: nat): (n: nat)
    requires i < |s|
  {
    TouchList(s, ids, sequence).0[i].sequence
  }

  lemma StampedTail(s: seq<Entry>, ids: set<nat>, sequence: nat, next: nat, j: nat)
    requires 0 < j < |s| && next == if s[0].identity in ids then sequence + 1 else sequence
    ensures Stamped(s, ids, sequence, j) == Stamped(s[1..], ids, next, j - 1)
  {
  }

  lemma StampedIsNewer(s: seq<Entry>, ids: set<nat>, sequence: nat, j: nat)
    requires j < |s| && s[j].identity in ids
    ensures sequence < Stamped(s, ids, sequence, j)
  {
    TouchListRenews(s, ids, sequence);
    assert RenewedTo(s[j], TouchList(s, ids, sequence).0[j], true, sequence, TouchList(s, ids, sequence).1);
  }

  lemma FirstStamped(s: seq<Entry>, ids: set<nat>, sequence: nat)
    requires s != [] && s[0].identity in ids
    ensures Stamped(s, ids, sequence, 0) == sequence + 1
  {
  }

  lemma FirstIsLeast(s: seq<Entry>, ids: set<nat>, sequence: nat, j: nat)
    requires 0 < j < |s| && s[0].identity in ids && s[j].identity in ids
    ensures Stamped(s, ids, sequence, 0) < Stamped(s, ids, sequence, j)
  {
    var rest := s[1..];
    assert s[j] == rest[j - 1];
    StampedTail(s, ids, sequence, sequence + 1, j);
    FirstStamped(s, ids, sequence);
    StampedIsNewer(rest, ids, sequence + 1, j - 1);
  }

  /** Numbers rise along the list. */
  lemma {:induction false} StampsRise(s: seq<Entry>, ids: set<nat>, sequence: nat, i: nat, j: nat)
    requires i < j < |s| && s[i].identity in ids && s[j].identity in ids
    ensures Stamped(s, ids, sequence, i) < Stamped(s, ids, sequence, j)
    decreases i
  {
    if i == 0 {
      FirstIsLeast(s, ids, sequence, j);
    } else {
      var rest, i1, j1 := s[1..], i - 1, j - 1;
      var next := if s[0].identity in ids then sequence + 1 else sequence;
      assert rest[i1] == s[i] && rest[j1] == s[j];
      StampedTail(s, ids, sequence, next, i);
      StampedTail(s, ids, sequence, next, j);
      StampsRise(rest, ids, next, i1, j1);
    }
  }

  /** A stamp that is new after touching one list is that of a touched place of it. */
  lemma NewStampIsTouched(r: Root, n: Root, key: Key, ids: set<nat>, p: (nat, nat)) returns (i: nat)
    requires Good(r) && key in r.entries && p in Stamps(n) && r.sequence < p.1
    requires n == r.(entries := r.entries[key := TouchList(r.entries[key], ids, r.sequence).0], sequence := n.sequence)
    ensures i < |r.entries[key]| && r.entries[key][i].identity in ids
    ensures p == (r.entries[key][i].identity, Stamped(r.entries[key], ids, r.sequence, i))
  {
    var s, list := r.entries[key], TouchList(r.entries[key], ids, r.sequence).0;
    StampsBounded(r);
    var k, e :| k in n.entries && e in n.entries[k] && p == (e.identity, e.sequence);
    assert k != key ==> p in Stamps(r);
    i :| 0 <= i < |list| && list[i] == e;
    TouchListRenews(s, ids, r.sequence);
    assert RenewedTo(s[i], list[i], s[i].identity in ids, r.sequence, TouchList(s, ids, r.sequence).1);
    assert s[i] in s && (s[i].identity, s[i].sequence) in Stamps(r);
  }

  lemma OldStampStays(r: Root, n: Root, key: Key, ids: set<nat>, p: (nat, nat))
    requires key in r.entries && p in Stamps(n) && p.1 <= r.sequence
    requires n == r.(entries := r.entries[key := TouchList(r.entries[key], ids, r.sequence).0], sequence := n.sequence)
    ensures p in Stamps(r)
  {
    var s, list := r.entries[key], TouchList(r.entries[key], ids, r.sequence).0;
    var k, e :| k in n.entries && e in n.entries[k] && p == (e.identity, e.sequence);
    if k == key {
      var i :| 0 <= i < |list| && list[i] == e;
      TouchListRenews(s, ids, r.sequence);
      assert RenewedTo(s[i], list[i], s[i].identity in ids, r.sequence, TouchList(s, ids, r.sequence).1);
      assert s[i] in s;
    }
  }

  lemma TouchOneRestamps(r: Root, key: Key, ids: set<nat>, n: Root)
    requires Good(r) && key in r.entries
    requires n == r.(entries := r.entries[key := TouchList(r.entries[key], ids, r.sequence).0], sequence := n.sequence)
    ensures Restamps(r, n)
  {
    var s := r.entries[key];
    forall p | p in Stamps(n) ensures p in Stamps(r) || r.sequence < p.1 {
      if p.1 <= r.sequence { OldStampStays(r, n, key, ids, p); }
    }
    forall p, q | p in Stamps(n) && q in Stamps(n) && p.1 == q.1 > r.sequence ensures p == q {
      var i := NewStampIsTouched(r, n, key, ids, p);
      var j := NewStampIsTouched(r, n, key, ids, q);
      if i < j { StampsRise(s, ids, r.sequence, i, j); }
      if j < i { StampsRise(s, ids, r.sequence, j, i); }
    }
  }

  lemma {:induction false} TouchRestamps(r: Root, touches: seq<(Key, set<nat>)>)
    requires Good(r)
    ensures Restamps(r, Touch(r, touches))
    decreases |touches|
  {
    if touches == [] {
      FewerRestamps(r, r);
    } else if touches[0].0 !in r.entries {
      TouchRestamps(r, touches[1..]);
    } else {
      var (key, ids) := touches[0];
      var (list, sequence) := TouchList(r.entries[key], ids, r.sequence);
      var m := r.(entries := r.entries[key := list], sequence := sequence);
      TouchOneRestamps(r, key, ids, m);
      var first := [touches[0]];
      TouchProgress(r, first);
      assert first[1..] == [] && Touch(r, first) == Touch(m, first[1..]) == m;
      TouchRestamps(m, touches[1..]);
      RestampsOn(r, m, Touch(m, touches[1..]));
    }
  }

  lemma InvalidateRestamps(r: Root, command: Command, now: int)
    requires Good(r)
    ensures Restamps(r, Invalidate(r, command, now))
  {
    var n := Invalidate(r, command, now);
    forall p | p in Stamps(n) ensures p in Stamps(r) {
      var k, e :| k in n.entries && e in n.entries[k] && p == (e.identity, e.sequence);
      var kept := Filter(r.entries[k], (x: Entry) => !Invalidates(command, x, now));
      var i :| 0 <= i < |n.entries[k]| && n.entries[k][i] == e;
      assert kept[i] in kept && p == (kept[i].identity, kept[i].sequence);
    }
    FewerRestamps(r, n);
  }

  lemma DiscardRestamps(r: Root, key: Key, identity: nat)
    requires Good(r)
    ensures Restamps(r, Discard(r, key, identity))
  {
    FewerRestamps(r, Discard(r, key, identity));
  }

  lemma StoredRestamps(c: Cache, e: Event)
    requires Inv(c) && Enabled(c, e) && (e.Stored? || e.Promoted?)
    ensures Restamps(c.root, Apply(c, e).root)
  {
    var r := c.root;
    FewerRestamps(r, r);
    match e {
      case Stored(t, item, evicted) =>
        if Publishes(c, e) {
          InsertProgress(r, t, item);
          InsertRestamps(r, t, item);
          EvictRestamps(Insert(r, t, item), evicted);
          RestampsOn(r, Insert(r, t, item), evicted);
        } else {
          FewerRestamps(r, Abandon(r, t));
        }
      case Promoted(key, file, body, evicted) =>
        if MayPromote(r, key, file) {
          PromoteProgress(r, key, file, body);
          PromoteRestamps(r, key, file, body);
          EvictRestamps(Promote(r, key, file, body), evicted);
          RestampsOn(r, Promote(r, key, file, body), evicted);
        }
    }
  }

  lemma StepRestamps(c: Cache, e: Event)
    requires Inv(c) && Enabled(c, e)
    ensures Restamps(c.root, Apply(c, e).root)
  {
    var r := c.root;
    FewerRestamps(r, r);
    match e {
      case Looked(key, now, stale) => if ClaimKey(r, key, now).Some? { FewerRestamps(r, ClaimKey(r, key, now).value.0); }
      case Renewed(t, now) => FewerRestamps(r, Renew(r, t, now));
      case Abandoned(t) => FewerRestamps(r, Abandon(r, t));
      case Stored(_, _, _) => StoredRestamps(c, e);
      case Revalidated(t, previous, refreshed) => RevalidateRestamps(r, t, previous, refreshed);
      case Discarded(key, identity) => DiscardRestamps(r, key, identity);
      case Touched(touches) => TouchRestamps(r, touches);
      case Promoted(_, _, _, _) => StoredRestamps(c, e);
      case Trimmed(evicted) => EvictRestamps(r, evicted);
      case Invalidated(command, now) => InvalidateRestamps(r, command, now);
    }
  }

  /** If no two entries of a root tie in recency, no two ever do, so the order in which eviction takes
      them is determined. */
  lemma {:induction false} RecencyNeverTies(c: Cache, events: seq<Event>)
    requires Inv(c) && IsRun(c, events) && Total(c.root)
    ensures Total(Exec(c, events).root)
    decreases |events|
  {
    if events != [] {
      StepRestamps(c, events[0]);
      StepKeeps(c, events[0]);
      StampsBounded(c.root);
      RecencyNeverTies(Apply(c, events[0]), events[1..]);
    }
  }
}
