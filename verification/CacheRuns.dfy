/** What every run of the response cache keeps, for any interleaving of worker operations. */
module CacheRuns {
  import opened Wrappers
  import opened CacheRoot

  // ---------------------------------------------------------------------------
  // Well-formed roots
  // ---------------------------------------------------------------------------

  predicate EntryOk(r: Root, k: Key, e: Entry) {
    && e.website == k.website && e.policy == k.policy
    && 0 < e.identity <= r.sequence && e.sequence <= r.sequence
    && e.websiteEpoch == r.Epoch(Website(e.website)) && e.policyEpoch == r.Epoch(Policy(e.policy))
    && Sized(e)
  }

  predicate EntriesOk(r: Root) {
    forall k, e :: k in r.entries && e in r.entries[k] ==> EntryOk(r, k, e)
  }

  predicate Unique(entries: map<Key, seq<Entry>>) {
    && (forall k :: k in entries ==> DistinctIds(entries[k]))
    && (forall j, k :: j in entries && k in entries && j != k ==> IdSet(entries[j]) !! IdSet(entries[k]))
  }

  function Ids(r: Root): set<nat> { set k, e | k in r.entries && e in r.entries[k] :: e.identity }

  /** No new identity appears anywhere, and no list repeats one. */
  predicate Shrinks(a: map<Key, seq<Entry>>, b: map<Key, seq<Entry>>) {
    forall k :: k in b ==> k in a && DistinctIds(b[k]) && IdSet(b[k]) <= IdSet(a[k])
  }

  lemma ShrinksKeepsUnique(a: map<Key, seq<Entry>>, b: map<Key, seq<Entry>>)
    requires Unique(a) && Shrinks(a, b)
    ensures Unique(b)
  {
  }

  lemma ShrinksIds(r: Root, n: Root)
    requires Shrinks(r.entries, n.entries)
    ensures Ids(n) <= Ids(r)
  {
    forall id | id in Ids(n) ensures id in Ids(r) {
      var k, e :| k in n.entries && e in n.entries[k] && e.identity == id;
      assert id in IdSet(n.entries[k]);
      var x :| x in r.entries[k] && x.identity == id;
    }
  }

  lemma {:induction false} FilterDistinct(s: seq<Entry>, keep: Entry -> bool)
    requires DistinctIds(s)
    ensures DistinctIds(Filter(s, keep))
  {
    if s != [] {
      FilterDistinct(s[1..], keep);
      forall e | e in Filter(s[1..], keep) ensures e.identity != s[0].identity {
        assert e in s[1..];
        var j :| 0 <= j < |s[1..]| && s[1..][j] == e;
        assert s[j + 1] == e;
      }
    }
  }

  lemma {:induction false} ThinnedSources(a: seq<Entry>, b: seq<Entry>)
    requires Thinned(a, b)
    ensures forall e :: e in b ==> exists x :: x in a && (e == x || e == Demoted(x))
    decreases |a|
  {
    if a != [] {
      if Thinned(a[1..], b) {
        ThinnedSources(a[1..], b);
        assert forall x :: x in a[1..] ==> x in a;
      } else {
        ThinnedSources(a[1..], b[1..]);
        assert forall x :: x in a[1..] ==> x in a;
        forall e | e in b ensures exists x :: x in a && (e == x || e == Demoted(x)) {
          if e == b[0] { assert a[0] in a; } else { assert e in b[1..]; }
        }
      }
    }
  }

  lemma {:induction false} ThinnedDistinct(a: seq<Entry>, b: seq<Entry>)
    requires Thinned(a, b) && DistinctIds(a)
    ensures DistinctIds(b) && IdSet(b) <= IdSet(a)
    decreases |a|
  {
    ThinnedSources(a, b);
    forall id | id in IdSet(b) ensures id in IdSet(a) {
      var e :| e in b && e.identity == id;
      var x :| x in a && (e == x || e == Demoted(x));
      assert x.identity == id;
    }
    if a != [] {
      assert DistinctIds(a[1..]);
      if Thinned(a[1..], b) {
        ThinnedDistinct(a[1..], b);
      } else {
        ThinnedDistinct(a[1..], b[1..]);
        forall j | 0 < j < |b| ensures b[0].identity != b[j].identity {
          assert b[j] == b[1..][j - 1] && b[j].identity in IdSet(b[1..]);
          var x :| x in a[1..] && x.identity == b[j].identity;
          var i :| 0 <= i < |a[1..]| && a[1..][i] == x;
          assert a[i + 1] == x;
        }
      }
    }
  }

  // ---------------------------------------------------------------------------
  // Every operation on the root
  // ---------------------------------------------------------------------------

  predicate Good(r: Root) { EntriesOk(r) && Unique(r.entries) }

  /** What one operation may do: the sequence and the epochs only grow, an identity or claim that
      is not new was there before, and the root stays well formed. */
  ghost predicate Progress(r: Root, n: Root) {
    && Good(n)
    && r.sequence <= n.sequence
    && (forall id :: id in Ids(n) ==> id in Ids(r) || r.sequence < id)
    && (forall k: EpochKey :: r.Epoch(k) <= n.Epoch(k))
    && (forall k :: k in n.filling ==>
          (k in r.filling && n.filling[k].id == r.filling[k].id) || n.filling[k].id == n.sequence > r.sequence)
  }

  lemma EvictsProgress(r: Root, n: Root)
    requires Good(r) && Evicts(r, n)
    ensures Progress(r, n) && Shrinks(r.entries, n.entries)
  {
    forall k | k in n.entries ensures DistinctIds(n.entries[k]) && IdSet(n.entries[k]) <= IdSet(r.entries[k]) {
      ThinnedDistinct(r.entries[k], n.entries[k]);
    }
    ShrinksKeepsUnique(r.entries, n.entries);
    ShrinksIds(r, n);
    forall k, e | k in n.entries && e in n.entries[k] ensures EntryOk(n, k, e) {
      ThinnedSources(r.entries[k], n.entries[k]);
      var x :| x in r.entries[k] && (e == x || e == Demoted(x));
      assert EntryOk(r, k, x);
    }
  }

  lemma ClaimProgress(r: Root, key: Key, now: int)
    requires Good(r)
    ensures ClaimKey(r, key, now).Some? ==> Progress(r, ClaimKey(r, key, now).value.0)
  {
    if ClaimKey(r, key, now).Some? {
      var n := ClaimKey(r, key, now).value.0;
      assert forall k, e :: EntryOk(r, k, e) ==> EntryOk(n, k, e);
      assert Shrinks(r.entries, n.entries);
      ShrinksIds(r, n);
    }
  }

  /** Only the expiry of claims, or claims themselves, are taken away. */
  lemma FewerClaimsProgress(r: Root, n: Root)
    requires Good(r) && n == r.(filling := n.filling)
    requires forall k :: k in n.filling ==> k in r.filling && n.filling[k].id == r.filling[k].id
    ensures Progress(r, n)
  {
    assert Ids(n) == Ids(r);
    assert forall k, e :: EntryOk(r, k, e) ==> EntryOk(n, k, e);
  }

  lemma FillingProgress(r: Root, t: Ticket, now: int)
    requires Good(r)
    ensures Progress(r, Renew(r, t, now)) && Progress(r, Abandon(r, t))
  {
    FewerClaimsProgress(r, Renew(r, t, now));
    FewerClaimsProgress(r, Abandon(r, t));
  }

  lemma AppendNewest(s: seq<Entry>, keep: Entry -> bool, drop: nat, newest: Entry)
    requires DistinctIds(s) && newest.identity !in IdSet(s) && drop <= |Filter(s, keep)|
    ensures var list := Filter(s, keep)[drop..] + [newest];
            DistinctIds(list) && forall e :: e in list ==> e == newest || e in s
  {
    FilterDistinct(s, keep);
    var kept := Filter(s, keep)[drop..];
    forall e | e in kept ensures e in s && e.identity != newest.identity {
      assert e in Filter(s, keep);
      assert e.identity in IdSet(s);
    }
    var list := kept + [newest];
    forall i, j | 0 <= i < j < |list| ensures list[i].identity != list[j].identity {
      if j == |kept| { assert list[i] in kept; }
    }
  }

  /** A list that gained one newest entry keeps the whole root unique. */
  lemma UniqueAfterAppend(entries: map<Key, seq<Entry>>, key: Key, list: seq<Entry>, newest: Entry)
    requires Unique(entries) && DistinctIds(list)
    requires forall e :: e in list ==> e == newest || (key in entries && e in entries[key])
    requires forall k :: k in entries ==> newest.identity !in IdSet(entries[k])
    ensures Unique(entries[key := list])
  {
    forall k | k in entries && k != key ensures IdSet(entries[k]) !! IdSet(list) {
      forall e | e in list ensures e.identity !in IdSet(entries[k]) {
        if e != newest { assert e.identity in IdSet(entries[key]); }
      }
    }
  }

  /** Storing adds exactly one identity, newer than every earlier one. */
  lemma InsertProgress(r: Root, t: Ticket, item: Entry)
    requires Good(r) && EpochsCurrent(r, t) && Sized(item)
    ensures Progress(r, Insert(r, t, item))
  {
    var n := Insert(r, t, item);
    var list := n.entries[t.key];
    var newest := list[|list| - 1];
    var keep := (e: Entry) => e.vary != item.vary;
    var others := Filter(r.Variants(t.key), keep);
    forall k | k in r.entries ensures newest.identity !in IdSet(r.entries[k]) {
      forall e | e in r.entries[k] ensures e.identity != newest.identity { assert EntryOk(r, k, e); }
    }
    AppendNewest(r.Variants(t.key), keep, if |others| >= MAX_VARIANTS then 1 else 0, newest);
    assert list == others[if |others| >= MAX_VARIANTS then 1 else 0..] + [newest];
    UniqueAfterAppend(r.entries, t.key, list, newest);
    forall k, e | k in n.entries && e in n.entries[k] ensures EntryOk(n, k, e) {
      if e != newest { assert k in r.entries && e in r.entries[k]; assert EntryOk(r, k, e); }
    }
    forall x | x in Ids(n) ensures x in Ids(r) || r.sequence < x {
      var k, e :| k in n.entries && e in n.entries[k] && e.identity == x;
      assert e == newest || (k in r.entries && e in r.entries[k]);
    }
  }

  lemma DiscardProgress(r: Root, key: Key, identity: nat)
    requires Good(r)
    ensures Progress(r, Discard(r, key, identity)) && identity !in IdSet(Discard(r, key, identity).Variants(key))
  {
    var n := Discard(r, key, identity);
    if key in r.entries {
      FilterDistinct(r.entries[key], (e: Entry) => e.identity != identity);
    }
    assert Shrinks(r.entries, n.entries);
    ShrinksKeepsUnique(r.entries, n.entries);
    ShrinksIds(r, n);
    forall k, e | k in n.entries && e in n.entries[k] ensures EntryOk(n, k, e) { assert EntryOk(r, k, e); }
  }

  /** Replacing a list by one with the same identities in the same places. */
  lemma ReplaceProgress(r: Root, n: Root, key: Key)
    requires Good(r) && key in r.entries && key in n.entries
    requires n == r.(entries := r.entries[key := n.entries[key]], sequence := n.sequence, filling := n.filling)
    requires r.sequence <= n.sequence
    requires forall k :: k in n.filling ==> k in r.filling && n.filling[k] == r.filling[k]
    requires |n.entries[key]| == |r.entries[key]|
    requires forall i :: 0 <= i < |r.entries[key]| ==>
               n.entries[key][i].identity == r.entries[key][i].identity && EntryOk(n, key, n.entries[key][i])
    ensures Progress(r, n)
  {
    var a, b := r.entries[key], n.entries[key];
    forall id | id in IdSet(b) ensures id in IdSet(a) {
      var e :| e in b && e.identity == id;
      var i :| 0 <= i < |b| && b[i] == e;
      assert a[i] in a;
    }
    assert Shrinks(r.entries, n.entries);
    ShrinksKeepsUnique(r.entries, n.entries);
    ShrinksIds(r, n);
    forall k, e | k in n.entries && e in n.entries[k] ensures EntryOk(n, k, e) {
      if k != key { assert EntryOk(r, k, e); }
    }
  }

  /** Revalidation republishes an entry that is still there, given that the ticket and the stale
      entry came from one lookup. */
  lemma RevalidateProgress(r: Root, t: Ticket, previous: Entry, refreshed: Entry)
    requires Good(r) && Refreshes(previous, refreshed) && Sized(refreshed) && MayRevalidate(r, t, previous)
    requires previous.website == t.key.website && previous.policy == t.key.policy
    requires previous.websiteEpoch == t.websiteEpoch && previous.policyEpoch == t.policyEpoch
    ensures Progress(r, Revalidate(r, t, previous, refreshed))
  {
    var n := Revalidate(r, t, previous, refreshed);
    forall i | 0 <= i < |r.entries[t.key]| ensures EntryOk(n, t.key, n.entries[t.key][i]) {
      assert EntryOk(r, t.key, r.entries[t.key][i]);
    }
    ReplaceProgress(r, n, t.key);
  }

  lemma {:induction false} TouchProgress(r: Root, touches: seq<(Key, set<nat>)>)
    requires Good(r)
    ensures Progress(r, Touch(r, touches)) && Ids(Touch(r, touches)) <= Ids(r) && Touch(r, touches).filling == r.filling
    decreases |touches|
  {
    if touches != [] {
      var (key, ids) := touches[0];
      if key !in r.entries {
        TouchProgress(r, touches[1..]);
      } else {
        var (list, sequence) := TouchList(r.entries[key], ids, r.sequence);
        var m := r.(entries := r.entries[key := list], sequence := sequence);
        forall i | 0 <= i < |list| ensures EntryOk(m, key, m.entries[key][i]) && list[i].identity == r.entries[key][i].identity {
          assert EntryOk(r, key, r.entries[key][i]);
        }
        ReplaceProgress(r, m, key);
        forall id | id in IdSet(list) ensures id in IdSet(r.entries[key]) {
          var i :| 0 <= i < |list| && list[i].identity == id;
          assert r.entries[key][i] in r.entries[key];
        }
        assert Shrinks(r.entries, m.entries);
        ShrinksIds(r, m);
        TouchProgress(m, touches[1..]);
      }
    }
  }

  lemma PromoteProgress(r: Root, key: Key, file: string, body: string)
    requires Good(r)
    ensures Progress(r, Promote(r, key, file, body))
  {
    if MayPromote(r, key, file) {
      var n := Promote(r, key, file, body);
      forall i | 0 <= i < |r.entries[key]| ensures EntryOk(n, key, n.entries[key][i]) {
        assert EntryOk(r, key, r.entries[key][i]);
      }
      ReplaceProgress(r, n, key);
    }
  }

  lemma {:induction false} BumpAllGrows(epochs: map<EpochKey, nat>, websites: seq<string>)
    ensures forall k :: k in epochs ==> k in BumpAll(epochs, websites) && epochs[k] <= BumpAll(epochs, websites)[k]
    ensures forall w :: w in websites ==>
              && Website(w) in BumpAll(epochs, websites)
              && (if Website(w) in epochs then epochs[Website(w)] else 0) < BumpAll(epochs, websites)[Website(w)]
    decreases |websites|
  {
    if websites != [] {
      var k := Website(websites[0]);
      BumpAllGrows(epochs[k := (if k in epochs then epochs[k] else 0) + 1], websites[1..]);
    }
  }

  lemma BumpGrows(r: Root, c: Command)
    ensures forall k: EpochKey :: r.Epoch(k) <= r.(epochs := Bump(r.epochs, c)).Epoch(k)
    ensures c.clean ==> r.Epoch(Policy(c.policy)) < r.(epochs := Bump(r.epochs, c)).Epoch(Policy(c.policy))
    ensures !c.clean ==> forall w :: w in c.websites ==> r.Epoch(Website(w)) < r.(epochs := Bump(r.epochs, c)).Epoch(Website(w))
  {
    BumpAllGrows(r.epochs, c.websites);
  }

  /** One list after invalidation: a filtered list whose entries carry the new epochs. */
  lemma InvalidateList(r: Root, c: Command, now: int, k: Key)
    requires Good(r) && k in r.entries
    ensures var bumped := r.(epochs := Bump(r.epochs, c));
            var list := Retain(Filter(r.entries[k], (e: Entry) => !Invalidates(c, e, now)), bumped);
            DistinctIds(list) && IdSet(list) <= IdSet(r.entries[k]) && forall e :: e in list ==> EntryOk(bumped, k, e)
  {
    var bumped := r.(epochs := Bump(r.epochs, c));
    var keep := (e: Entry) => !Invalidates(c, e, now);
    var kept := Filter(r.entries[k], keep);
    FilterDistinct(r.entries[k], keep);
    var list := Retain(kept, bumped);
    forall e | e in list ensures e.identity in IdSet(r.entries[k]) && EntryOk(bumped, k, e) {
      var i :| 0 <= i < |list| && list[i] == e;
      assert kept[i] in kept && kept[i] in r.entries[k];
      assert EntryOk(r, k, kept[i]);
    }
  }

  /** Invalidation raises the epoch of everything it covers and carries the rest across. */
  lemma InvalidateProgress(r: Root, c: Command, now: int)
    requires Good(r)
    ensures Progress(r, Invalidate(r, c, now))
  {
    var n := Invalidate(r, c, now);
    var bumped := r.(epochs := Bump(r.epochs, c));
    BumpGrows(r, c);
    forall k | k in n.entries
      ensures DistinctIds(n.entries[k]) && IdSet(n.entries[k]) <= IdSet(r.entries[k])
      ensures forall e :: e in n.entries[k] ==> EntryOk(n, k, e)
    {
      InvalidateList(r, c, now, k);
      assert forall e :: EntryOk(bumped, k, e) ==> EntryOk(n, k, e);
    }
    ShrinksKeepsUnique(r.entries, n.entries);
    ShrinksIds(r, n);
  }

  // ---------------------------------------------------------------------------
  // The invariant of a run
  // ---------------------------------------------------------------------------

  predicate TicketOk(r: Root, p: (Ticket, Option<Entry>)) {
    var (t, stale) := p;
    && 0 < t.claim <= r.sequence
    && t.websiteEpoch <= r.Epoch(Website(t.key.website)) && t.policyEpoch <= r.Epoch(Policy(t.key.policy))
    && (stale.Some? ==>
          && stale.value.website == t.key.website && stale.value.policy == t.key.policy
          && stale.value.websiteEpoch == t.websiteEpoch && stale.value.policyEpoch == t.policyEpoch)
  }

  predicate ClaimsOk(c: Cache) {
    && (forall k :: k in c.root.filling ==> c.root.filling[k].id <= c.root.sequence && c.root.filling[k].id !in c.published)
    && (forall k :: k in c.root.filling ==> c.root.filling[k].website == k.website && c.root.filling[k].policy == k.policy)
    && (forall j, k :: j in c.root.filling && k in c.root.filling && c.root.filling[j].id == c.root.filling[k].id ==> j == k)
    && (forall p :: p in c.tickets ==> TicketOk(c.root, p))
    && (forall p, q :: p in c.tickets && q in c.tickets && p.0.claim == q.0.claim ==> p == q)
    && (forall i :: 0 <= i < |c.published| ==> c.published[i] <= c.root.sequence)
    && (forall i, j :: 0 <= i < j < |c.published| ==> c.published[i] != c.published[j])
  }

  predicate Inv(c: Cache) { Good(c.root) && ClaimsOk(c) }

  /** A restored root starts a process: well formed, with no claim, ticket or publication yet. */
  predicate Start(c: Cache) { Good(c.root) && c.root.filling == map[] && c.tickets == {} && c.published == [] }

  lemma StepProgress(c: Cache, e: Event)
    requires Inv(c) && Enabled(c, e)
    ensures Progress(c.root, Apply(c, e).root)
  {
    var r := c.root;
    match e {
      case Looked(key, now, stale) => ClaimProgress(r, key, now);
      case Renewed(t, now) => FillingProgress(r, t, now);
      case Abandoned(t) => FillingProgress(r, t, 0);
      case Stored(t, item, evicted) =>
        FillingProgress(r, t, 0);
        if Publishes(c, e) {
          InsertProgress(r, t, item);
          EvictsProgress(Insert(r, t, item), evicted);
        }
      case Revalidated(t, previous, refreshed) =>
        assert TicketOk(r, (t, Some(previous)));
        if Publishes(c, e) { RevalidateProgress(r, t, previous, refreshed); }
      case Discarded(key, identity) => DiscardProgress(r, key, identity);
      case Touched(touches) => TouchProgress(r, touches);
      case Promoted(key, file, body, evicted) =>
        PromoteProgress(r, key, file, body);
        if MayPromote(r, key, file) { EvictsProgress(Promote(r, key, file, body), evicted); }
      case Trimmed(evicted) => EvictsProgress(r, evicted);
      case Invalidated(command, now) => InvalidateProgress(r, command, now);
    }
  }

  /** The claim map after an event that issues no ticket is the old one without some keys, up to expiry times. */
  predicate ClaimsKept(r: Root, n: Root) {
    forall k :: k in n.filling ==>
      k in r.filling && n.filling[k] == r.filling[k].(expiresAt := n.filling[k].expiresAt)
  }

  lemma StepClaims(c: Cache, e: Event)
    requires Inv(c) && Enabled(c, e) && !e.Looked?
    ensures ClaimsKept(c.root, Apply(c, e).root) && Apply(c, e).tickets == c.tickets
    ensures Publishes(c, e) ==> HoldsClaim(c.root, e.ticket) && e.ticket.key !in Apply(c, e).root.filling
                                && Apply(c, e).published == c.published + [e.ticket.claim]
    ensures !Publishes(c, e) ==> Apply(c, e).published == c.published
  {
    if e.Touched? { TouchProgress(c.root, e.touches); }
  }

  /** What taking a claim does to a root: one new claim, numbered above all others, and its ticket. */
  predicate Issues(r: Root, n: Root, t: Ticket) {
    && n.entries == r.entries && n.epochs == r.epochs && n.sequence == r.sequence + 1 == t.claim
    && t.websiteEpoch == r.Epoch(Website(t.key.website)) && t.policyEpoch == r.Epoch(Policy(t.key.policy))
    && t.key in n.filling && n.filling[t.key].id == t.claim
    && n.filling[t.key].website == t.key.website && n.filling[t.key].policy == t.key.policy
    && (forall k :: k in n.filling && k != t.key ==> k in r.filling && n.filling[k] == r.filling[k])
  }

  lemma ClaimIssues(r: Root, key: Key, now: int)
    ensures var o := ClaimKey(r, key, now); o.Some? ==> Issues(r, o.value.0, o.value.1) && o.value.1.key == key
  {
  }

  lemma IssueKeepsTickets(c: Cache, n: Root, t: Ticket, stale: Option<Entry>, p: (Ticket, Option<Entry>))
    requires Inv(c) && Issues(c.root, n, t) && (stale.Some? ==> stale.value in c.root.Variants(t.key))
    requires p in c.tickets || p == (t, stale)
    ensures TicketOk(n, p) && (p in c.tickets ==> p.0.claim < t.claim)
  {
    if p in c.tickets { assert TicketOk(c.root, p); } else if stale.Some? { assert EntryOk(c.root, t.key, stale.value); }
  }

  lemma IssueKeeps(c: Cache, n: Root, t: Ticket, stale: Option<Entry>)
    requires Inv(c) && Issues(c.root, n, t) && (stale.Some? ==> stale.value in c.root.Variants(t.key))
    ensures ClaimsOk(Cache(n, c.tickets + {(t, stale)}, c.published))
  {
    var tickets := c.tickets + {(t, stale)};
    forall p | p in tickets ensures TicketOk(n, p) && (p in c.tickets ==> p.0.claim < t.claim) {
      IssueKeepsTickets(c, n, t, stale, p);
    }
  }

  lemma TicketsStayOk(c: Cache, n: Cache)
    requires ClaimsOk(c) && Progress(c.root, n.root) && n.tickets == c.tickets
    ensures forall p :: p in n.tickets ==> TicketOk(n.root, p)
  {
    forall p | p in c.tickets ensures TicketOk(n.root, p) { assert TicketOk(c.root, p); }
  }

  lemma OtherKeeps(c: Cache, e: Event)
    requires Inv(c) && Enabled(c, e) && !e.Looked?
    ensures ClaimsOk(Apply(c, e))
  {
    var n := Apply(c, e);
    StepProgress(c, e);
    StepClaims(c, e);
    TicketsStayOk(c, n);
    forall k | k in n.root.filling ensures n.root.filling[k].id !in n.published {
      assert Publishes(c, e) ==> c.root.filling[k].id != c.root.filling[e.ticket.key].id;
    }
  }

  lemma StepKeeps(c: Cache, e: Event)
    requires Inv(c) && Enabled(c, e)
    ensures Inv(Apply(c, e))
  {
    StepProgress(c, e);
    if !e.Looked? {
      OtherKeeps(c, e);
    } else if ClaimKey(c.root, e.key, e.now).Some? {
      var claimed := ClaimKey(c.root, e.key, e.now).value;
      ClaimIssues(c.root, e.key, e.now);
      IssueKeeps(c, claimed.0, claimed.1, e.stale);
    }
  }

  lemma {:induction false} RunKeeps(c: Cache, events: seq<Event>)
    requires Inv(c) && IsRun(c, events)
    ensures Inv(Exec(c, events))
    decreases |events|
  {
    if events != [] {
      StepKeeps(c, events[0]);
      RunKeeps(Apply(c, events[0]), events[1..]);
    }
  }

  // ---------------------------------------------------------------------------
  // Main results: for every run from a restored root
  // ---------------------------------------------------------------------------

  /** Claim identifiers are never reissued, and no ticket publishes twice. */
  lemma ClaimsPublishAtMostOnce(c: Cache, events: seq<Event>)
    requires Start(c) && IsRun(c, events)
    ensures var n := Exec(c, events);
            && (forall p, q :: p in n.tickets && q in n.tickets && p.0.claim == q.0.claim ==> p == q)
            && (forall i, j :: 0 <= i < j < |n.published| ==> n.published[i] != n.published[j])
  {
    RunKeeps(c, events);
  }

  /** Every entry of every published root carries the root's current epochs, and identities are
      unique and bounded by the root's sequence. */
  lemma EntriesAreCurrent(c: Cache, events: seq<Event>)
    requires Start(c) && IsRun(c, events)
    ensures EntriesOk(Exec(c, events).root) && Unique(Exec(c, events).root.entries)
  {
    RunKeeps(c, events);
  }

  /** Whatever root an operation of a run hands to eviction, its identities are unique and its entries
      are sized, which is all that CacheEviction.Evict asks for: the published root, a stored entry
      under a claim and epochs that still stand, and a promotion. */
  lemma EvictionApplies(c: Cache, events: seq<Event>, t: Ticket, item: Entry, key: Key, file: string, body: string)
    requires Start(c) && IsRun(c, events) && Sized(item)
    ensures var r := Exec(c, events).root;
            && Unique(r.entries) && AllSized(r.entries)
            && (MayPublish(r, t) ==> Unique(Insert(r, t, item).entries) && AllSized(Insert(r, t, item).entries))
            && Unique(Promote(r, key, file, body).entries) && AllSized(Promote(r, key, file, body).entries)
  {
    RunKeeps(c, events);
    var r := Exec(c, events).root;
    if MayPublish(r, t) { InsertProgress(r, t, item); }
    PromoteProgress(r, key, file, body);
    forall n: Root | Good(n) ensures AllSized(n.entries) {
      forall k, e | k in n.entries && e in n.entries[k] ensures Sized(e) { assert EntryOk(n, k, e); }
    }
  }

  /** No resurrection: an identity that was handed out and is not in the root never returns. */
  lemma {:induction false} NoResurrection(c: Cache, events: seq<Event>, identity: nat)
    requires Inv(c) && IsRun(c, events)
    requires identity <= c.root.sequence && identity !in Ids(c.root)
    ensures identity !in Ids(Exec(c, events).root)
    decreases |events|
  {
    if events != [] {
      StepKeeps(c, events[0]);
      StepProgress(c, events[0]);
      NoResurrection(Apply(c, events[0]), events[1..], identity);
    }
  }

  predicate Claimed(r: Root, id: nat) { exists k :: k in r.filling && r.filling[k].id == id }

  /** A claim that has left the root, by use, expiry, replacement or invalidation, never returns:
      its ticket can from then on neither publish, renew nor release anything. */
  lemma {:induction false} LostClaimsStayLost(c: Cache, events: seq<Event>, t: Ticket)
    requires Inv(c) && IsRun(c, events)
    requires t.claim <= c.root.sequence && !Claimed(c.root, t.claim)
    ensures var r := Exec(c, events).root;
            && !Claimed(r, t.claim) && !MayPublish(r, t)
            && Abandon(r, t) == r && (forall now :: Renew(r, t, now) == r)
    decreases |events|
  {
    if events != [] {
      StepKeeps(c, events[0]);
      StepProgress(c, events[0]);
      var n := Apply(c, events[0]);
      LostClaimsStayLost(n, events[1..], t);
    }
  }

  lemma {:induction false} EpochsGrow(c: Cache, events: seq<Event>, k: EpochKey)
    requires Inv(c) && IsRun(c, events)
    ensures c.root.Epoch(k) <= Exec(c, events).root.Epoch(k)
    decreases |events|
  {
    if events != [] {
      StepKeeps(c, events[0]);
      StepProgress(c, events[0]);
      EpochsGrow(Apply(c, events[0]), events[1..], k);
    }
  }

  /** The epoch fence: a ticket issued before an invalidation that covers its website (refresh)
      or its policy (clean) can never publish afterwards. */
  lemma InvalidationFencesTickets(c: Cache, command: Command, now: int, events: seq<Event>, p: (Ticket, Option<Entry>))
    requires Inv(c) && p in c.tickets
    requires if command.clean then p.0.key.policy == command.policy else p.0.key.website in command.websites
    requires IsRun(Apply(c, Invalidated(command, now)), events)
    ensures !MayPublish(Exec(Apply(c, Invalidated(command, now)), events).root, p.0)
  {
    var t := p.0;
    var n := Apply(c, Invalidated(command, now));
    StepKeeps(c, Invalidated(command, now));
    BumpGrows(c.root, command);
    assert TicketOk(c.root, p);
    var k := if command.clean then Policy(t.key.policy) else Website(t.key.website);
    assert c.root.Epoch(k) < n.root.Epoch(k);
    EpochsGrow(n, events, k);
  }

  /** Publishing consumes the claim, so by LostClaimsStayLost its ticket is spent; and only the
      holder of the claim, under unchanged epochs, publishes. */
  lemma PublishConsumesClaim(c: Cache, e: Event)
    requires Inv(c) && Enabled(c, e) && Publishes(c, e)
    ensures MayPublish(c.root, e.ticket) && !Claimed(Apply(c, e).root, e.ticket.claim)
  {
    StepClaims(c, e);
  }

  /** An invalidation removes exactly the covered entries that its scope matches. */
  lemma InvalidationRemovesExactly(c: Cache, command: Command, now: int, k: Key, e: Entry)
    requires Inv(c) && k in c.root.entries && e in c.root.entries[k]
    ensures e.identity in IdSet(Apply(c, Invalidated(command, now)).root.Variants(k)) <==> !Invalidates(command, e, now)
  {
    var keep := (x: Entry) => !Invalidates(command, x, now);
    var kept := Filter(c.root.entries[k], keep);
    var n := Apply(c, Invalidated(command, now)).root;
    var list := Retain(kept, c.root.(epochs := Bump(c.root.epochs, command)));
    assert n.Variants(k) == if kept != [] then list else [];
    if keep(e) {
      assert e in kept;
      var i :| 0 <= i < |kept| && kept[i] == e;
      assert list[i] in list && list[i].identity == e.identity;
    } else {
      assert DistinctIds(c.root.entries[k]);
      forall i | 0 <= i < |list| ensures list[i].identity != e.identity {
        assert kept[i] in kept && keep(kept[i]);
      }
    }
  }

  // ---------------------------------------------------------------------------
  // Filling claims: when one is granted and how long it holds
  // ---------------------------------------------------------------------------

  /** Keys whose fill is still running at `now`. */
  function Filling(r: Root, now: int): set<Key> { set k | k in r.filling && r.filling[k].expiresAt > now }

  /** A lookup is handed a claim exactly when no fill of its key is running and fewer than 4096
      claims remain, once expired ones are dropped if there are that many. The claim is new, lasts 30
      seconds and records the key's own website and policy; its ticket carries the epochs of the root;
      every other fill that is running stays as it is. */
  lemma ClaimGrantedExactly(r: Root, key: Key, now: int)
    ensures var o := ClaimKey(r, key, now);
            && (o.Some? <==> key !in Filling(r, now) && (|r.filling| < 4096 || |Filling(r, now)| < 4096))
            && (o.Some? ==>
                  var (n, t) := o.value;
                  && n.entries == r.entries && n.epochs == r.epochs && n.sequence == t.claim == r.sequence + 1 && t.key == key
                  && t.websiteEpoch == r.Epoch(Website(key.website)) && t.policyEpoch == r.Epoch(Policy(key.policy))
                  && key in n.filling && n.filling[key] == Claim(t.claim, now + 30, key.website, key.policy)
                  && (forall k :: k != key ==>
                        (k in n.filling <==> k in Filling(r, now) || (k in r.filling && |r.filling| < 4096))
                        && (k in n.filling ==> n.filling[k] == r.filling[k])))
  {
    assert Unexpired(r.filling, now).Keys == Filling(r, now);
    assert |Unexpired(r.filling, now)| == |Filling(r, now)|;
  }

  /** An event that leaves the claim `id` of a key running until `until`: no lookup happens later than
      that, its own ticket is neither used nor released and renewed only for at least as long, and no
      invalidation covers the key. */
  predicate Spares(e: Event, key: Key, id: nat, until: int) {
    match e
    case Looked(_, now, _) => now < until
    case Renewed(t, now) => t.claim == id ==> until <= now + 30
    case Abandoned(t) => t.claim != id
    case Stored(t, _, _) => t.claim != id
    case Revalidated(t, _, _) => t.claim != id
    case Invalidated(command, _) => !(key.policy == command.policy && (command.clean || key.website in command.websites))
    case _ => true
  }

  predicate Runs(r: Root, key: Key, id: nat, until: int) {
    key in r.filling && r.filling[key].id == id && until <= r.filling[key].expiresAt
  }

  /** What eviction leaves of the claims is all of them. */
  lemma StoringKeepsClaim(c: Cache, e: Event, key: Key, id: nat, until: int)
    requires Inv(c) && Enabled(c, e) && Runs(c.root, key, id, until) && Spares(e, key, id, until) && (e.Stored? || e.Promoted? || e.Trimmed?)
    ensures Runs(Apply(c, e).root, key, id, until)
  {
  }

  lemma StepKeepsClaim(c: Cache, e: Event, key: Key, id: nat, until: int)
    requires Inv(c) && Enabled(c, e) && Runs(c.root, key, id, until) && Spares(e, key, id, until)
    ensures Runs(Apply(c, e).root, key, id, until)
  {
    match e {
      case Looked(k, now, _) => ClaimGrantedExactly(c.root, k, now);
      case Touched(touches) => TouchProgress(c.root, touches);
      case Stored(_, _, _) => StoringKeepsClaim(c, e, key, id, until);
      case Promoted(_, _, _, _) => StoringKeepsClaim(c, e, key, id, until);
      case Trimmed(_) => StoringKeepsClaim(c, e, key, id, until);
      case _ =>
    }
  }

  /** Until a claim expires only its own ticket or a covering invalidation takes it from its key. */
  lemma {:induction false} ClaimsHold(c: Cache, events: seq<Event>, key: Key, id: nat, until: int)
    requires Inv(c) && IsRun(c, events) && Runs(c.root, key, id, until)
    requires forall e :: e in events ==> Spares(e, key, id, until)
    ensures Runs(Exec(c, events).root, key, id, until)
    decreases |events|
  {
    if events != [] {
      assert events[0] in events;
      StepKeepsClaim(c, events[0], key, id, until);
      StepKeeps(c, events[0]);
      ClaimsHold(Apply(c, events[0]), events[1..], key, id, until);
    }
  }

  /** One fill at a time: after a lookup was handed a claim, every lookup of the key in the next 30
      seconds is refused one and none replaces it, unless the ticket is used or released or the key is
      invalidated; and the ticket can still publish. */
  lemma OneFillAtATime(c: Cache, key: Key, now: int, stale: Option<Entry>, events: seq<Event>, later: int)
    requires Inv(c) && Enabled(c, Looked(key, now, stale)) && ClaimKey(c.root, key, now).Some?
    requires IsRun(Apply(c, Looked(key, now, stale)), events) && later < now + 30
    requires forall e :: e in events ==> Spares(e, key, c.root.sequence + 1, now + 30)
    ensures var r := Exec(Apply(c, Looked(key, now, stale)), events).root;
            ClaimKey(r, key, later).None? && HoldsClaim(r, ClaimKey(c.root, key, now).value.1)
  {
    ClaimGrantedExactly(c.root, key, now);
    StepKeeps(c, Looked(key, now, stale));
    ClaimsHold(Apply(c, Looked(key, now, stale)), events, key, c.root.sequence + 1, now + 30);
    ClaimGrantedExactly(Exec(Apply(c, Looked(key, now, stale)), events).root, key, later);
  }

  /** A claim that ran out blocks nobody: the next lookup of the key is handed a new one. */
  lemma ExpiredClaimsAreReplaced(r: Root, key: Key, now: int)
    requires key in r.filling ==> r.filling[key].expiresAt <= now
    requires |Filling(r, now)| < 4096
    ensures ClaimKey(r, key, now).Some?
  {
    ClaimGrantedExactly(r, key, now);
  }
}
