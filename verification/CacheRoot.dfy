/** The shared response-cache root and its operations (node/data/response_cache.h). */
module CacheRoot {
  // The root holds entries, invalidation epochs, fill claims and one sequence counter. Workers copy
  // the published snapshot, change the copy and publish it by compare-and-swap, so each operation
  // is one atomic step on the root.

  import opened Wrappers

  const CLAIM_SECONDS := 30
  const MAX_CLAIMS := 4096
  const MAX_VARIANTS := 16

  /** Key parts are length-prefixed and the encoding is injective (module CacheKey), so a key
      determines its website and policy; `rest` stands for the remaining parts. */
  datatype Key = Key(website: string, policy: string, rest: string)

  datatype EpochKey = Website(id: string) | Policy(id: string)

  datatype Entry = Entry(
    website: string, policy: string, origin: string, target: string, vary: seq<(string, string)>,
    body: Option<string>, file: Option<string>, bodyBytes: nat, bytes: nat,
    sequence: nat, identity: nat, websiteEpoch: nat, policyEpoch: nat,
    expiresAt: int, retainUntil: int, ignoreQuery: bool)

  /** Stored bytes count the body, the headers and a constant, so no cost of an entry is negative. */
  predicate Sized(e: Entry) { e.bodyBytes <= e.bytes }

  predicate AllSized(entries: map<Key, seq<Entry>>) {
    forall k, e :: k in entries && e in entries[k] ==> Sized(e)
  }

  datatype Claim = Claim(id: nat, expiresAt: int, website: string, policy: string)

  datatype Root = Root(
    entries: map<Key, seq<Entry>>, epochs: map<EpochKey, nat>, filling: map<Key, Claim>, sequence: nat)
  {
    function Epoch(k: EpochKey): nat { if k in epochs then epochs[k] else 0 }

    function Variants(k: Key): seq<Entry> { if k in entries then entries[k] else [] }
  }

  datatype Ticket = Ticket(key: Key, claim: nat, websiteEpoch: nat, policyEpoch: nat)

  datatype Scope = Everything | ExpiredOnly | Urls(urls: seq<(string, string, string)>, prefix: bool)

  /** A "clean" command covers its policy; a refresh covers the listed websites under that policy. */
  datatype Command = Command(clean: bool, policy: string, websites: seq<string>, scope: Scope)

  // ---------------------------------------------------------------------------
  // Lists of variants
  // ---------------------------------------------------------------------------

  function Filter(s: seq<Entry>, keep: Entry -> bool): (r: seq<Entry>)
    ensures forall e :: e in r ==> e in s && keep(e)
    ensures forall e :: e in s && keep(e) ==> e in r
  {
    if s == [] then [] else if keep(s[0]) then [s[0]] + Filter(s[1..], keep) else Filter(s[1..], keep)
  }

  function IdSet(s: seq<Entry>): set<nat> { set e | e in s :: e.identity }

  predicate DistinctIds(s: seq<Entry>) {
    forall i, j :: 0 <= i < j < |s| ==> s[i].identity != s[j].identity
  }

  function IndexOf(s: seq<Entry>, identity: nat): (i: nat)
    ensures i <= |s|
    ensures i < |s| ==> s[i].identity == identity
    ensures forall j :: 0 <= j < i ==> s[j].identity != identity
  {
    if s == [] then 0 else if s[0].identity == identity then 0 else 1 + IndexOf(s[1..], identity)
  }

  function IndexOfFile(s: seq<Entry>, file: string): (i: nat)
    ensures i <= |s|
    ensures i < |s| ==> s[i].file == Some(file)
    ensures forall j :: 0 <= j < i ==> s[j].file != Some(file)
  {
    if s == [] then 0 else if s[0].file == Some(file) then 0 else 1 + IndexOfFile(s[1..], file)
  }

  function Demoted(e: Entry): Entry { e.(body := None) }

  /** `b` is `a` with some entries removed and some entries that own a file demoted to disk. */
  predicate Thinned(a: seq<Entry>, b: seq<Entry>)
    decreases |a|
  {
    if a == [] then b == []
    else
      || Thinned(a[1..], b)
      || (b != [] && (b[0] == a[0] || (b[0] == Demoted(a[0]) && a[0].file.Some?)) && Thinned(a[1..], b[1..]))
  }

  // ---------------------------------------------------------------------------
  // Operations on the root
  // ---------------------------------------------------------------------------

  function Unexpired(filling: map<Key, Claim>, now: int): (r: map<Key, Claim>) {
    map k | k in filling && filling[k].expiresAt > now :: filling[k]
  }

  /** lookup: the claim taken on a miss, or nothing when another fill is live or there are too many. */
  function ClaimKey(r: Root, key: Key, now: int): (o: Option<(Root, Ticket)>) {
    if key in r.filling && r.filling[key].expiresAt > now then None
    else
      var filling := if |r.filling| >= MAX_CLAIMS then Unexpired(r.filling, now) else r.filling;
      if |filling| >= MAX_CLAIMS then None
      else
        var id := r.sequence + 1;
        var claim := Claim(id, now + CLAIM_SECONDS, key.website, key.policy);
        Some((r.(filling := filling[key := claim], sequence := id),
              Ticket(key, id, r.Epoch(Website(key.website)), r.Epoch(Policy(key.policy)))))
  }

  predicate HoldsClaim(r: Root, t: Ticket) { t.key in r.filling && r.filling[t.key].id == t.claim }

  predicate EpochsCurrent(r: Root, t: Ticket) {
    r.Epoch(Website(t.key.website)) == t.websiteEpoch && r.Epoch(Policy(t.key.policy)) == t.policyEpoch
  }

  predicate MayPublish(r: Root, t: Ticket) { HoldsClaim(r, t) && EpochsCurrent(r, t) }

  function Renew(r: Root, t: Ticket, now: int): (n: Root) {
    if MayPublish(r, t) then r.(filling := r.filling[t.key := r.filling[t.key].(expiresAt := now + CLAIM_SECONDS)]) else r
  }

  function Abandon(r: Root, t: Ticket): (n: Root) {
    if HoldsClaim(r, t) then r.(filling := r.filling - {t.key}) else r
  }

  /** store, up to eviction: the claim is consumed and the entry replaces the variant it matches. */
  function Insert(r: Root, t: Ticket, item: Entry): (n: Root) {
    var others := Filter(r.Variants(t.key), (e: Entry) => e.vary != item.vary);
    var room := if |others| >= MAX_VARIANTS then others[1..] else others;
    var id := r.sequence + 1;
    var stored := item.(website := t.key.website, policy := t.key.policy, websiteEpoch := t.websiteEpoch,
                       policyEpoch := t.policyEpoch, sequence := id, identity := id);
    Root(r.entries[t.key := room + [stored]], r.epochs, r.filling - {t.key}, id)
  }

  /** What evict may do to a root, for whatever policy and limits: see module CacheEviction. */
  ghost predicate Evicts(r: Root, n: Root) {
    && n.epochs == r.epochs && n.filling == r.filling && n.sequence == r.sequence
    && forall k :: k in n.entries ==> k in r.entries && Thinned(r.entries[k], n.entries[k])
  }

  function Discard(r: Root, key: Key, identity: nat): (n: Root) {
    if key !in r.entries then r
    else
      var left := Filter(r.entries[key], (e: Entry) => e.identity != identity);
      r.(entries := if left == [] then r.entries - {key} else r.entries[key := left])
  }

  /** The same stored object with new metadata: revalidation rewrites headers, times and Vary. */
  predicate Refreshes(previous: Entry, e: Entry) {
    e == previous.(vary := e.vary, bytes := e.bytes, expiresAt := e.expiresAt, retainUntil := e.retainUntil,
                   ignoreQuery := e.ignoreQuery)
  }

  predicate MayRevalidate(r: Root, t: Ticket, previous: Entry) {
    MayPublish(r, t) && t.key in r.entries && IndexOf(r.entries[t.key], previous.identity) < |r.entries[t.key]|
  }

  function Revalidate(r: Root, t: Ticket, previous: Entry, refreshed: Entry): (n: Root) {
    if !MayRevalidate(r, t, previous) then r
    else
      var i := IndexOf(r.entries[t.key], previous.identity);
      var id := r.sequence + 1;
      Root(r.entries[t.key := r.entries[t.key][i := refreshed.(sequence := id)]], r.epochs, r.filling - {t.key}, id)
  }

  function TouchList(s: seq<Entry>, ids: set<nat>, sequence: nat): (r: (seq<Entry>, nat))
    ensures |r.0| == |s| && sequence <= r.1
    ensures forall i :: 0 <= i < |s| ==> r.0[i] == s[i] || (sequence < r.0[i].sequence <= r.1 && r.0[i] == s[i].(sequence := r.0[i].sequence))
  {
    if s == [] then ([], sequence)
    else
      var next := if s[0].identity in ids then sequence + 1 else sequence;
      var first := if s[0].identity in ids then s[0].(sequence := next) else s[0];
      var rest := TouchList(s[1..], ids, next);
      assert forall i :: 0 < i < |s| ==> s[i] == s[1..][i - 1] && ([first] + rest.0)[i] == rest.0[i - 1];
      ([first] + rest.0, rest.1)
  }

  /** flush_touches: a hit only renews recency, and only of entries still in the root. */
  function Touch(r: Root, touches: seq<(Key, set<nat>)>): (n: Root)
    decreases |touches|
  {
    if touches == [] then r
    else
      var (key, ids) := touches[0];
      if key !in r.entries then Touch(r, touches[1..])
      else
        var (list, sequence) := TouchList(r.entries[key], ids, r.sequence);
        Touch(r.(entries := r.entries[key := list], sequence := sequence), touches[1..])
  }

  predicate MayPromote(r: Root, key: Key, file: string) {
    key in r.entries && IndexOfFile(r.entries[key], file) < |r.entries[key]|
    && r.entries[key][IndexOfFile(r.entries[key], file)].body.None?
  }

  /** promote, up to eviction: gives the entry that owns `file` a memory copy. */
  function Promote(r: Root, key: Key, file: string, body: string): (n: Root) {
    if !MayPromote(r, key, file) then r
    else
      var i := IndexOfFile(r.entries[key], file);
      var id := r.sequence + 1;
      r.(entries := r.entries[key := r.entries[key][i := r.entries[key][i].(body := Some(body), sequence := id)]], sequence := id)
  }

  function BumpAll(epochs: map<EpochKey, nat>, websites: seq<string>): (r: map<EpochKey, nat>)
    decreases |websites|
  {
    if websites == [] then epochs
    else
      var k := Website(websites[0]);
      BumpAll(epochs[k := (if k in epochs then epochs[k] else 0) + 1], websites[1..])
  }

  function Bump(epochs: map<EpochKey, nat>, c: Command): (r: map<EpochKey, nat>) {
    if c.clean then
      var k := Policy(c.policy);
      epochs[k := (if k in epochs then epochs[k] else 0) + 1]
    else BumpAll(epochs, c.websites)
  }

  predicate Covers(c: Command, website: string, policy: string) {
    policy == c.policy && (c.clean || website in c.websites)
  }

  function PathOnly(target: string): string {
    if target == [] || target[0] == '?' then [] else [target[0]] + PathOnly(target[1..])
  }

  predicate UrlNames(e: Entry, url: (string, string, string), prefix: bool) {
    var (website, origin, target) := url;
    var candidate := if e.ignoreQuery then PathOnly(target) else target;
    website == e.website && origin == e.origin && (if prefix then candidate <= e.target else e.target == candidate)
  }

  predicate UrlMatches(e: Entry, urls: seq<(string, string, string)>, prefix: bool) {
    exists i :: 0 <= i < |urls| && UrlNames(e, urls[i], prefix)
  }

  predicate Invalidates(c: Command, e: Entry, now: int) {
    && Covers(c, e.website, e.policy)
    && match c.scope
       case Everything => true
       case ExpiredOnly => e.expiresAt <= now
       case Urls(urls, prefix) => UrlMatches(e, urls, prefix)
  }

  function Retain(s: seq<Entry>, r: Root): (n: seq<Entry>)
    ensures |n| == |s|
    ensures forall i :: 0 <= i < |s| ==>
              n[i] == s[i].(websiteEpoch := r.Epoch(Website(s[i].website)), policyEpoch := r.Epoch(Policy(s[i].policy)))
  {
    seq(|s|, i requires 0 <= i < |s| =>
      s[i].(websiteEpoch := r.Epoch(Website(s[i].website)), policyEpoch := r.Epoch(Policy(s[i].policy))))
  }

  /** invalidate: bump the epochs, drop covered claims and matched entries, and carry every
      retained entry across the new fence. */
  function Invalidate(r: Root, c: Command, now: int): (n: Root) {
    var bumped := r.(epochs := Bump(r.epochs, c));
    Root(map k | k in r.entries && Filter(r.entries[k], (e: Entry) => !Invalidates(c, e, now)) != []
           :: Retain(Filter(r.entries[k], (e: Entry) => !Invalidates(c, e, now)), bumped),
         bumped.epochs,
         map k | k in r.filling && !Covers(c, r.filling[k].website, r.filling[k].policy) :: r.filling[k],
         r.sequence)
  }

  // ---------------------------------------------------------------------------
  // Runs
  // ---------------------------------------------------------------------------

  /** The published root with the history of a run: tickets handed out, each with the stale entry
      found by the same lookup, and the claims that have published. */
  datatype Cache = Cache(root: Root, tickets: set<(Ticket, Option<Entry>)>, published: seq<nat>)

  datatype Event =
    | Looked(key: Key, now: int, stale: Option<Entry>)
    | Renewed(ticket: Ticket, now: int)
    | Abandoned(ticket: Ticket)
    | Stored(ticket: Ticket, item: Entry, evicted: Root)
    | Revalidated(ticket: Ticket, previous: Entry, refreshed: Entry)
    | Discarded(key: Key, identity: nat)
    | Touched(touches: seq<(Key, set<nat>)>)
    | Promoted(key: Key, file: string, body: string, evicted: Root)
    | Trimmed(evicted: Root)
    | Invalidated(command: Command, now: int)

  predicate Issued(c: Cache, t: Ticket) { exists p :: p in c.tickets && p.0 == t }

  ghost predicate Enabled(c: Cache, e: Event) {
    match e
    case Looked(key, _, stale) => stale.Some? ==> stale.value in c.root.Variants(key)
    case Renewed(t, _) => Issued(c, t)
    case Abandoned(t) => Issued(c, t)
    case Stored(t, item, evicted) => Issued(c, t) && Sized(item) && Evicts(Insert(c.root, t, item), evicted)
    case Revalidated(t, previous, refreshed) => (t, Some(previous)) in c.tickets && Refreshes(previous, refreshed) && Sized(refreshed)
    case Discarded(_, _) => true
    case Touched(_) => true
    case Promoted(key, file, body, evicted) => Evicts(Promote(c.root, key, file, body), evicted)
    case Trimmed(evicted) => Evicts(c.root, evicted)
    case Invalidated(_, _) => true
  }

  /** store publishes only when the claim and both epochs still stand and the key kept an entry. */
  predicate Publishes(c: Cache, e: Event) {
    match e
    case Stored(t, _, evicted) => MayPublish(c.root, t) && t.key in evicted.entries
    case Revalidated(t, previous, _) => MayRevalidate(c.root, t, previous)
    case _ => false
  }

  function Apply(c: Cache, e: Event): (n: Cache) {
    match e
    case Looked(key, now, stale) =>
      (match ClaimKey(c.root, key, now)
       case None => c
       case Some((root, t)) => Cache(root, c.tickets + {(t, stale)}, c.published))
    case Renewed(t, now) => c.(root := Renew(c.root, t, now))
    case Abandoned(t) => c.(root := Abandon(c.root, t))
    case Stored(t, item, evicted) =>
      if Publishes(c, e) then c.(root := evicted, published := c.published + [t.claim])
      else c.(root := Abandon(c.root, t))
    case Revalidated(t, previous, refreshed) =>
      if Publishes(c, e) then c.(root := Revalidate(c.root, t, previous, refreshed), published := c.published + [t.claim])
      else c
    case Discarded(key, identity) => c.(root := Discard(c.root, key, identity))
    case Touched(touches) => c.(root := Touch(c.root, touches))
    case Promoted(key, file, _, evicted) => if MayPromote(c.root, key, file) then c.(root := evicted) else c
    case Trimmed(evicted) => c.(root := evicted)
    case Invalidated(command, now) => c.(root := Invalidate(c.root, command, now))
  }

  ghost predicate IsRun(c: Cache, events: seq<Event>)
    decreases |events|
  {
    events == [] || (Enabled(c, events[0]) && IsRun(Apply(c, events[0]), events[1..]))
  }

  function Exec(c: Cache, events: seq<Event>): (n: Cache)
    decreases |events|
  {
    if events == [] then c else Exec(Apply(c, events[0]), events[1..])
  }
}
