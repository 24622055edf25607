/** The deferred queue as a value, and what each operation makes of it. The
    class in DeferredQueue.dfy is proved against these functions. */
module QueueState {
  import opened Octets
  import opened Entries

  /** A row of the `deferred` table. */
  datatype Row = Row(subscriber: Bytes, channel: Bytes, blob: Bytes, enqueuedAt: real)

  datatype HeldPage = HeldPage(subscriber: Bytes, blobs: seq<Entry>)

  type Buckets = map<Bytes, seq<Entry>>

  datatype State = State(
    queue: Buckets,
    held: map<nat, HeldPage>,
    nextPage: nat,
    nextTicket: nat,
    inFlight: set<nat>,
    rows: map<nat, Row>,
    globalLimit: nat)

  datatype Outcome =
    | Queued
    | QueuedEvictingOldest(evictedRouting: Bytes)
    | QueuedEvictingFullest(evictedSubscriber: Bytes, evictedRouting: Bytes)
    | RefusedGlobalLimit

  function RowOf(subscriber: Bytes, e: Entry): Row {
    Row(subscriber, e.channel, e.blob, e.enqueuedAt)
  }

  function Bucket(q: Buckets, subscriber: Bytes): seq<Entry> {
    if subscriber in q then q[subscriber] else []
  }

  /** `q` with `subscriber`'s bucket now `b`; an emptied bucket goes. */
  function SetBucket(q: Buckets, subscriber: Bytes, b: seq<Entry>): Buckets {
    if b == [] then q - {subscriber} else q[subscriber := b]
  }

  // -- Everything stored ------------------------------------------------------

  ghost function Pool(q: Buckets): multiset<Item>
    decreases q.Keys
  {
    if q == map[] then multiset{} else var k :| k in q; Items(k, q[k]) + Pool(q - {k})
  }

  ghost function PageItems(p: HeldPage): multiset<Item> { Items(p.subscriber, p.blobs) }

  ghost function HeldPool(h: map<nat, HeldPage>): multiset<Item>
    decreases h.Keys
  {
    if h == map[] then multiset{} else var p :| p in h; PageItems(h[p]) + HeldPool(h - {p})
  }

  /** Every entry the queue stores, in a bucket or in a page a pull holds. */
  ghost function Stored(s: State): multiset<Item> { Pool(s.queue) + HeldPool(s.held) }

  ghost function TotalLen(s: State): nat { |Stored(s)| }

  ghost function HeldLen(s: State): nat { |HeldPool(s.held)| }

  // -- Enqueue ----------------------------------------------------------------

  predicate BucketFull(q: Buckets, subscriber: Bytes, limit: nat) {
    Bucket(q, subscriber) != [] && |Bucket(q, subscriber)| >= limit
  }

  predicate AllEmpty(q: Buckets) { forall k :: k in q ==> q[k] == [] }

  /** Bucket `v` is longer than `k`, or as long with a front entry no younger. */
  predicate NotFuller(q: Buckets, k: Bytes, v: Bytes)
    requires k in q && v in q && q[k] != [] && q[v] != []
  {
    |q[k]| < |q[v]| || (|q[k]| == |q[v]| && q[v][0].enqueuedAt <= q[k][0].enqueuedAt)
  }

  /** `v`'s bucket is a longest one and, among those, its front entry is no
      younger than any other's. */
  predicate Fullest(q: Buckets, v: Bytes) {
    v in q && q[v] != [] && forall k :: k in q && q[k] != [] ==> NotFuller(q, k, v)
  }

  /** Which outcomes an enqueue may have: one kind, and where buckets tie in
      length and age, any of the tied victims. */
  ghost predicate Allowed(s: State, subscriber: Bytes, limit: nat, o: Outcome) {
    match o
    case QueuedEvictingOldest(r) => BucketFull(s.queue, subscriber, limit) && r == s.queue[subscriber][0].channel
    case QueuedEvictingFullest(v, r) =>
      !BucketFull(s.queue, subscriber, limit) && TotalLen(s) >= s.globalLimit &&
      Fullest(s.queue, v) && r == s.queue[v][0].channel
    case RefusedGlobalLimit =>
      !BucketFull(s.queue, subscriber, limit) && TotalLen(s) >= s.globalLimit && AllEmpty(s.queue)
    case Queued => !BucketFull(s.queue, subscriber, limit) && TotalLen(s) < s.globalLimit
  }

  /** Whose front entry an outcome evicts. */
  function Victim(subscriber: Bytes, o: Outcome): Option<Bytes> {
    match o
    case QueuedEvictingOldest(_) => Some(subscriber)
    case QueuedEvictingFullest(v, _) => Some(v)
    case _ => None
  }

  function PopFront(s: State, v: Bytes): State {
    var b := Bucket(s.queue, v);
    if b == [] then s else
      s.(queue := SetBucket(s.queue, v, b[1..]), rows := s.rows - {b[0].id})
  }

  function Evict(s: State, v: Option<Bytes>): State {
    match v
    case None => s
    case Some(k) => PopFront(s, k)
  }

  /** SQLite's promise for an inserted row: its id is above every row's. */
  predicate AboveEveryRow(rows: map<nat, Row>, id: nat) {
    id > 0 && forall k :: k in rows ==> k < id
  }

  function Append(s: State, subscriber: Bytes, channel: Bytes, blob: Bytes, now: real, id: nat): State {
    var e := Entry(channel, blob, now, id, s.nextTicket);
    s.(queue := s.queue[subscriber := Bucket(s.queue, subscriber) + [e]],
       nextTicket := s.nextTicket + 1,
       rows := s.rows[id := RowOf(subscriber, e)])
  }

  function Enqueue(s: State, subscriber: Bytes, channel: Bytes, blob: Bytes, now: real, id: nat, o: Outcome): State {
    if o == RefusedGlobalLimit then s
    else Append(Evict(s, Victim(subscriber, o)), subscriber, channel, blob, now, id)
  }

  // -- Drains -----------------------------------------------------------------

  function DeleteRows(rows: map<nat, Row>, removed: seq<Entry>): map<nat, Row> { rows - Ids(removed) }

  function Drain(s: State, subscriber: Bytes): (State, seq<Entry>) {
    var b := Bucket(s.queue, subscriber);
    (s.(queue := s.queue - {subscriber}, rows := DeleteRows(s.rows, b)), b)
  }

  function DrainBatch(s: State, subscriber: Bytes, max: nat): (State, seq<Entry>) {
    var b := Bucket(s.queue, subscriber);
    var n := Min(|b|, max);
    (s.(queue := SetBucket(s.queue, subscriber, b[n..]), rows := DeleteRows(s.rows, b[..n])), b[..n])
  }

  function DrainMatching(s: State, subscriber: Bytes, w: Wanted, max: nat): (State, seq<Entry>) {
    var b := Bucket(s.queue, subscriber);
    var n := Min(|Select(b, w)|, max);
    var removed := Select(b, w)[..n];
    (s.(queue := SetBucket(s.queue, subscriber, DropWanted(b, w, n)), rows := DeleteRows(s.rows, removed)), removed)
  }

  // -- Pages ------------------------------------------------------------------

  type Cost = Entry -> nat

  function CostOf(b: seq<Entry>, cost: Cost): nat {
    if b == [] then 0 else CostOf(b[..|b| - 1], cost) + cost(b[|b| - 1])
  }

  /** Whether the first `n` of `wanted` may go in one page: one always may,
      more only within the budget. */
  predicate FitsPage(wanted: seq<Entry>, budget: nat, cost: Cost, n: nat)
    requires n <= |wanted|
  {
    n <= 1 || CostOf(wanted[..n], cost) <= budget
  }

  /** The most of `wanted`, up to `n`, that fit. */
  function Fitting(wanted: seq<Entry>, budget: nat, cost: Cost, n: nat): (r: nat)
    requires n <= |wanted|
    ensures r <= n && FitsPage(wanted, budget, cost, r)
    ensures forall k :: r < k <= n ==> !FitsPage(wanted, budget, cost, k)
  {
    if FitsPage(wanted, budget, cost, n) then n else Fitting(wanted, budget, cost, n - 1)
  }

  function PageCount(wanted: seq<Entry>, max: nat, budget: nat, cost: Cost): (r: nat)
    ensures r <= max && r <= |wanted|
  {
    Fitting(wanted, budget, cost, Min(|wanted|, max))
  }

  /** The page's id (0 for an empty page) and its blobs. */
  function TakePage(s: State, subscriber: Bytes, w: Wanted, max: nat, budget: nat, cost: Cost)
    : (State, nat, seq<Entry>)
  {
    var b := Bucket(s.queue, subscriber);
    var n := PageCount(Select(b, w), max, budget, cost);
    var page := Select(b, w)[..n];
    var queue := SetBucket(s.queue, subscriber, DropWanted(b, w, n));
    if n == 0 then (s.(queue := queue), 0, [])
    else
      (s.(queue := queue, held := s.held[s.nextPage := HeldPage(subscriber, page)], nextPage := s.nextPage + 1),
       s.nextPage, page)
  }

  /** Settling gives back the page's subscriber and length, or `None` when no
      such page is held. */
  function Settle(s: State, page: nat, proved: bool): (State, Option<(Bytes, nat)>) {
    if page !in s.held then (s, None)
    else
      var p := s.held[page];
      var s' := s.(held := s.held - {page});
      (if proved then s'.(rows := DeleteRows(s.rows, p.blobs))
       else s'.(queue := s.queue[p.subscriber := p.blobs + Bucket(s.queue, p.subscriber)]),
       Some((p.subscriber, |p.blobs|)))
  }

  function Pending(q: Buckets, subscriber: Bytes, w: Wanted): bool {
    Select(Bucket(q, subscriber), w) != []
  }

  function CountMatching(s: State, subscriber: Bytes, routing: Bytes): nat {
    |Select(Bucket(s.queue, subscriber), Only(routing))|
  }

  // -- The announce flush -----------------------------------------------------

  function FlushCopies(s: State, subscriber: Bytes, w: Wanted): (State, seq<Entry>) {
    var copies := Idle(Bucket(s.queue, subscriber), w, s.inFlight);
    (s.(inFlight := s.inFlight + Tickets(copies)), copies)
  }

  function HeldWithout(h: map<nat, HeldPage>, subscriber: Bytes, t: nat): map<nat, HeldPage> {
    map p | p in h :: if h[p].subscriber == subscriber then HeldPage(subscriber, Without(h[p].blobs, t)) else h[p]
  }

  function RowsOfTicket(s: State, subscriber: Bytes, t: nat): set<nat> {
    (set e | e in Bucket(s.queue, subscriber) && e.ticket == t :: e.id) +
    (set p, e | p in s.held && s.held[p].subscriber == subscriber && e in s.held[p].blobs && e.ticket == t :: e.id)
  }

  /** The entry ticketed `t` leaves the subscriber's bucket or page, with its
      row, and the flight ends; says whether there was one. */
  function Confirm(s: State, subscriber: Bytes, t: nat): (State, bool) {
    var ids := RowsOfTicket(s, subscriber, t);
    (s.(queue := SetBucket(s.queue, subscriber, Without(Bucket(s.queue, subscriber), t)),
        held := HeldWithout(s.held, subscriber, t),
        inFlight := s.inFlight - {t},
        rows := s.rows - ids),
     ids != {})
  }

  function Release(s: State, t: nat): State { s.(inFlight := s.inFlight - {t}) }

  // -- Expiry -----------------------------------------------------------------

  function YoungBuckets(q: Buckets, threshold: real): Buckets {
    map k | k in q && Young(q[k], threshold) != [] :: Young(q[k], threshold)
  }

  function OldIds(q: Buckets, threshold: real): set<nat> {
    set k, e | k in q && e in q[k] && e.enqueuedAt < threshold :: e.id
  }

  function Expire(s: State, threshold: real): State {
    s.(queue := YoungBuckets(s.queue, threshold), rows := s.rows - OldIds(s.queue, threshold))
  }

  // -- Restart ----------------------------------------------------------------

  /** The keys of a map in ascending order: the table read `ORDER BY id`. */
  function Ascending(ids: set<nat>): (r: seq<nat>)
    ensures forall k :: k in r <==> k in ids
    ensures forall i, j :: 0 <= i < j < |r| ==> r[i] < r[j]
  {
    if ids == {} then [] else
      MaximumExists(ids);
      var m :| m in ids && forall k :: k in ids ==> k <= m;
      Ascending(ids - {m}) + [m]
  }

  lemma {:induction false} MaximumExists(ids: set<nat>)
    requires ids != {}
    ensures exists m :: m in ids && forall k :: k in ids ==> k <= m
  {
    var x :| x in ids;
    if ids != {x} {
      MaximumExists(ids - {x});
      var m :| m in ids - {x} && forall k :: k in ids - {x} ==> k <= m;
      var best := if m < x then x else m;
      assert forall k :: k in ids ==> k == x || k in ids - {x};
      assert best in ids && forall k :: k in ids ==> k <= best;
    }
  }

  /** A subscriber's rows among `ids`, in that order. */
  function RowsOf(rows: map<nat, Row>, ids: seq<nat>, subscriber: Bytes): (r: seq<nat>)
    requires forall i :: i in ids ==> i in rows
    ensures forall i :: i in r ==> i in ids && i in rows && rows[i].subscriber == subscriber
  {
    if ids == [] then []
    else
      RowsOf(rows, ids[..|ids| - 1], subscriber) +
      (if rows[ids[|ids| - 1]].subscriber == subscriber then [ids[|ids| - 1]] else [])
  }

  /** A bucket built from rows, whatever tickets it was given. */
  ghost predicate BuiltFrom(b: seq<Entry>, rows: map<nat, Row>, subscriber: Bytes, ids: seq<nat>)
    requires forall i :: i in ids ==> i in rows
  {
    |b| == |ids| && forall i :: 0 <= i < |b| ==> b[i].id == ids[i] && RowOf(subscriber, b[i]) == rows[ids[i]]
  }

  /** Tickets are handed out afresh, 1 up to `next - 1`, one each. */
  ghost predicate FreshTickets(m: multiset<Item>, next: nat) {
    (forall x :: x in m ==> 0 < x.entry.ticket < next) &&
    (forall x, y :: x in m && y in m && x.entry.ticket == y.entry.ticket ==> x == y)
  }

  const LOADED_GLOBAL_LIMIT: nat := 4096

  /** `s` is what `load` makes of the table `rows`: each subscriber's rows in
      id order, nothing held or in flight. */
  ghost predicate Loaded(rows: map<nat, Row>, s: State) {
    s.rows == rows && s.held == map[] && s.inFlight == {} && s.nextPage == 1 &&
    s.globalLimit == LOADED_GLOBAL_LIMIT &&
    (forall k :: k in s.queue ==> s.queue[k] != []) &&
    (forall k :: BuiltFrom(Bucket(s.queue, k), rows, k, RowsOf(rows, Ascending(rows.Keys), k))) &&
    s.nextTicket > 0 && FreshTickets(Pool(s.queue), s.nextTicket)
  }
}
