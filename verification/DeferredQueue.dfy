/** The deferred delivery queue as the node keeps it: maps and sets updated in
    place, and the `deferred` table written in step. Each method is proved
    against its function in QueueState.dfy. The clock is a parameter; writes
    are taken to succeed. */
module DeferredQueues {
  import opened Octets
  import opened Entries
  import opened QueueState
  import opened QueueInvariant
  import opened Conservation
  import opened Tallies
  import opened Paging
  import opened QueueRuns
  import opened QueueTraces

  // -- What the methods' loops rest on ----------------------------------------

  /** Under what a batch for one subscriber may come to be stored. */
  ghost function RoutedTo(subscriber: Bytes, blobs: seq<(Bytes, Bytes)>): set<(Bytes, Bytes)> {
    set i | 0 <= i < |blobs| :: (subscriber, blobs[i].0)
  }

  lemma BatchDone(s: State, es: seq<Event>, s': State, k: Bytes, blobs: seq<(Bytes, Bytes)>, limit: nat, now: real)
    requires Leads(s, es, s') && Offers(es, k, blobs, limit, now)
    ensures var t := Tallied(es);
            t.queued + t.refused == |blobs| && TotalLen(s') == TotalLen(s) + t.queued - t.evicted - t.evictedFullest &&
            s'.held == s.held && s'.globalLimit == s.globalLimit
    ensures OnlyBrings(s, s', RoutedTo(k, blobs))
    ensures Inv(s) ==> Inv(s')
  {
    LeadsTallies(s, es, s');
    assert forall i :: 0 <= i < |es| ==> (es[i].subscriber, es[i].channel) == (k, blobs[i].0);
    LeadsBrings(s, es, s', RoutedTo(k, blobs));
    if Inv(s) {
      LeadsKeepsInv(s, es, s');
    }
  }

  ghost predicate SameButTickets(b: seq<Entry>, c: seq<Entry>) {
    |b| == |c| && forall i :: 0 <= i < |b| ==> b[i] == c[i].(ticket := b[i].ticket)
  }

  /** The buckets `done` are ticketed below `next`, no ticket twice. */
  ghost predicate NumberedApart(q: Buckets, done: set<Bytes>, next: nat)
    requires done <= q.Keys
  {
    (forall k, i :: k in done && 0 <= i < |q[k]| ==> 0 < q[k][i].ticket < next) &&
    (forall k, l, i, j ::
       k in done && l in done && 0 <= i < |q[k]| && 0 <= j < |q[l]| && q[k][i].ticket == q[l][j].ticket ==>
         k == l && i == j)
  }

  ghost predicate ReadInto(q: Buckets, table: map<nat, Row>, ids: seq<nat>)
    requires forall i :: i in ids ==> i in table
  {
    forall k :: BuiltFrom(Bucket(q, k), table, k, RowsOf(table, ids, k))
  }

  lemma RowsOfAppend(table: map<nat, Row>, ids: seq<nat>, id: nat, k: Bytes)
    requires (forall i :: i in ids ==> i in table) && id in table
    ensures RowsOf(table, ids + [id], k) == RowsOf(table, ids, k) + if table[id].subscriber == k then [id] else []
  {
    assert (ids + [id])[..|ids|] == ids;
  }

  lemma BuiltOneMore(b: seq<Entry>, table: map<nat, Row>, k: Bytes, ids: seq<nat>, e: Entry)
    requires (forall i :: i in ids ==> i in table) && e.id in table && RowOf(k, e) == table[e.id]
    requires BuiltFrom(b, table, k, ids)
    ensures BuiltFrom(b + [e], table, k, ids + [e.id])
  {}

  lemma ReadOneMore(q: Buckets, table: map<nat, Row>, ids: seq<nat>, e: Entry, s: Bytes)
    requires (forall i :: i in ids ==> i in table) && e.id in table && RowOf(s, e) == table[e.id]
    requires ReadInto(q, table, ids)
    ensures ReadInto(q[s := Bucket(q, s) + [e]], table, ids + [e.id])
  {
    var q' := q[s := Bucket(q, s) + [e]];
    forall k
      ensures BuiltFrom(Bucket(q', k), table, k, RowsOf(table, ids + [e.id], k))
    {
      RowsOfAppend(table, ids, e.id, k);
      assert BuiltFrom(Bucket(q, k), table, k, RowsOf(table, ids, k));
      if k == s {
        assert Bucket(q', k) == Bucket(q, k) + [e];
        BuiltOneMore(Bucket(q, k), table, k, RowsOf(table, ids, k), e);
      } else {
        assert Bucket(q', k) == Bucket(q, k);
      }
    }
  }

  lemma NumberedStillRead(read: Buckets, q: Buckets, table: map<nat, Row>, ids: seq<nat>)
    requires (forall i :: i in ids ==> i in table) && ReadInto(read, table, ids)
    requires read.Keys == q.Keys && forall k :: k in q ==> SameButTickets(q[k], read[k])
    ensures ReadInto(q, table, ids)
  {
    forall k
      ensures BuiltFrom(Bucket(q, k), table, k, RowsOf(table, ids, k))
    {
      assert BuiltFrom(Bucket(read, k), table, k, RowsOf(table, ids, k));
    }
  }

  /** The new entry goes behind whatever the eviction left of its bucket, and
      its row in with the evicted one's deletion. */
  lemma Inserted(s: State, k: Bytes, channel: Bytes, blob: Bytes, now: real, id: nat, o: Outcome)
    requires !o.RefusedGlobalLimit?
    requires Victim(k, o).Some? ==> Bucket(s.queue, Victim(k, o).value) != []
    ensures var q := QueueAfterRoom(s, k, o);
            Enqueue(s, k, channel, blob, now, id, o) ==
            State(q[k := Bucket(q, k) + [Entry(channel, blob, now, id, s.nextTicket)]],
                  s.held, s.nextPage, s.nextTicket + 1, s.inFlight,
                  Evict(s, Victim(k, o)).rows[id := Row(k, channel, blob, now)], s.globalLimit)
  {}

  /** The row an eviction deletes is its victim's front entry's. */
  lemma RoomMade(s: State, k: Bytes, o: Outcome, evicted: Option<Entry>)
    requires Victim(k, o).Some? ==> Victim(k, o).value in s.queue && s.queue[Victim(k, o).value] != []
    requires evicted == match Victim(k, o) { case None => None case Some(v) => Some(s.queue[v][0]) }
    ensures Victim(k, o).Some? ==> Bucket(s.queue, Victim(k, o).value) != []
    ensures Evict(s, Victim(k, o)).rows == if evicted.Some? then s.rows - {evicted.value.id} else s.rows
  {}

  /** The buckets once room is made: a bucket the new entry goes to at once is
      kept, even emptied. */
  function QueueAfterRoom(s: State, k: Bytes, o: Outcome): Buckets
    requires o.QueuedEvictingOldest? ==> Bucket(s.queue, k) != []
  {
    if o.QueuedEvictingOldest? then s.queue[k := s.queue[k][1..]] else Evict(s, Victim(k, o)).queue
  }

  lemma ConfirmFoundInBucket(s: State, k: Bytes, i: nat)
    requires TicketsApart(s, k) && i < |Bucket(s.queue, k)|
    ensures var b := Bucket(s.queue, k);
            QueueState.Confirm(s, k, b[i].ticket) ==
            (s.(queue := SetBucket(s.queue, k, b[..i] + b[i + 1..]), inFlight := s.inFlight - {b[i].ticket},
                rows := s.rows - {b[i].id}),
             true)
  {
    assert Bucket(s.queue, k)[i] in Bucket(s.queue, k);
    ConfirmInBucket(s, k, i);
  }

  lemma ConfirmFoundInPage(s: State, k: Bytes, p: nat, i: nat)
    requires TicketsApart(s, k) && p in s.held && s.held[p].subscriber == k && i < |s.held[p].blobs|
    ensures var c := s.held[p].blobs;
            QueueState.Confirm(s, k, c[i].ticket) ==
            (s.(queue := SetBucket(s.queue, k, Bucket(s.queue, k)),
                held := s.held[p := HeldPage(k, c[..i] + c[i + 1..])],
                inFlight := s.inFlight - {c[i].ticket}, rows := s.rows - {c[i].id}), true)
  {
    assert s.held[p].blobs[i] in s.held[p].blobs;
    ConfirmInPage(s, k, p, i);
  }

  /** How many of `b`, subscriber `k`'s, an expiry counts under `(s, r)`. */
  ghost function OldCount(k: Bytes, b: seq<Entry>, threshold: real, s: Bytes, r: Bytes): nat {
    if k == s then |Select(Old(b, threshold), Only(r))| else 0
  }

  lemma OldCountMore(k: Bytes, b: seq<Entry>, e: Entry, threshold: real)
    ensures forall s, r :: OldCount(k, b + [e], threshold, s, r) ==
              OldCount(k, b, threshold, s, r) + if k == s && e.enqueuedAt < threshold && e.channel == r then 1 else 0
  {
    AgeConcat(b, [e], threshold);
    forall r
      ensures |Select(Old(b + [e], threshold), Only(r))| ==
              |Select(Old(b, threshold), Only(r))| + if e.enqueuedAt < threshold && e.channel == r then 1 else 0
    {
      SelectConcat(Old(b, threshold), Old([e], threshold), Only(r));
    }
  }

  /** `d` is `c` with an expiry of bucket `b` counted in. */
  ghost predicate Counted(c: seq<Expired>, d: seq<Expired>, k: Bytes, b: seq<Entry>, threshold: real) {
    forall s, r :: CountOf(d, s, r) == CountOf(c, s, r) + OldCount(k, b, threshold, s, r)
  }

  lemma CountedMore(c: seq<Expired>, d: seq<Expired>, k: Bytes, b: seq<Entry>, e: Entry, threshold: real)
    requires Counted(c, d, k, b, threshold)
    ensures Counted(c, if e.enqueuedAt < threshold then Bump(d, k, e.channel) else d, k, b + [e], threshold)
  {
    OldCountMore(k, b, e, threshold);
    BumpCounts(d, k, e.channel);
  }

  /** `report` is exactly what an expiry of the buckets `q` loses. */
  ghost predicate Reports(report: seq<Expired>, q: Buckets, threshold: real) {
    Ordered(report) && Positive(report) &&
    (forall s, r :: CountOf(report, s, r) == |Select(Old(Bucket(q, s), threshold), Only(r))|) &&
    Sum(report) == |Pool(OldBuckets(q, threshold))|
  }

  /** The buckets `done` of `q` retained, `todo` still to come. */
  ghost predicate RetainedBuckets(q: Buckets, queue: Buckets, done: Buckets, todo: set<Bytes>, threshold: real) {
    queue.Keys == q.Keys && done.Keys == q.Keys - todo &&
    (forall k :: k in q ==> queue[k] == if k in todo then q[k] else Young(q[k], threshold)) &&
    forall k :: k in done ==> done[k] == q[k]
  }

  lemma RetainBucket(q: Buckets, queue: Buckets, done: Buckets, todo: set<Bytes>, threshold: real, k: Bytes)
    requires k in todo && todo <= q.Keys && RetainedBuckets(q, queue, done, todo, threshold)
    ensures RetainedBuckets(q, queue[k := Young(q[k], threshold)], done[k := q[k]], todo - {k}, threshold)
  {}

  /** What the buckets `done` lose is gathered and reported. */
  ghost predicate RetainedReport(done: Buckets, evicted: seq<Entry>, report: seq<Expired>, threshold: real) {
    Ids(evicted) == OldIds(done, threshold) && Reports(report, done, threshold)
  }

  lemma RetainReport(done: Buckets, evicted: seq<Entry>, report: seq<Expired>, threshold: real, k: Bytes, b: seq<Entry>,
                     evicted': seq<Entry>, report': seq<Expired>)
    requires k !in done && RetainedReport(done, evicted, report, threshold)
    requires evicted' == evicted + Old(b, threshold) && Counted(report, report', k, b, threshold)
    requires Ordered(report') && Positive(report') && Sum(report') == Sum(report) + |Old(b, threshold)|
    ensures RetainedReport(done[k := b], evicted', report', threshold)
  {
    OldIdsMore(done, k, b, threshold);
    ReportsMore(report, report', done, k, b, threshold);
    assert Ids(evicted') == Ids(evicted) + Ids(Old(b, threshold));
  }

  function Occupied(q: Buckets): Buckets { map k | k in q && q[k] != [] :: q[k] }

  lemma OnlyYoungLeft(q: Buckets, q': Buckets, threshold: real)
    requires q'.Keys == q.Keys && forall k :: k in q' ==> q'[k] == Young(q[k], threshold)
    ensures Occupied(q') == YoungBuckets(q, threshold)
  {}

  lemma OldIdsMore(d: Buckets, k: Bytes, b: seq<Entry>, threshold: real)
    requires k !in d
    ensures OldIds(d[k := b], threshold) == OldIds(d, threshold) + Ids(Old(b, threshold))
  {
    var d' := d[k := b];
    AgeSplit(b, threshold);
    forall id | id in OldIds(d, threshold)
      ensures id in OldIds(d', threshold)
    {
      var l, e :| l in d && e in d[l] && e.enqueuedAt < threshold && e.id == id;
      assert l in d' && e in d'[l];
    }
    forall id | id in Ids(Old(b, threshold))
      ensures id in OldIds(d', threshold)
    {
      var e :| e in Old(b, threshold) && e.id == id;
      assert k in d' && e in d'[k];
    }
  }

  lemma OldPoolMore(d: Buckets, k: Bytes, b: seq<Entry>, threshold: real)
    requires k !in d
    ensures |Pool(OldBuckets(d[k := b], threshold))| == |Pool(OldBuckets(d, threshold))| + |Old(b, threshold)|
  {
    var o := OldBuckets(d[k := b], threshold);
    PoolSplit(o, k);
    assert o - {k} == OldBuckets(d, threshold);
    TagMembers(k, o[k]);
  }

  lemma ReportsMore(c: seq<Expired>, c': seq<Expired>, d: Buckets, k: Bytes, b: seq<Entry>, threshold: real)
    requires k !in d && Reports(c, d, threshold) && Counted(c, c', k, b, threshold)
    requires Ordered(c') && Positive(c') && Sum(c') == Sum(c) + |Old(b, threshold)|
    ensures Reports(c', d[k := b], threshold)
  {
    OldPoolMore(d, k, b, threshold);
    forall s, r
      ensures CountOf(c', s, r) == |Select(Old(Bucket(d[k := b], s), threshold), Only(r))|
    {
      assert CountOf(c', s, r) == CountOf(c, s, r) + OldCount(k, b, threshold, s, r);
    }
  }

  lemma ExpiredSum(s: State, threshold: real, report: seq<Expired>)
    requires Sum(report) == |Pool(OldBuckets(s.queue, threshold))|
    ensures Sum(report) == TotalLen(s) - TotalLen(Expire(s, threshold))
  {
    ExpirePool(s.queue, threshold);
  }

  /** `b` being split: `removed` and `kept` so far, `rest` to come. */
  ghost predicate Splitting(b: seq<Entry>, w: Wanted, max: nat, removed: seq<Entry>, kept: seq<Entry>,
                            rest: seq<Entry>) {
    var n := Min(|Select(b, w)|, max);
    |removed| <= n && removed == Select(b, w)[..|removed|] &&
    kept + DropWanted(rest, w, n - |removed|) == DropWanted(b, w, n) &&
    if |removed| >= max then |removed| == n else removed + Select(rest, w) == Select(b, w)
  }

  lemma DropOneMore(entry: Entry, rest: seq<Entry>, w: Wanted, m: nat)
    requires w(entry.channel) && m > 0
    ensures DropWanted([entry] + rest, w, m) == DropWanted(rest, w, m - 1)
  {
    assert ([entry] + rest)[1..] == rest;
  }

  lemma SplitOff(b: seq<Entry>, w: Wanted, max: nat, removed: seq<Entry>, kept: seq<Entry>, entry: Entry,
                 rest: seq<Entry>)
    requires Splitting(b, w, max, removed, kept, [entry] + rest) && |removed| < max && w(entry.channel)
    ensures Splitting(b, w, max, removed + [entry], kept, rest)
  {
    SelectCons(entry, rest, w);
    Regroup(removed, entry, Select(rest, w));
    DropOneMore(entry, rest, w, Min(|Select(b, w)|, max) - |removed|);
  }

  lemma Regroup(a: seq<Entry>, e: Entry, b: seq<Entry>)
    ensures a + ([e] + b) == (a + [e]) + b && (a + ([e] + b))[..|a| + 1] == a + [e]
  {}

  lemma SplitKept(b: seq<Entry>, w: Wanted, max: nat, removed: seq<Entry>, kept: seq<Entry>, entry: Entry,
                  rest: seq<Entry>)
    requires Splitting(b, w, max, removed, kept, [entry] + rest) && (|removed| >= max || !w(entry.channel))
    ensures Splitting(b, w, max, removed, kept + [entry], rest)
  {
    SelectCons(entry, rest, w);
    KeptOneMore(kept, entry, rest, w, Min(|Select(b, w)|, max) - |removed|);
  }

  /** A page of `b` being filled: `taken` so far, `kept` passed over, `rest`
      to come. */
  ghost predicate Filling(b: seq<Entry>, w: Wanted, max: nat, budget: nat, cost: Cost,
                          taken: seq<Entry>, kept: seq<Entry>, rest: seq<Entry>, spent: nat, full: bool)
  {
    var all := Select(b, w);
    var n := PageCount(all, max, budget, cost);
    |taken| <= n && taken == all[..|taken|] &&
    kept + DropWanted(rest, w, n - |taken|) == DropWanted(b, w, n) &&
    if full || |taken| >= max then |taken| == n
    else taken + Select(rest, w) == all && spent == CostOf(taken, cost)
  }

  lemma FillingStarts(b: seq<Entry>, w: Wanted, max: nat, budget: nat, cost: Cost)
    ensures Filling(b, w, max, budget, cost, [], [], b, 0, false)
  {
    var n := PageCount(Select(b, w), max, budget, cost);
    assert [] + DropWanted(b, w, n) == DropWanted(b, w, n) && [] + Select(b, w) == Select(b, w);
  }

  lemma PageNext(all: seq<Entry>, max: nat, budget: nat, cost: Cost, taken: seq<Entry>, entry: Entry, later: seq<Entry>)
    requires all == taken + ([entry] + later) && |taken| <= PageCount(all, max, budget, cost)
    ensures PageCount(all, max, budget, cost) > |taken| <==>
            |taken| < max && (taken == [] || CostOf(taken, cost) + cost(entry) <= budget)
    ensures CostOf(taken + [entry], cost) == CostOf(taken, cost) + cost(entry)
  {
    PageTakesNext(all, max, budget, cost, |taken|);
    assert all[..|taken|] == taken && all[|taken|] == entry;
    assert (taken + [entry])[..|taken|] == taken;
  }

  lemma KeptOneMore(kept: seq<Entry>, entry: Entry, rest: seq<Entry>, w: Wanted, m: nat)
    requires m == 0 || !w(entry.channel)
    ensures kept + DropWanted([entry] + rest, w, m) == (kept + [entry]) + DropWanted(rest, w, m)
  {
    assert ([entry] + rest)[1..] == rest;
  }

  lemma PassOver(b: seq<Entry>, w: Wanted, max: nat, budget: nat, cost: Cost,
                 taken: seq<Entry>, kept: seq<Entry>, entry: Entry, rest: seq<Entry>, spent: nat, full: bool)
    requires Filling(b, w, max, budget, cost, taken, kept, [entry] + rest, spent, full)
    requires full || |taken| >= max || !w(entry.channel)
    ensures Filling(b, w, max, budget, cost, taken, kept + [entry], rest, spent, full)
  {
    SelectCons(entry, rest, w);
    KeptOneMore(kept, entry, rest, w, PageCount(Select(b, w), max, budget, cost) - |taken|);
  }

  lemma TakeIn(b: seq<Entry>, w: Wanted, max: nat, budget: nat, cost: Cost,
               taken: seq<Entry>, kept: seq<Entry>, entry: Entry, rest: seq<Entry>, spent: nat)
    requires Filling(b, w, max, budget, cost, taken, kept, [entry] + rest, spent, false)
    requires |taken| < max && w(entry.channel) && (taken == [] || spent + cost(entry) <= budget)
    ensures Filling(b, w, max, budget, cost, taken + [entry], kept, rest, spent + cost(entry), false)
  {
    var all := Select(b, w);
    SelectCons(entry, rest, w);
    Regroup(taken, entry, Select(rest, w));
    PageNext(all, max, budget, cost, taken, entry, Select(rest, w));
    DropOneMore(entry, rest, w, PageCount(all, max, budget, cost) - |taken|);
    PageFilled(all, max, budget, cost, taken + [entry]);
  }

  lemma PageFilled(all: seq<Entry>, max: nat, budget: nat, cost: Cost, taken: seq<Entry>)
    requires |taken| <= |all| && taken == all[..|taken|] && |taken| <= PageCount(all, max, budget, cost)
    ensures |taken| >= max ==> |taken| == PageCount(all, max, budget, cost)
  {}

  lemma NotFitting(b: seq<Entry>, w: Wanted, max: nat, budget: nat, cost: Cost,
                   taken: seq<Entry>, kept: seq<Entry>, entry: Entry, rest: seq<Entry>, spent: nat)
    requires Filling(b, w, max, budget, cost, taken, kept, [entry] + rest, spent, false)
    requires |taken| < max && w(entry.channel) && taken != [] && spent + cost(entry) > budget
    ensures Filling(b, w, max, budget, cost, taken, kept + [entry], rest, spent, true)
  {
    var all := Select(b, w);
    assert ([entry] + rest)[1..] == rest;
    SelectCons(entry, rest, w);
    PageNext(all, max, budget, cost, taken, entry, Select(rest, w));
    assert (kept + [entry]) + DropWanted(rest, w, 0) == kept + ([entry] + DropWanted(rest, w, 0));
  }

  lemma Filled(b: seq<Entry>, w: Wanted, max: nat, budget: nat, cost: Cost,
               taken: seq<Entry>, kept: seq<Entry>, spent: nat, full: bool)
    requires Filling(b, w, max, budget, cost, taken, kept, [], spent, full)
    ensures var n := PageCount(Select(b, w), max, budget, cost);
            taken == Select(b, w)[..n] && kept == DropWanted(b, w, n)
  {
    assert taken + [] == taken && kept + [] == kept;
  }

  lemma NumberOneMore(q: Buckets, done: set<Bytes>, first: nat, k: Bytes, b: seq<Entry>, next: nat)
    requires done <= q.Keys && k in q && k !in done && 0 < first && next == first + |b|
    requires NumberedApart(q, done, first)
    requires forall i :: 0 <= i < |b| ==> b[i].ticket == first + i
    ensures NumberedApart(q[k := b], done + {k}, next)
  {}

  lemma NumberedFresh(q: Buckets, next: nat)
    requires NumberedApart(q, q.Keys, next)
    ensures FreshTickets(Pool(q), next)
  {
    PoolMembers(q);
    forall x | x in Pool(q)
      ensures exists i :: 0 <= i < |q[x.subscriber]| && q[x.subscriber][i] == x.entry
    {}
  }

  // -- The queue --------------------------------------------------------------

  class DeferredQueue {
    var queue: Buckets
    var held: map<nat, HeldPage>
    var nextPage: nat
    var nextTicket: nat
    var inFlight: set<nat>
    var rows: map<nat, Row>
    var globalLimit: nat

    ghost function St(): State
      reads this
    {
      State(queue, held, nextPage, nextTicket, inFlight, rows, globalLimit)
    }

    ghost predicate Valid()
      reads this
    {
      Inv(St())
    }

    // -- Load -----------------------------------------------------------------

    /** The rows `ids` read in that order: each subscriber's, in that order. */
    static method ReadRows(table: map<nat, Row>, ids: seq<nat>) returns (q: Buckets)
      requires forall i :: i in ids ==> i in table
      ensures forall k :: k in q ==> q[k] != []
      ensures ReadInto(q, table, ids)
    {
      q := map[];
      ghost var done: seq<nat> := [];
      for n := 0 to |ids|
        invariant forall k :: k in q ==> q[k] != []
        invariant done == ids[..n] && (forall i :: i in done ==> i in table) && ReadInto(q, table, done)
      {
        var row := table[ids[n]];
        var e := Entry(row.channel, row.blob, row.enqueuedAt, ids[n], 0);
        ReadOneMore(q, table, done, e, row.subscriber);
        done := done + [e.id];
        q := q[row.subscriber := Bucket(q, row.subscriber) + [e]];
      }
      assert done == ids;
    }

    /** Tickets from `first`, one an entry. */
    static method NumberBucket(b: seq<Entry>, first: nat) returns (r: seq<Entry>, next: nat)
      ensures SameButTickets(r, b) && next == first + |b|
      ensures forall i :: 0 <= i < |b| ==> r[i].ticket == first + i
    {
      r, next := b, first;
      for i := 0 to |b|
        invariant SameButTickets(r, b) && next == first + i
        invariant forall j :: 0 <= j < i ==> r[j].ticket == first + j
      {
        r := r[i := r[i].(ticket := next)];
        next := next + 1;
      }
    }

    /** Tickets for every entry, in no particular order of buckets. */
    static method NumberAll(read: Buckets) returns (q: Buckets, next: nat)
      ensures q.Keys == read.Keys && next > 0
      ensures forall k :: k in q ==> SameButTickets(q[k], read[k])
      ensures FreshTickets(Pool(q), next)
    {
      q, next := read, 1;
      var todo := q.Keys;
      while todo != {}
        invariant next > 0 && todo <= q.Keys && q.Keys == read.Keys
        invariant forall k :: k in q ==> SameButTickets(q[k], read[k])
        invariant NumberedApart(q, q.Keys - todo, next)
        decreases todo
      {
        var k :| k in todo;
        ghost var first, before, done := next, q, q.Keys - todo;
        var b: seq<Entry>;
        b, next := NumberBucket(q[k], next);
        q := q[k := b];
        todo := todo - {k};
        NumberOneMore(before, done, first, k, b, next);
        assert q.Keys - todo == done + {k};
      }
      NumberedFresh(q, next);
    }

    constructor Load(table: map<nat, Row>)
      ensures Loaded(table, St()) && globalLimit == 4096
    {
      var ids := Ascending(table.Keys);
      var read := ReadRows(table, ids);
      var q, next := NumberAll(read);
      NumberedStillRead(read, q, table, ids);
      queue, held, nextPage, nextTicket, inFlight := q, map[], 1, next, {};
      rows, globalLimit := table, LOADED_GLOBAL_LIMIT;
    }

    // -- Enqueue --------------------------------------------------------------

    /** The id SQLite gives an inserted row: one above every row's. */
    static method InsertedId(table: map<nat, Row>) returns (id: nat)
      ensures AboveEveryRow(table, id)
    {
      var todo := table.Keys;
      id := 1;
      while todo != {}
        invariant id > 0 && todo <= table.Keys
        invariant forall k :: k in table && k !in todo ==> k < id
        decreases todo
      {
        var k :| k in todo;
        if k >= id { id := k + 1; }
        todo := todo - {k};
      }
    }

    method TotalLength() returns (n: nat)
      ensures n == TotalLen(St())
    {
      n := 0;
      var buckets := queue;
      while buckets != map[]
        invariant n + |Pool(buckets)| == |Pool(queue)|
        decreases buckets.Keys
      {
        var k :| k in buckets;
        PoolSplit(buckets, k);
        TagMembers(k, buckets[k]);
        n := n + |buckets[k]|;
        buckets := buckets - {k};
      }
      var pages := held;
      while pages != map[]
        invariant n + |HeldPool(pages)| == |Pool(queue)| + |HeldPool(held)|
        decreases pages.Keys
      {
        var p :| p in pages;
        HeldSplit(pages, p);
        TagMembers(pages[p].subscriber, pages[p].blobs);
        n := n + |pages[p].blobs|;
        pages := pages - {p};
      }
    }

    method PopOldestOfFullest() returns (r: Option<(Bytes, Entry)>)
      modifies this`queue
      ensures r.None? ==> AllEmpty(old(queue)) && queue == old(queue)
      ensures r.Some? ==> Fullest(old(queue), r.value.0) && r.value.1 == old(queue)[r.value.0][0] &&
                          queue == SetBucket(old(queue), r.value.0, old(queue)[r.value.0][1..])
    {
      var todo := queue.Keys;
      var best: Option<Bytes> := None;
      while todo != {}
        invariant todo <= queue.Keys
        invariant best.None? ==> forall k :: k in queue && k !in todo ==> queue[k] == []
        invariant best.Some? ==> best.value in queue && queue[best.value] != []
        invariant best.Some? ==> forall k :: k in queue && k !in todo && queue[k] != [] ==>
                    NotFuller(queue, k, best.value)
        decreases todo
      {
        var k :| k in todo;
        if queue[k] != [] {
          if best.None? || |queue[k]| > |queue[best.value]| ||
             (|queue[k]| == |queue[best.value]| && queue[k][0].enqueuedAt <= queue[best.value][0].enqueuedAt)
          {
            best := Some(k);
          }
        }
        todo := todo - {k};
      }
      match best
      case None => r := None;
      case Some(v) =>
        r := Some((v, queue[v][0]));
        var b := queue[v][1..];
        if b == [] { queue := queue - {v}; } else { queue := queue[v := b]; }
    }

    /** Make room: the subscriber's own front entry when its bucket is full,
        the fullest bucket's at the global limit. */
    method MakeRoom(subscriber: Bytes, limit: nat) returns (o: Outcome, evicted: Option<Entry>)
      modifies this`queue
      ensures Allowed(old(St()), subscriber, limit, o)
      ensures queue == QueueAfterRoom(old(St()), subscriber, o)
      ensures evicted == match Victim(subscriber, o) { case None => None case Some(v) => Some(old(queue)[v][0]) }
    {
      if BucketFull(queue, subscriber, limit) {
        var b := queue[subscriber];
        evicted, o := Some(b[0]), QueuedEvictingOldest(b[0].channel);
        queue := queue[subscriber := b[1..]];
      } else {
        var total := TotalLength();
        evicted, o := None, Queued;
        if total >= globalLimit {
          var popped := PopOldestOfFullest();
          match popped
          case None => o := RefusedGlobalLimit;
          case Some(victim) => evicted, o := Some(victim.1), QueuedEvictingFullest(victim.0, victim.1.channel);
        }
      }
    }

    /** `id` names the row the entry went to. */
    method Enqueue(subscriber: Bytes, channel: Bytes, blob: Bytes, limit: nat, now: real)
      returns (o: Outcome, ghost id: nat)
      modifies this
      ensures Allowed(old(St()), subscriber, limit, o)
      ensures o != RefusedGlobalLimit ==> AboveEveryRow(Evict(old(St()), Victim(subscriber, o)).rows, id)
      ensures St() == QueueState.Enqueue(old(St()), subscriber, channel, blob, now, id, o)
    {
      ghost var s := St();
      id := 0;
      var evicted;
      o, evicted := MakeRoom(subscriber, limit);
      if o == RefusedGlobalLimit { return; }
      RoomMade(s, subscriber, o, evicted);
      id := Store(evicted, subscriber, channel, blob, now);
      Inserted(s, subscriber, channel, blob, now, id, o);
    }

    /** The new row, and the entry to the back of its bucket. */
    method Store(evicted: Option<Entry>, subscriber: Bytes, channel: Bytes, blob: Bytes, now: real)
      returns (ghost id: nat)
      modifies this
      ensures var left := if evicted.Some? then old(rows) - {evicted.value.id} else old(rows);
              AboveEveryRow(left, id) && rows == left[id := Row(subscriber, channel, blob, now)]
      ensures queue == old(queue)[subscriber := Bucket(old(queue), subscriber) +
                                  [Entry(channel, blob, now, id, old(nextTicket))]]
      ensures nextTicket == old(nextTicket) + 1
      ensures held == old(held) && nextPage == old(nextPage) && inFlight == old(inFlight) &&
              globalLimit == old(globalLimit)
    {
      var rowId := StoreRow(evicted, Row(subscriber, channel, blob, now));
      id := rowId;
      var ticket := nextTicket;
      nextTicket := nextTicket + 1;
      var bucket := if subscriber in queue then queue[subscriber] else [];
      queue := queue[subscriber := bucket + [Entry(channel, blob, now, rowId, ticket)]];
    }

    /** One transaction: the evicted entry's row goes, the new one comes. */
    method StoreRow(evicted: Option<Entry>, row: Row) returns (id: nat)
      modifies this`rows
      ensures var left := if evicted.Some? then old(rows) - {evicted.value.id} else old(rows);
              AboveEveryRow(left, id) && rows == left[id := row]
    {
      var left := if evicted.Some? then rows - {evicted.value.id} else rows;
      id := InsertedId(left);
      rows := left[id := row];
    }

    /** Every blob is offered once, in order, and the tally counts the outcomes.
        It is the real change: each is queued or refused, and the queue grew by
        what was queued less what was evicted. */
    method EnqueueAll(subscriber: Bytes, blobs: seq<(Bytes, Bytes)>, limit: nat, now: real)
      returns (tally: Tally, ghost es: seq<Event>)
      modifies this
      ensures Leads(old(St()), es, St()) && Offers(es, subscriber, blobs, limit, now) && tally == Tallied(es)
      ensures held == old(held) && globalLimit == old(globalLimit)
      ensures tally.queued + tally.refused == |blobs|
      ensures TotalLen(St()) == TotalLen(old(St())) + tally.queued - tally.evicted - tally.evictedFullest
      ensures OnlyBrings(old(St()), St(), RoutedTo(subscriber, blobs))
      ensures old(Valid()) ==> Valid()
    {
      tally, es := Tally(0, 0, 0, 0), [];
      ghost var s := St();
      for i := 0 to |blobs|
        invariant Leads(s, es, St()) && |es| == i && Offers(es, subscriber, blobs[..i], limit, now) &&
                  tally == Tallied(es)
      {
        ghost var m := St();
        var o, id := Enqueue(subscriber, blobs[i].0, blobs[i].1, limit, now);
        ghost var e := Enqueued(subscriber, blobs[i].0, blobs[i].1, limit, now, id, o);
        OfferMade(s, es, m, e, St(), subscriber, blobs, limit, now);
        tally := Count(tally, o);
        es := es + [e];
      }
      assert blobs[..|blobs|] == blobs;
      BatchDone(s, es, St(), subscriber, blobs, limit, now);
    }

    // -- Drains ---------------------------------------------------------------

    method DeleteRows(removed: seq<Entry>)
      modifies this`rows
      ensures rows == QueueState.DeleteRows(old(rows), removed)
    {
      for i := 0 to |removed|
        invariant rows == old(rows) - Ids(removed[..i])
      {
        rows := rows - {removed[i].id};
        assert removed[..i + 1] == removed[..i] + [removed[i]];
        assert Ids(removed[..i + 1]) == Ids(removed[..i]) + {removed[i].id};
      }
      assert removed[..|removed|] == removed;
    }

    method Drain(subscriber: Bytes) returns (removed: seq<Entry>)
      modifies this
      ensures (St(), removed) == QueueState.Drain(old(St()), subscriber)
    {
      removed := [];
      if subscriber in queue {
        removed := queue[subscriber];
        queue := queue - {subscriber};
      }
      if removed != [] { DeleteRows(removed); }
      assert queue == old(queue) - {subscriber};
      assert rows == QueueState.DeleteRows(old(rows), removed);
    }

    method DrainBatch(subscriber: Bytes, max: nat) returns (removed: seq<Entry>)
      modifies this
      ensures (St(), removed) == QueueState.DrainBatch(old(St()), subscriber, max)
    {
      removed := [];
      if subscriber in queue {
        var b := queue[subscriber];
        var n := Min(|b|, max);
        removed := b[..n];
        queue := queue[subscriber := b[n..]];
        if n == |b| { queue := queue - {subscriber}; }
      }
      if removed != [] { DeleteRows(removed); }
      assert queue == QueueState.DrainBatch(old(St()), subscriber, max).0.queue;
      assert rows == QueueState.DeleteRows(old(rows), removed);
    }

    /** Pop the bucket through, the first `max` admitted entries to one side. */
    static method Split(b: seq<Entry>, w: Wanted, max: nat) returns (removed: seq<Entry>, kept: seq<Entry>)
      ensures var n := Min(|Select(b, w)|, max);
              removed == Select(b, w)[..n] && kept == DropWanted(b, w, n)
    {
      var rest := b;
      removed, kept := [], [];
      while rest != []
        invariant Splitting(b, w, max, removed, kept, rest)
        decreases |rest|
      {
        var entry := rest[0];
        assert rest == [entry] + rest[1..];
        rest := rest[1..];
        if |removed| < max && w(entry.channel) {
          SplitOff(b, w, max, removed, kept, entry, rest);
          removed := removed + [entry];
        } else {
          SplitKept(b, w, max, removed, kept, entry, rest);
          kept := kept + [entry];
        }
      }
      assert removed + [] == removed && kept + [] == kept;
    }

    method DrainMatching(subscriber: Bytes, w: Wanted, max: nat) returns (removed: seq<Entry>)
      modifies this
      ensures (St(), removed) == QueueState.DrainMatching(old(St()), subscriber, w, max)
    {
      removed := [];
      if subscriber in queue {
        var kept;
        removed, kept := Split(queue[subscriber], w, max);
        queue := queue[subscriber := kept];
        if kept == [] { queue := queue - {subscriber}; }
      }
      if removed != [] { DeleteRows(removed); }
      assert queue == QueueState.DrainMatching(old(St()), subscriber, w, max).0.queue;
      assert rows == QueueState.DeleteRows(old(rows), removed);
    }

    method DrainChannelBatch(subscriber: Bytes, channel: Bytes, max: nat) returns (removed: seq<Entry>)
      modifies this
      ensures (St(), removed) == QueueState.DrainMatching(old(St()), subscriber, Only(channel), max)
    {
      removed := DrainMatching(subscriber, Only(channel), max);
    }

    // -- Reads ----------------------------------------------------------------

    method CountMatching(subscriber: Bytes, routing: Bytes) returns (n: nat)
      ensures n == QueueState.CountMatching(St(), subscriber, routing)
    {
      n := 0;
      if subscriber in queue {
        var b := queue[subscriber];
        for i := 0 to |b|
          invariant n == |Select(b[..i], Only(routing))|
        {
          assert b[..i + 1] == b[..i] + [b[i]];
          SelectConcat(b[..i], [b[i]], Only(routing));
          if b[i].channel == routing { n := n + 1; }
        }
        assert b[..|b|] == b;
      }
    }

    method HasPendingMatching(subscriber: Bytes, w: Wanted) returns (r: bool)
      ensures r == Pending(queue, subscriber, w)
      ensures r <==> exists e :: e in Bucket(queue, subscriber) && w(e.channel)
    {
      SelectMembers(Bucket(queue, subscriber), w);
      if subscriber !in queue { return false; }
      var b := queue[subscriber];
      for i := 0 to |b|
        invariant forall j :: 0 <= j < i ==> !w(b[j].channel)
      {
        if w(b[i].channel) {
          assert b[i] in Select(b, w);
          return true;
        }
      }
      SelectNone(b, w);
      return false;
    }

    // -- Pages ----------------------------------------------------------------

    /** Pop the bucket through, one page of the admitted entries to one side. */
    static method SplitPage(b: seq<Entry>, w: Wanted, max: nat, budget: nat, cost: Cost)
      returns (taken: seq<Entry>, kept: seq<Entry>)
      ensures var n := PageCount(Select(b, w), max, budget, cost);
              taken == Select(b, w)[..n] && kept == DropWanted(b, w, n)
    {
      var rest := b;
      taken, kept := [], [];
      var spent: nat, full := 0, false;
      FillingStarts(b, w, max, budget, cost);
      while rest != []
        invariant Filling(b, w, max, budget, cost, taken, kept, rest, spent, full)
        decreases |rest|
      {
        taken, kept, spent, full := PlaceFirst(b, w, max, budget, cost, taken, kept, rest, spent, full);
        rest := rest[1..];
      }
      Filled(b, w, max, budget, cost, taken, kept, spent, full);
    }

    static method PlaceFirst(ghost b: seq<Entry>, w: Wanted, max: nat, budget: nat, cost: Cost, taken: seq<Entry>,
                             kept: seq<Entry>, rest: seq<Entry>, spent: nat, full: bool)
      returns (taken': seq<Entry>, kept': seq<Entry>, spent': nat, full': bool)
      requires rest != [] && Filling(b, w, max, budget, cost, taken, kept, rest, spent, full)
      ensures Filling(b, w, max, budget, cost, taken', kept', rest[1..], spent', full')
    {
      assert rest == [rest[0]] + rest[1..];
      taken', kept', spent', full' := PlaceEntry(b, w, max, budget, cost, taken, kept, rest[0], rest[1..], spent, full);
    }

    /** Where one entry popped goes: into the page while it has room, else
        kept; the first that does not fit ends the page. */
    static method PlaceEntry(ghost b: seq<Entry>, w: Wanted, max: nat, budget: nat, cost: Cost, taken: seq<Entry>,
                             kept: seq<Entry>, entry: Entry, ghost rest: seq<Entry>, spent: nat, full: bool)
      returns (taken': seq<Entry>, kept': seq<Entry>, spent': nat, full': bool)
      requires Filling(b, w, max, budget, cost, taken, kept, [entry] + rest, spent, full)
      ensures Filling(b, w, max, budget, cost, taken', kept', rest, spent', full')
    {
      taken', kept', spent', full' := taken, kept + [entry], spent, full;
      if !full && |taken| < max && w(entry.channel) {
        var entryCost := cost(entry);
        if taken == [] || spent + entryCost <= budget {
          TakeIn(b, w, max, budget, cost, taken, kept, entry, rest, spent);
          return taken + [entry], kept, spent + entryCost, full;
        }
        NotFitting(b, w, max, budget, cost, taken, kept, entry, rest, spent);
        full' := true;
      } else {
        PassOver(b, w, max, budget, cost, taken, kept, entry, rest, spent, full);
      }
    }

    method TakePage(subscriber: Bytes, w: Wanted, max: nat, budget: nat, cost: Cost)
      returns (page: nat, blobs: seq<Entry>)
      modifies this
      ensures (St(), page, blobs) == QueueState.TakePage(old(St()), subscriber, w, max, budget, cost)
    {
      if subscriber !in queue {
        assert queue - {subscriber} == queue;
        return 0, [];
      }
      var taken, kept := SplitPage(queue[subscriber], w, max, budget, cost);
      queue := queue[subscriber := kept];
      if kept == [] { queue := queue - {subscriber}; }
      assert queue == SetBucket(old(queue), subscriber, kept);
      if taken == [] { return 0, []; }
      page, blobs := nextPage, taken;
      nextPage := nextPage + 1;
      held := held[page := HeldPage(subscriber, taken)];
    }

    method SettlePage(page: nat, proved: bool) returns (r: Option<(Bytes, nat)>)
      modifies this
      ensures (St(), r) == Settle(old(St()), page, proved)
    {
      if page !in held { return None; }
      var p := held[page];
      held := held - {page};
      if proved {
        DeleteRows(p.blobs);
      } else {
        var b := if p.subscriber in queue then queue[p.subscriber] else [];
        var i := |p.blobs|;
        while i > 0
          invariant 0 <= i <= |p.blobs|
          invariant b == p.blobs[i..] + Bucket(queue, p.subscriber)
        {
          i := i - 1;
          b := [p.blobs[i]] + b;
        }
        assert p.blobs[0..] == p.blobs;
        queue := queue[p.subscriber := b];
      }
      r := Some((p.subscriber, |p.blobs|));
    }

    // -- The announce flush ---------------------------------------------------

    method FlushCopies(subscriber: Bytes, w: Wanted) returns (copies: seq<Entry>)
      modifies this`inFlight
      ensures (St(), copies) == QueueState.FlushCopies(old(St()), subscriber, w)
    {
      copies := [];
      if subscriber !in queue {
        assert inFlight + Tickets([]) == inFlight;
        return;
      }
      var b := queue[subscriber];
      ghost var s := St();
      for i := 0 to |b|
        invariant inFlight == s.inFlight && copies == Idle(b[..i], w, inFlight)
      {
        assert b[..i + 1] == b[..i] + [b[i]];
        IdleConcat(b[..i], [b[i]], w, inFlight);
        if w(b[i].channel) && b[i].ticket !in inFlight { copies := copies + [b[i]]; }
      }
      assert b[..|b|] == b;
      inFlight := inFlight + Tickets(copies);
    }

    /** Where an entry ticketed `t` stands in `b`. */
    static method Position(b: seq<Entry>, t: nat) returns (at: Option<nat>)
      ensures at.None? ==> t !in Tickets(b)
      ensures at.Some? ==> at.value < |b| && b[at.value].ticket == t
    {
      for i := 0 to |b|
        invariant forall j :: 0 <= j < i ==> b[j].ticket != t
      {
        if b[i].ticket == t { return Some(i); }
      }
      return None;
    }

    method Confirm(subscriber: Bytes, t: nat) returns (stored: bool)
      requires TicketsApart(St(), subscriber)
      modifies this
      ensures (St(), stored) == QueueState.Confirm(old(St()), subscriber, t)
    {
      ghost var s := St();
      inFlight := inFlight - {t};
      var b := if subscriber in queue then queue[subscriber] else [];
      var at := Position(b, t);
      if at.Some? {
        ConfirmFoundInBucket(s, subscriber, at.value);
        RemoveAt(subscriber, at.value);
        DeleteRow(b[at.value].id);
        return true;
      }
      if subscriber in queue && b == [] { queue := queue - {subscriber}; }
      stored := ConfirmHeld(s, subscriber, t);
    }

    method RemoveAt(subscriber: Bytes, i: nat)
      requires subscriber in queue && i < |queue[subscriber]|
      modifies this`queue
      ensures queue == SetBucket(old(queue), subscriber, old(queue)[subscriber][..i] + old(queue)[subscriber][i + 1..])
    {
      var b := queue[subscriber][..i] + queue[subscriber][i + 1..];
      if b == [] { queue := queue - {subscriber}; } else { queue := queue[subscriber := b]; }
    }

    method DeleteRow(id: nat)
      modifies this`rows
      ensures rows == old(rows) - {id}
    {
      rows := rows - {id};
    }

    /** The rest of a confirm whose ticket is in no bucket: look through the
        pages the subscriber's pulls hold. */
    method ConfirmHeld(ghost s: State, subscriber: Bytes, t: nat) returns (stored: bool)
      requires TicketsApart(s, subscriber) && t !in Tickets(Bucket(s.queue, subscriber))
      requires queue == SetBucket(s.queue, subscriber, Bucket(s.queue, subscriber)) && inFlight == s.inFlight - {t}
      requires held == s.held && rows == s.rows
      requires nextPage == s.nextPage && nextTicket == s.nextTicket && globalLimit == s.globalLimit
      modifies this`held, this`rows
      ensures (St(), stored) == QueueState.Confirm(s, subscriber, t)
    {
      var todo := held.Keys;
      while todo != {}
        invariant todo <= held.Keys && held == s.held && rows == s.rows
        invariant forall p :: p in held && p !in todo && held[p].subscriber == subscriber ==>
                    t !in Tickets(held[p].blobs)
        decreases todo
      {
        var p :| p in todo;
        if held[p].subscriber == subscriber {
          var c := held[p].blobs;
          var at := Position(c, t);
          if at.Some? {
            var i := at.value;
            ConfirmFoundInPage(s, subscriber, p, i);
            held := held[p := HeldPage(subscriber, c[..i] + c[i + 1..])];
            DeleteRow(c[i].id);
            return true;
          }
        }
        todo := todo - {p};
      }
      ConfirmNowhere(s, subscriber, t);
      return false;
    }

    /** Says whether the entry still waits in its bucket. */
    method Release(subscriber: Bytes, t: nat) returns (waiting: bool)
      modifies this`inFlight
      ensures St() == QueueState.Release(old(St()), t)
      ensures waiting <==> t in Tickets(Bucket(queue, subscriber))
    {
      inFlight := inFlight - {t};
      if subscriber !in queue { return false; }
      var at := Position(queue[subscriber], t);
      waiting := at.Some?;
    }

    // -- Expiry ---------------------------------------------------------------

    /** Retain one bucket's young entries, counting the others. */
    static method Retain(b: seq<Entry>, subscriber: Bytes, threshold: real, counts: seq<Expired>, evicted: seq<Entry>)
      returns (kept: seq<Entry>, counts': seq<Expired>, evicted': seq<Entry>)
      requires Ordered(counts) && Positive(counts)
      ensures kept == Young(b, threshold) && evicted' == evicted + Old(b, threshold)
      ensures Ordered(counts') && Positive(counts')
      ensures Sum(counts') == Sum(counts) + |Old(b, threshold)|
      ensures Counted(counts, counts', subscriber, b, threshold)
    {
      kept, counts', evicted' := [], counts, evicted;
      for i := 0 to |b|
        invariant kept == Young(b[..i], threshold) && evicted' == evicted + Old(b[..i], threshold)
        invariant Ordered(counts') && Positive(counts')
        invariant Sum(counts') == Sum(counts) + |Old(b[..i], threshold)|
        invariant Counted(counts, counts', subscriber, b[..i], threshold)
      {
        var e := b[i];
        assert b[..i + 1] == b[..i] + [e];
        AgeConcat(b[..i], [e], threshold);
        CountedMore(counts, counts', subscriber, b[..i], e, threshold);
        if e.enqueuedAt >= threshold {
          kept := kept + [e];
        } else {
          BumpCounts(counts', subscriber, e.channel);
          BumpOrdered(counts', subscriber, e.channel);
          assert Old([e], threshold) == [e] && Young([e], threshold) == [];
          counts' := Bump(counts', subscriber, e.channel);
          evicted' := evicted' + [e];
        }
      }
      assert b[..|b|] == b;
    }

    /** The report of an expiry: one count per subscriber and routing hash that
        lost something, in strictly ascending order of the two, each the exact
        number lost; together they are all the queue lost. */
    method EvictExpired(threshold: real) returns (report: seq<Expired>)
      modifies this`queue, this`rows
      ensures St() == Expire(old(St()), threshold)
      ensures Reports(report, old(queue), threshold)
      ensures Sum(report) == TotalLen(old(St())) - TotalLen(St())
    {
      ghost var s := St();
      var evicted: seq<Entry>;
      report, evicted := RetainAll(threshold);
      // Remove the emptied buckets.
      OnlyYoungLeft(s.queue, queue, threshold);
      queue := Occupied(queue);
      DeleteRows(evicted);
      assert St() == Expire(s, threshold);
      ExpiredSum(s, threshold, report);
    }

    method RetainAll(threshold: real) returns (report: seq<Expired>, evicted: seq<Entry>)
      modifies this`queue
      ensures queue.Keys == old(queue).Keys && forall k :: k in queue ==> queue[k] == Young(old(queue)[k], threshold)
      ensures Ids(evicted) == OldIds(old(queue), threshold)
      ensures Reports(report, old(queue), threshold)
    {
      ghost var q := queue;
      ghost var done: Buckets := map[];
      report, evicted := [], [];
      var todo := queue.Keys;
      while todo != {}
        invariant todo <= q.Keys && RetainedBuckets(q, queue, done, todo, threshold)
        invariant RetainedReport(done, evicted, report, threshold)
        decreases todo
      {
        var k :| k in todo;
        ghost var before, evictedBefore := report, evicted;
        var kept;
        kept, report, evicted := Retain(queue[k], k, threshold, report, evicted);
        RetainBucket(q, queue, done, todo, threshold, k);
        RetainReport(done, evictedBefore, before, threshold, k, q[k], evicted, report);
        done := done[k := q[k]];
        queue := queue[k := kept];
        todo := todo - {k};
      }
      assert done == q;
    }
  }
}
