/** What each operation does to each subscriber's bucket, to the pages and to
    the table, entry by entry. */
module Effects {
  import opened Octets
  import opened Entries
  import opened QueueState
  import opened QueueInvariant
  import opened QueueRuns
  import opened QueueSafety
  import opened Selections
  import opened Filters

  // -- Enqueue ----------------------------------------------------------------

  /** The outcome is decided by the bucket's length against its limit first,
      then by the queue's against its own, then by what may be evicted. */
  lemma OutcomeExact(s: State, k: Bytes, limit: nat, o: Outcome)
    requires Allowed(s, k, limit, o)
    ensures var b, room := Bucket(s.queue, k), TotalLen(s) < s.globalLimit;
            var full := b != [] && |b| >= limit;
            (o.QueuedEvictingOldest? <==> full) && (o.Queued? <==> !full && room) &&
            (o.RefusedGlobalLimit? <==> !full && !room && forall u :: Bucket(s.queue, u) == []) &&
            (o.QueuedEvictingFullest? <==> !full && !room && exists u :: Bucket(s.queue, u) != [])
  {
    if o.QueuedEvictingFullest? {
      assert Bucket(s.queue, o.evictedSubscriber) != [];
    }
  }

  /** What it names as evicted is the front of a bucket: the subscriber's own,
      or one than which none is longer and, of those as long, none has an older
      front. */
  lemma VictimExact(s: State, k: Bytes, limit: nat, o: Outcome)
    requires Allowed(s, k, limit, o)
    ensures o.QueuedEvictingOldest? ==> o.evictedRouting == Bucket(s.queue, k)[0].channel
    ensures o.QueuedEvictingFullest? ==>
              var b := Bucket(s.queue, o.evictedSubscriber);
              b != [] && o.evictedRouting == b[0].channel &&
              forall u :: |Bucket(s.queue, u)| <= |b| &&
                          (|Bucket(s.queue, u)| == |b| ==> b[0].enqueuedAt <= Bucket(s.queue, u)[0].enqueuedAt)
  {
    if o.QueuedEvictingFullest? {
      var v := o.evictedSubscriber;
      forall u
        ensures |Bucket(s.queue, u)| <= |s.queue[v]|
        ensures |Bucket(s.queue, u)| == |s.queue[v]| ==>
                  s.queue[v][0].enqueuedAt <= Bucket(s.queue, u)[0].enqueuedAt
      {
        if Bucket(s.queue, u) != [] {
          assert NotFuller(s.queue, u, v);
        }
      }
    }
  }

  /** A blob queued stands last in its subscriber's bucket with a ticket and a
      row of its own; what was evicted is its bucket's front, with its row; no
      other bucket, no page and no flight changes. */
  lemma EnqueueExact(s: State, k: Bytes, c: Bytes, blob: Bytes, limit: nat, now: real, id: nat, o: Outcome)
    requires Allowed(s, k, limit, o)
    ensures var s' := Enqueue(s, k, c, blob, now, id, o);
            var x := Entry(c, blob, now, id, s.nextTicket);
            match o
            case RefusedGlobalLimit => s' == s
            case Queued =>
              (forall u :: Bucket(s'.queue, u) == Bucket(s.queue, u) + if u == k then [x] else []) &&
              s'.rows == s.rows[id := Row(k, c, blob, now)]
            case QueuedEvictingOldest(_) =>
              var b := Bucket(s.queue, k);
              Bucket(s'.queue, k) == b[1..] + [x] &&
              (forall u :: u != k ==> Bucket(s'.queue, u) == Bucket(s.queue, u)) &&
              s'.rows == (s.rows - {b[0].id})[id := Row(k, c, blob, now)]
            case QueuedEvictingFullest(v, _) =>
              var b := Bucket(s.queue, v);
              Bucket(s'.queue, v) == b[1..] + (if v == k then [x] else []) &&
              (forall u :: u != v ==> Bucket(s'.queue, u) == Bucket(s.queue, u) + if u == k then [x] else []) &&
              s'.rows == (s.rows - {b[0].id})[id := Row(k, c, blob, now)]
    ensures var s' := Enqueue(s, k, c, blob, now, id, o);
            s'.held == s.held && s'.inFlight == s.inFlight && s'.nextPage == s.nextPage &&
            s'.globalLimit == s.globalLimit && s'.nextTicket == s.nextTicket + if o == RefusedGlobalLimit then 0 else 1
  {}

  /** With room in the bucket and in the queue nothing is lost. */
  lemma RoomLosesNothing(s: State, e: Event, s': State)
    requires Step(s, e, s') && e.Enqueued?
    requires |Bucket(s.queue, e.subscriber)| < e.limit && TotalLen(s) < s.globalLimit
    ensures e.outcome == Queued && Gone(s, e) == multiset{}
    ensures Bucket(s'.queue, e.subscriber) ==
            Bucket(s.queue, e.subscriber) + [Entry(e.channel, e.blob, e.now, e.id, s.nextTicket)]
    ensures forall u :: u != e.subscriber ==> Bucket(s'.queue, u) == Bucket(s.queue, u)
    ensures s'.rows == s.rows[e.id := Row(e.subscriber, e.channel, e.blob, e.now)]
  {
    OutcomeExact(s, e.subscriber, e.limit, e.outcome);
    EnqueueExact(s, e.subscriber, e.channel, e.blob, e.limit, e.now, e.id, e.outcome);
  }

  /** The queue is as long as its table. */
  lemma LengthIsRows(s: State)
    requires Inv(s)
    ensures TotalLen(s) == |s.rows|
  {
    RowsCountStored(Stored(s), s.rows, s.nextTicket);
  }

  // -- Drains and pages -------------------------------------------------------

  /** `taken` leaves the bucket of `k`, which is left with `kept`, and its rows
      leave the table; no other bucket, no page and no flight changes. */
  ghost predicate TakesOut(s: State, s': State, k: Bytes, taken: seq<Entry>, kept: seq<Entry>) {
    (forall u :: Bucket(s'.queue, u) == if u == k then kept else Bucket(s.queue, u)) &&
    s'.rows == s.rows - (set e | e in taken :: e.id) &&
    s'.held == s.held && s'.inFlight == s.inFlight && s'.nextPage == s.nextPage &&
    s'.nextTicket == s.nextTicket && s'.globalLimit == s.globalLimit
  }

  lemma DrainExact(s: State, k: Bytes)
    ensures TakesOut(s, Drain(s, k).0, k, Bucket(s.queue, k), []) && Drain(s, k).1 == Bucket(s.queue, k)
  {}

  lemma DrainBatchExact(s: State, k: Bytes, max: nat)
    ensures var b := Bucket(s.queue, k);
            var n := if max < |b| then max else |b|;
            TakesOut(s, DrainBatch(s, k, max).0, k, b[..n], b[n..]) && DrainBatch(s, k, max).1 == b[..n]
  {}

  /** The first `max` wanted entries, all of them if there are no more. What
      stays is the unwanted of the bucket's front, then the rest untouched. */
  lemma DrainMatchingExact(s: State, k: Bytes, w: Wanted, max: nat) returns (m: nat)
    ensures var b, (s', removed) := Bucket(s.queue, k), DrainMatching(s, k, w, max);
            m <= |b| && removed == Select(b[..m], w) && |removed| <= max &&
            (|removed| < max ==> removed == Select(b, w)) &&
            TakesOut(s, s', k, removed, Select(b[..m], Not(w)) + b[m..])
  {
    var b := Bucket(s.queue, k);
    var all := Select(b, w);
    m := DropWantedSplits(b, w, Min(|all|, max));
    assert all[..|all|] == all;
  }

  /** A page takes the front of what is wanted, as much as count and budget
      allow, out of the bucket and into a page of its own; no row leaves. */
  lemma TakePageExact(s: State, k: Bytes, w: Wanted, max: nat, budget: nat, cost: Cost) returns (m: nat)
    ensures var b, (s', page, blobs) := Bucket(s.queue, k), TakePage(s, k, w, max, budget, cost);
            m <= |b| && blobs == Select(b[..m], w) == Select(b, w)[..PageCount(Select(b, w), max, budget, cost)] &&
            (forall u :: Bucket(s'.queue, u) ==
                         if u == k then Select(b[..m], Not(w)) + b[m..] else Bucket(s.queue, u)) &&
            s'.rows == s.rows && s'.inFlight == s.inFlight && s'.nextTicket == s.nextTicket &&
            if blobs == [] then page == 0 && s'.held == s.held && s'.nextPage == s.nextPage
            else page == s.nextPage && s'.held == s.held[page := HeldPage(k, blobs)] && s'.nextPage == page + 1
  {
    var b := Bucket(s.queue, k);
    m := DropWantedSplits(b, w, PageCount(Select(b, w), max, budget, cost));
  }

  /** Proved, a page's rows go and nothing else; unproved, its entries stand in
      front of its subscriber's bucket and no row goes. Unknown, nothing. */
  lemma SettleExact(s: State, p: nat, proved: bool)
    ensures var (s', r) := Settle(s, p, proved);
            if p !in s.held then s' == s && r == None
            else
              var k, blobs := s.held[p].subscriber, s.held[p].blobs;
              r == Some((k, |blobs|)) && s'.held == s.held - {p} &&
              s'.inFlight == s.inFlight && s'.nextPage == s.nextPage && s'.nextTicket == s.nextTicket &&
              (forall u :: Bucket(s'.queue, u) ==
                           if u == k && !proved then blobs + Bucket(s.queue, u) else Bucket(s.queue, u)) &&
              s'.rows == if proved then s.rows - (set e | e in blobs :: e.id) else s.rows
  {}

  // -- Confirms and expiry ----------------------------------------------------

  /** The entry of that ticket, and no other, leaves its subscriber's bucket
      and pages, and its flight ends. */
  lemma ConfirmExact(s: State, k: Bytes, t: nat)
    ensures var (s', stored) := QueueState.Confirm(s, k, t);
            var other := (e: Entry) => e.ticket != t;
            (forall u :: Bucket(s'.queue, u) ==
                         if u == k then Chosen(Bucket(s.queue, u), other) else Bucket(s.queue, u)) &&
            s'.held.Keys == s.held.Keys && s'.inFlight == s.inFlight - {t} && s'.nextTicket == s.nextTicket &&
            (forall p :: p in s.held ==>
               s'.held[p].subscriber == s.held[p].subscriber &&
               s'.held[p].blobs ==
                 if s.held[p].subscriber == k then Chosen(s.held[p].blobs, other) else s.held[p].blobs)
  {
    var other := (e: Entry) => e.ticket != t;
    WithoutIsChosen(Bucket(s.queue, k), t);
    forall p | p in s.held
      ensures Without(s.held[p].blobs, t) == Chosen(s.held[p].blobs, other)
    {
      WithoutIsChosen(s.held[p].blobs, t);
    }
  }

  /** And the confirm says whether there was such an entry. */
  lemma ConfirmSays(s: State, k: Bytes, t: nat)
    ensures QueueState.Confirm(s, k, t).1 <==>
              t in Tickets(Bucket(s.queue, k)) ||
              exists p :: p in s.held && s.held[p].subscriber == k && t in Tickets(s.held[p].blobs)
  {
    var ids := RowsOfTicket(s, k, t);
    if e :| e in Bucket(s.queue, k) && e.ticket == t {
      assert e.id in ids;
    }
    if p :| p in s.held && s.held[p].subscriber == k && t in Tickets(s.held[p].blobs) {
      var e :| e in s.held[p].blobs && e.ticket == t;
      assert e.id in ids;
    }
    if ids != {} {
      var id :| id in ids;
    }
  }

  /** Whatever was enqueued before the threshold and stands in a bucket leaves
      with its row; the rest stay in order. */
  lemma ExpireExact(s: State, threshold: real)
    ensures var s' := Expire(s, threshold);
            (forall u :: Bucket(s'.queue, u) == Chosen(Bucket(s.queue, u), (e: Entry) => e.enqueuedAt >= threshold)) &&
            s'.held == s.held && s'.inFlight == s.inFlight && s'.nextTicket == s.nextTicket &&
            s'.rows == s.rows - (set k, e | k in s.queue && e in s.queue[k] && e.enqueuedAt < threshold :: e.id)
  {
    forall u
      ensures Bucket(Expire(s, threshold).queue, u) ==
              Chosen(Bucket(s.queue, u), (e: Entry) => e.enqueuedAt >= threshold)
    {
      YoungIsChosen(Bucket(s.queue, u), threshold);
    }
  }
}
