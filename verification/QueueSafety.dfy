/** Safety of the deferred queue over whole runs: what a ticket names, what the
    flush sends, how full the queue gets and whom an eviction hits. */
module QueueSafety {
  import opened Octets
  import opened Entries
  import opened QueueState
  import opened QueueInvariant
  import opened Conservation
  import opened QueueRuns

  /** No restart between states `i` and `j` of the run. */
  ghost predicate Unbroken(es: seq<Event>, i: nat, j: nat)
    requires i <= j <= |es|
  {
    forall m :: i <= m < j ==> !es[m].Restarted?
  }

  // -- Ticket identity --------------------------------------------------------

  lemma TicketsGrow(s: State, e: Event, s': State)
    requires Step(s, e, s') && !e.Restarted?
    ensures s.nextTicket <= s'.nextTicket
  {
    if e.Enqueued? {
      EvictLoses(s, Victim(e.subscriber, e.outcome));
    }
  }

  lemma AccountedTickets(s: State, e: Event, s': State)
    requires Accounts(s, e, s')
    ensures forall y :: y in Stored(s') ==> y in Stored(s) || y.entry.ticket == s.nextTicket
  {}

  lemma TicketsAt(ss: seq<State>, es: seq<Event>, n: nat)
    requires SoundRun(ss, es) && n < |es| && !es[n].Restarted?
    ensures ss[n].nextTicket <= ss[n + 1].nextTicket
    ensures forall y :: y in Stored(ss[n + 1]) ==> y in Stored(ss[n]) || y.entry.ticket == ss[n].nextTicket
  {
    RunAccounts(ss, es, n);
    StepFrom(ss, es, n);
    TicketsGrow(ss[n], es[n], ss[n + 1]);
    AccountedTickets(ss[n], es[n], ss[n + 1]);
  }

  /** What is stored later was stored before, or has a later ticket. */
  lemma {:induction false} StoredBeforeOrNewer(ss: seq<State>, es: seq<Event>, i: nat, j: nat)
    requires SoundRun(ss, es) && i <= j <= |es| && Unbroken(es, i, j)
    ensures ss[i].nextTicket <= ss[j].nextTicket
    ensures forall y :: y in Stored(ss[j]) ==> y in Stored(ss[i]) || y.entry.ticket >= ss[i].nextTicket
    decreases j
  {
    if i < j {
      StoredBeforeOrNewer(ss, es, i, j - 1);
      TicketsAt(ss, es, j - 1);
    }
  }

  /** While the process runs a ticket names one entry of one subscriber, though
      its row id may have named another since. */
  lemma TicketNamesOneEntry(ss: seq<State>, es: seq<Event>, i: nat, j: nat, x: Item, y: Item)
    requires SoundRun(ss, es) && i <= j <= |es| && Unbroken(es, i, j)
    requires x in Stored(ss[i]) && y in Stored(ss[j]) && x.entry.ticket == y.entry.ticket
    ensures x == y
  {
    StoredBeforeOrNewer(ss, es, i, j);
    assert InvAt(ss, i);
  }

  /** An entry that has left never comes back. */
  lemma GoneForGood(ss: seq<State>, es: seq<Event>, i: nat, j: nat, m: nat, x: Item)
    requires SoundRun(ss, es) && i <= j <= m <= |es| && Unbroken(es, i, m)
    requires x in Stored(ss[i]) && x !in Stored(ss[j])
    ensures forall y :: y in Stored(ss[m]) ==> y.entry.ticket != x.entry.ticket
  {
    assert InvAt(ss, i);
    StoredBeforeOrNewer(ss, es, i, j);
    StoredBeforeOrNewer(ss, es, j, m);
    forall y | y in Stored(ss[m])
      ensures y.entry.ticket != x.entry.ticket
    {
      if y.entry.ticket == x.entry.ticket {
        TicketNamesOneEntry(ss, es, i, m, x, y);
      }
    }
  }

  lemma NamedOnly(s: State, x: Item)
    requires forall y :: y in Stored(s) && y.entry.ticket == x.entry.ticket ==> y == x
    ensures TicketNamed(s, x.subscriber, x.entry.ticket) == if x in Stored(s) then {x} else {}
  {}

  lemma OnceGone(m: multiset<Item>, x: Item)
    requires x in m ==> m[x] == 1
    ensures x !in m - if x in m then multiset{x} else multiset{}
  {}

  lemma StoredOnce(s: State, x: Item)
    requires Inv(s) && x in Stored(s)
    ensures Stored(s)[x] == 1
  {}

  ghost function OnlyIfStored(s: State, x: Item): multiset<Item> {
    if x in Stored(s) then multiset{x} else multiset{}
  }

  lemma NamedOnce(s: State, x: Item, named: set<Item>)
    requires named == if x in Stored(s) then {x} else {}
    ensures multiset(named) == OnlyIfStored(s, x)
  {}

  lemma ConfirmsOnly(s: State, x: Item)
    requires ConfirmsNamed(s, x.subscriber, x.entry.ticket)
    requires TicketNamed(s, x.subscriber, x.entry.ticket) == if x in Stored(s) then {x} else {}
    ensures Loses(s, Confirm(s, x.subscriber, x.entry.ticket).0, OnlyIfStored(s, x))
    ensures Confirm(s, x.subscriber, x.entry.ticket).1 <==> x in Stored(s)
  {
    NamedOnce(s, x, TicketNamed(s, x.subscriber, x.entry.ticket));
  }

  lemma GoneOnConfirm(s: State, x: Item)
    requires TicketNamed(s, x.subscriber, x.entry.ticket) == if x in Stored(s) then {x} else {}
    ensures Gone(s, Confirmed(x.subscriber, x.entry.ticket)) == OnlyIfStored(s, x)
  {
    NamedOnce(s, x, TicketNamed(s, x.subscriber, x.entry.ticket));
  }

  /** A confirm of a ticket all of whose entries are `x`. */
  lemma ConfirmOf(s: State, x: Item)
    requires Inv(s)
    requires forall y :: y in Stored(s) && y.entry.ticket == x.entry.ticket ==> y == x
    ensures Gone(s, Confirmed(x.subscriber, x.entry.ticket)) == OnlyIfStored(s, x)
    ensures Loses(s, Confirm(s, x.subscriber, x.entry.ticket).0, OnlyIfStored(s, x))
    ensures Confirm(s, x.subscriber, x.entry.ticket).1 <==> x in Stored(s)
  {
    NamedOnly(s, x);
    ConfirmCases(s, x.subscriber, x.entry.ticket);
    GoneOnConfirm(s, x);
    ConfirmsOnly(s, x);
  }

  lemma ConfirmedLeaves(s: State, x: Item)
    requires Inv(s)
    requires forall y :: y in Stored(s) && y.entry.ticket == x.entry.ticket ==> y == x
    ensures x !in Stored(Confirm(s, x.subscriber, x.entry.ticket).0)
  {
    ConfirmOf(s, x);
    if x in Stored(s) {
      StoredOnce(s, x);
    }
    OnceGone(Stored(s), x);
  }

  lemma ConfirmAt(ss: seq<State>, es: seq<Event>, j: nat, x: Item)
    requires SoundRun(ss, es) && j < |es| && es[j] == Confirmed(x.subscriber, x.entry.ticket)
    requires forall y :: y in Stored(ss[j]) && y.entry.ticket == x.entry.ticket ==> y == x
    ensures Gone(ss[j], es[j]) == OnlyIfStored(ss[j], x)
    ensures Confirm(ss[j], x.subscriber, x.entry.ticket).1 <==> x in Stored(ss[j])
    ensures x !in Stored(ss[j + 1])
  {
    assert InvAt(ss, j);
    ConfirmOf(ss[j], x);
    ConfirmedLeaves(ss[j], x);
    StepFrom(ss, es, j);
  }

  lemma CopyIsStored(s: State, k: Bytes, w: Wanted, c: Entry)
    requires c in FlushCopies(s, k, w).1
    ensures Item(k, c) in Stored(s)
  {
    IdleMembers(Bucket(s.queue, k), w, s.inFlight);
    BucketStored(s, k, c);
  }

  lemma OnlyNamed(ss: seq<State>, es: seq<Event>, i: nat, j: nat, x: Item)
    requires SoundRun(ss, es) && i <= j <= |es| && Unbroken(es, i, j) && x in Stored(ss[i])
    ensures forall y :: y in Stored(ss[j]) && y.entry.ticket == x.entry.ticket ==> y == x
  {
    forall y | y in Stored(ss[j]) && y.entry.ticket == x.entry.ticket
      ensures y == x
    {
      TicketNamesOneEntry(ss, es, i, j, x, y);
    }
  }

  /** An entry stored at step `i` whose ticket is confirmed at step `j`: the
      confirm removes that very entry and nothing else, or nothing at all when
      it had left; and no later state of the process stores it. */
  lemma ConfirmTakesTheNamed(ss: seq<State>, es: seq<Event>, i: nat, j: nat, m: nat, x: Item)
    requires SoundRun(ss, es) && i <= j < m <= |es| && Unbroken(es, i, m) && x in Stored(ss[i])
    requires es[j] == Confirmed(x.subscriber, x.entry.ticket)
    ensures Gone(ss[j], es[j]) == OnlyIfStored(ss[j], x)
    ensures Confirm(ss[j], x.subscriber, x.entry.ticket).1 <==> x in Stored(ss[j])
    ensures forall y :: y in Stored(ss[m]) ==> y.entry.ticket != x.entry.ticket
  {
    OnlyNamed(ss, es, i, j, x);
    ConfirmAt(ss, es, j, x);
    GoneForGood(ss, es, i, j + 1, m, x);
  }

  /** So a copy the flush handed out names, until the process ends, the entry
      it was a copy of: its confirm takes that entry or nothing, even when the
      row id has been given to another since. */
  lemma ConfirmTakesTheCopied(ss: seq<State>, es: seq<Event>, i: nat, j: nat, m: nat, c: Entry)
    requires SoundRun(ss, es) && i < j < m <= |es| && Unbroken(es, i, m)
    requires es[i].Flushed? && c in FlushCopies(ss[i], es[i].subscriber, es[i].wanted).1
    requires es[j] == Confirmed(es[i].subscriber, c.ticket)
    ensures Gone(ss[j], es[j]) == OnlyIfStored(ss[j], Item(es[i].subscriber, c))
    ensures forall y :: y in Stored(ss[m]) ==> y.entry.ticket != c.ticket
  {
    CopyIsStored(ss[i], es[i].subscriber, es[i].wanted, c);
    ConfirmTakesTheNamed(ss, es, i, j, m, Item(es[i].subscriber, c));
  }

  // -- The flush --------------------------------------------------------------

  /** `e` ends the flight of `t`. */
  predicate Lands(e: Event, t: nat) {
    (e.Confirmed? || e.Released?) && e.ticket == t
  }

  lemma {:induction false} FlightLasts(ss: seq<State>, es: seq<Event>, i: nat, j: nat, t: nat)
    requires Run(ss, es) && i <= j <= |es| && Unbroken(es, i, j) && t in ss[i].inFlight
    requires forall m :: i <= m < j ==> !Lands(es[m], t)
    ensures t in ss[j].inFlight
    decreases j
  {
    if i < j {
      FlightLasts(ss, es, i, j - 1, t);
      StepFrom(ss, es, j - 1);
      FlightStep(ss[j - 1], es[j - 1], ss[j], t);
    }
  }

  lemma FlightStep(s: State, e: Event, s': State, t: nat)
    requires Step(s, e, s') && !e.Restarted? && !Lands(e, t) && t in s.inFlight
    ensures t in s'.inFlight
  {
    if e.Enqueued? {
      EvictLoses(s, Victim(e.subscriber, e.outcome));
    }
  }

  /** Two copies of one entry are never both unheard of: between them comes a
      confirm or a release of its ticket. */
  lemma NoSecondCopyInFlight(ss: seq<State>, es: seq<Event>, i: nat, j: nat, t: nat)
    requires Run(ss, es) && i < j < |es| && Unbroken(es, i, j)
    requires es[i].Flushed? && t in Tickets(FlushCopies(ss[i], es[i].subscriber, es[i].wanted).1)
    requires es[j].Flushed? && t in Tickets(FlushCopies(ss[j], es[j].subscriber, es[j].wanted).1)
    ensures exists m :: i < m < j && Lands(es[m], t)
  {
    StepFrom(ss, es, i);
    if forall m :: i < m < j ==> !Lands(es[m], t) {
      FlightLasts(ss, es, i + 1, j, t);
      IdleMembers(Bucket(ss[j].queue, es[j].subscriber), es[j].wanted, ss[j].inFlight);
      assert false;
    }
  }

  /** Flushing moves nothing: buckets, pages and rows stand as they were. */
  lemma FlushMovesNothing(s: State, k: Bytes, w: Wanted)
    ensures var (s', copies) := FlushCopies(s, k, w);
            s' == s.(inFlight := s'.inFlight) &&
            forall e :: e in copies <==> e in Bucket(s.queue, k) && w(e.channel) && e.ticket !in s.inFlight
  {
    IdleMembers(Bucket(s.queue, k), w, s.inFlight);
  }

  // -- Bounds and refusal -----------------------------------------------------

  lemma NothingPooled(q: Buckets)
    ensures AllEmpty(q) <==> |Pool(q)| == 0
  {
    PoolMembers(q);
    if AllEmpty(q) {
      assert forall x :: x !in Pool(q);
      assert Pool(q) == multiset{};
    } else {
      var k :| k in q && q[k] != [];
      assert Item(k, q[k][0]) in Pool(q);
    }
  }

  /** A blob is refused exactly when the limit is reached and everything stored
      is in a page some pull holds. */
  lemma RefusedExactly(s: State, k: Bytes, limit: nat, o: Outcome)
    requires Allowed(s, k, limit, o)
    ensures o == RefusedGlobalLimit <==> TotalLen(s) >= s.globalLimit && TotalLen(s) == HeldLen(s)
  {
    NothingPooled(s.queue);
    if BucketFull(s.queue, k, limit) || o.QueuedEvictingFullest? {
      assert !AllEmpty(s.queue);
    }
  }

  lemma CoherentLess(m: multiset<Item>, rows: map<nat, Row>, next: nat, x: Item)
    requires Coherent(m, rows, next) && x in m
    ensures Coherent(m - multiset{x}, rows - {x.entry.id}, next) && x.entry.id in rows
  {
    CoherentRemove(m, rows, next, multiset{x});
    assert ItemIds(multiset{x}) == {x.entry.id};
  }

  lemma {:induction false} RowsCountStored(m: multiset<Item>, rows: map<nat, Row>, next: nat)
    requires Coherent(m, rows, next)
    ensures |m| == |rows|
    decreases |m|
  {
    if m == multiset{} {
      assert forall id :: id !in rows;
    } else {
      var x :| x in m;
      var left := rows - {x.entry.id};
      CoherentLess(m, rows, next, x);
      RowsCountStored(m - multiset{x}, left, next);
      OneRowLess(rows, x.entry.id);
    }
  }

  lemma OneRowLess(rows: map<nat, Row>, id: nat)
    requires id in rows
    ensures |rows| == |rows - {id}| + 1
  {
    assert (rows - {id}).Keys == rows.Keys - {id};
    assert |rows.Keys| == |rows| && |(rows - {id}).Keys| == |rows - {id}|;
  }

  lemma RestartKeepsLength(s: State, s': State)
    requires Inv(s) && Loaded(s.rows, s')
    ensures TotalLen(s') == TotalLen(s)
  {
    LoadedKeepsInv(s, s');
    RowsCountStored(Stored(s), s.rows, s.nextTicket);
    RowsCountStored(Stored(s'), s'.rows, s'.nextTicket);
  }

  lemma EnqueueBounded(s: State, e: Event, s': State)
    requires e.Enqueued? && Step(s, e, s')
    ensures TotalLen(s') <= TotalLen(s) || TotalLen(s') <= s.globalLimit
  {
    EnqueueLength(s, e.subscriber, e.channel, e.blob, e.limit, e.now, e.id, e.outcome);
  }

  /** No step takes the queue past its limit, or further past it. */
  lemma StepBounded(s: State, e: Event, s': State)
    requires Inv(s) && Step(s, e, s')
    ensures TotalLen(s') <= TotalLen(s) || TotalLen(s') <= s.globalLimit
  {
    if e.Restarted? {
      RestartKeepsLength(s, s');
    } else if e.Enqueued? {
      EnqueueBounded(s, e, s');
    } else {
      StepLoses(s, e, s');
      LosesShrinks(s, s', Gone(s, e));
    }
  }

  lemma StepLimit(s: State, e: Event, s': State)
    requires Step(s, e, s') && s.globalLimit == LOADED_GLOBAL_LIMIT
    ensures s'.globalLimit == LOADED_GLOBAL_LIMIT
  {
    if e.Enqueued? {
      EvictLoses(s, Victim(e.subscriber, e.outcome));
    }
  }

  lemma RunStepBounded(ss: seq<State>, es: seq<Event>, i: nat)
    requires SoundRun(ss, es) && i < |es|
    ensures TotalLen(ss[i + 1]) <= TotalLen(ss[i]) || TotalLen(ss[i + 1]) <= ss[i].globalLimit
  {
    assert InvAt(ss, i);
    StepFrom(ss, es, i);
    StepBounded(ss[i], es[i], ss[i + 1]);
  }

  lemma {:induction false} LimitStands(ss: seq<State>, es: seq<Event>, n: nat)
    requires Run(ss, es) && n < |ss| && ss[0].globalLimit == LOADED_GLOBAL_LIMIT
    ensures ss[n].globalLimit == LOADED_GLOBAL_LIMIT
  {
    if n > 0 {
      LimitStands(ss, es, n - 1);
      StepFrom(ss, es, n - 1);
      StepLimit(ss[n - 1], es[n - 1], ss[n]);
    }
  }

  ghost predicate Within(ss: seq<State>, n: nat)
    requires 0 < |ss| && n < |ss|
  {
    TotalLen(ss[n]) <= TotalLen(ss[0]) || TotalLen(ss[n]) <= LOADED_GLOBAL_LIMIT
  }

  ghost predicate WithinUpTo(ss: seq<State>, n: nat)
    requires n < |ss|
  {
    forall i :: 0 <= i <= n ==> Within(ss, i)
  }

  lemma NextWithin(ss: seq<State>, es: seq<Event>, i: nat)
    requires SoundRun(ss, es) && i < |es| && ss[0].globalLimit == LOADED_GLOBAL_LIMIT && WithinUpTo(ss, i)
    ensures WithinUpTo(ss, i + 1)
  {
    LimitStands(ss, es, i);
    RunStepBounded(ss, es, i);
    assert Within(ss, i);
    assert Within(ss, i + 1);
  }

  /** Over any run the node's queue never stands above its 4096 entries, unless
      it was loaded so; then it never grows. */
  lemma {:induction false} RunBounded(ss: seq<State>, es: seq<Event>, n: nat)
    requires SoundRun(ss, es) && n < |ss| && ss[0].globalLimit == LOADED_GLOBAL_LIMIT
    ensures WithinUpTo(ss, n)
  {
    if n == 0 {
      assert Within(ss, 0);
    } else {
      RunBounded(ss, es, n - 1);
      NextWithin(ss, es, n - 1);
    }
  }

  lemma GoneFromBuckets(s: State, e: Event, x: Item)
    requires (e.Enqueued? || e.ExpiredBefore?) && x in Gone(s, e)
    ensures x in Pool(s.queue)
  {
    if e.ExpiredBefore? {
      OldMembers(s.queue, e.threshold);
    } else {
      var v := Victim(e.subscriber, e.outcome);
      TagMembers(v.value, [Bucket(s.queue, v.value)[0]]);
      PoolMembers(s.queue);
    }
  }

  /** Eviction and expiry take nothing out of a page a pull holds. */
  lemma HeldPagesAreSafe(s: State, e: Event, s': State)
    requires Inv(s) && Step(s, e, s') && (e.Enqueued? || e.ExpiredBefore?)
    ensures s'.held == s.held
    ensures forall x :: x in Gone(s, e) ==> x !in HeldPool(s.held)
  {
    PoolMembers(s.queue);
    forall x | x in Gone(s, e)
      ensures x in Pool(s.queue) && x !in HeldPool(s.held)
    {
      GoneFromBuckets(s, e, x);
      assert x in Stored(s);
    }
    if e.Enqueued? {
      EvictLoses(s, Victim(e.subscriber, e.outcome));
    }
  }

  // -- Fair eviction ----------------------------------------------------------

  ghost function NonEmpty(q: Buckets): set<Bytes> { set k | k in q && q[k] != [] }

  lemma TimesOneMore(a: nat, n: nat)
    ensures a * (n + 1) == a * n + a
  {}

  lemma NonEmptyMore(q: Buckets, k: Bytes)
    requires k in q
    ensures |NonEmpty(q)| == |NonEmpty(q - {k})| + if q[k] == [] then 0 else 1
  {
    var rest := NonEmpty(q - {k});
    assert k !in rest;
    if q[k] == [] {
      assert NonEmpty(q) == rest;
    } else {
      assert NonEmpty(q) == rest + {k};
    }
  }

  lemma {:induction false} Pigeonhole(q: Buckets, most: nat)
    requires forall k :: k in q ==> |q[k]| <= most
    ensures |Pool(q)| <= most * |NonEmpty(q)|
    decreases q.Keys
  {
    if q != map[] {
      var k :| k in q;
      Pigeonhole(q - {k}, most);
      PoolSplit(q, k);
      TagMembers(k, q[k]);
      TimesOneMore(most, |NonEmpty(q - {k})|);
      NonEmptyMore(q, k);
    }
  }

  /** At the global limit the victim's bucket is as long as any, its front
      entry no younger than those of its equals, and its length at least the
      average of what is not held; so a bucket below that average never is. */
  lemma FairEviction(s: State, k: Bytes, limit: nat, o: Outcome)
    requires Allowed(s, k, limit, o) && o.QueuedEvictingFullest?
    ensures Fullest(s.queue, o.evictedSubscriber)
    ensures |Bucket(s.queue, o.evictedSubscriber)| * |NonEmpty(s.queue)| >= s.globalLimit - HeldLen(s)
    ensures forall u :: |Bucket(s.queue, u)| * |NonEmpty(s.queue)| < s.globalLimit - HeldLen(s) ==>
              u != o.evictedSubscriber
  {
    Pigeonhole(s.queue, |s.queue[o.evictedSubscriber]|);
  }

  /** Over any run: a bucket below the average share loses nothing to another
      subscriber's enqueue. */
  lemma SmallBucketsSpared(ss: seq<State>, es: seq<Event>, i: nat, u: Bytes)
    requires Run(ss, es) && i < |es| && es[i].Enqueued? && es[i].subscriber != u
    requires |Bucket(ss[i].queue, u)| * |NonEmpty(ss[i].queue)| < ss[i].globalLimit - HeldLen(ss[i])
    ensures Bucket(ss[i + 1].queue, u) == Bucket(ss[i].queue, u)
  {
    StepFrom(ss, es, i);
    if es[i].outcome.QueuedEvictingFullest? {
      FairEviction(ss[i], es[i].subscriber, es[i].limit, es[i].outcome);
    }
  }
}
