/** Runs of the deferred queue: any interleaving of its operations, with a
    crash and a reload allowed between any two of them. */
module QueueRuns {
  import opened Octets
  import opened Entries
  import opened QueueState
  import opened QueueInvariant
  import opened Conservation

  datatype Event =
    | Enqueued(subscriber: Bytes, channel: Bytes, blob: Bytes, limit: nat, now: real, id: nat, outcome: Outcome)
    | Drained(subscriber: Bytes)
    | DrainedBatch(subscriber: Bytes, max: nat)
    | DrainedMatching(subscriber: Bytes, wanted: Wanted, max: nat)
    | Took(subscriber: Bytes, wanted: Wanted, max: nat, budget: nat, cost: Cost)
    | Settled(page: nat, proved: bool)
    | Flushed(subscriber: Bytes, wanted: Wanted)
    | Confirmed(subscriber: Bytes, ticket: nat)
    | Released(subscriber: Bytes, ticket: nat)
    | ExpiredBefore(threshold: real)
    | Restarted

  ghost predicate Step(s: State, e: Event, s': State) {
    match e
    case Enqueued(k, c, b, limit, now, id, o) =>
      Allowed(s, k, limit, o) && s' == Enqueue(s, k, c, b, now, id, o) &&
      (o != RefusedGlobalLimit ==> AboveEveryRow(Evict(s, Victim(k, o)).rows, id))
    case Drained(k) => s' == Drain(s, k).0
    case DrainedBatch(k, max) => s' == DrainBatch(s, k, max).0
    case DrainedMatching(k, w, max) => s' == DrainMatching(s, k, w, max).0
    case Took(k, w, max, budget, cost) => s' == TakePage(s, k, w, max, budget, cost).0
    case Settled(p, proved) => s' == Settle(s, p, proved).0
    case Flushed(k, w) => s' == FlushCopies(s, k, w).0
    case Confirmed(k, t) => s' == Confirm(s, k, t).0
    case Released(_, t) => s' == Release(s, t)
    case ExpiredBefore(threshold) => s' == Expire(s, threshold)
    case Restarted => Loaded(s.rows, s')
  }

  /** The states of a run, one more than its events. */
  ghost predicate Run(ss: seq<State>, es: seq<Event>) {
    |ss| == |es| + 1 && forall i :: 0 <= i < |es| ==> StepAt(ss, es, i)
  }

  ghost predicate StepAt(ss: seq<State>, es: seq<Event>, i: nat)
    requires |ss| == |es| + 1 && i < |es|
  {
    Step(ss[i], es[i], ss[i + 1])
  }

  // -- What an event removes for good -----------------------------------------

  /** The entries an event removes: evicted, drained, proved, confirmed or
      expired. */
  ghost function Gone(s: State, e: Event): multiset<Item> {
    match e
    case Enqueued(k, _, _, _, _, _, o) => Evicted(s, Victim(k, o))
    case Drained(k) => Items(k, Drain(s, k).1)
    case DrainedBatch(k, max) => Items(k, DrainBatch(s, k, max).1)
    case DrainedMatching(k, w, max) => Items(k, DrainMatching(s, k, w, max).1)
    case Settled(p, proved) => if proved && p in s.held then PageItems(s.held[p]) else multiset{}
    case Confirmed(k, t) => multiset(TicketNamed(s, k, t))
    case ExpiredBefore(threshold) => Pool(OldBuckets(s.queue, threshold))
    case _ => multiset{}
  }

  /** What an event adds. */
  ghost function Added(s: State, e: Event): multiset<Item> {
    if e.Enqueued? && e.outcome != RefusedGlobalLimit
    then multiset{Item(e.subscriber, Entry(e.channel, e.blob, e.now, e.id, s.nextTicket))}
    else multiset{}
  }

  /** Conservation: an event stores what it adds and loses what it removes, in
      memory and in the table alike. */
  ghost predicate Accounts(s: State, e: Event, s': State) {
    Gone(s, e) <= Stored(s) && Stored(s') == Stored(s) - Gone(s, e) + Added(s, e) &&
    s'.rows == RowsAfter(s, e)
  }

  ghost function RowsAfter(s: State, e: Event): map<nat, Row> {
    var left := s.rows - ItemIds(Gone(s, e));
    if e.Enqueued? && e.outcome != RefusedGlobalLimit
    then left[e.id := Row(e.subscriber, e.channel, e.blob, e.now)]
    else left
  }

  lemma EnqueueAccounts(s: State, e: Event, s': State)
    requires e.Enqueued? && s' == Enqueue(s, e.subscriber, e.channel, e.blob, e.now, e.id, e.outcome)
    ensures Accounts(s, e, s')
  {
    var v := Victim(e.subscriber, e.outcome);
    var m := Evict(s, v);
    EvictLoses(s, v);
    assert Gone(s, e) == Evicted(s, v);
    if e.outcome == RefusedGlobalLimit {
      assert s' == m;
    } else {
      AppendStores(m, e.subscriber, e.channel, e.blob, e.now, e.id);
      assert s' == Append(m, e.subscriber, e.channel, e.blob, e.now, e.id);
    }
  }

  lemma Unchanged(s: State, s': State)
    requires Stored(s') == Stored(s) && s'.rows == s.rows
    ensures Loses(s, s', multiset{})
  {
    assert ItemIds(multiset{}) == {};
  }

  lemma DrainsLose(s: State, e: Event, s': State)
    requires Step(s, e, s') && (e.Drained? || e.DrainedBatch? || e.DrainedMatching?)
    ensures Loses(s, s', Gone(s, e))
  {
    match e
    case Drained(k) => DrainLoses(s, k);
    case DrainedBatch(k, max) => DrainBatchLoses(s, k, max);
    case DrainedMatching(k, w, max) => DrainMatchingLoses(s, k, w, max);
  }

  lemma PagesLose(s: State, e: Event, s': State)
    requires s.nextPage !in s.held && Step(s, e, s') && (e.Took? || e.Settled?)
    ensures Loses(s, s', Gone(s, e))
  {
    match e
    case Took(k, w, max, budget, cost) =>
      TakePageStored(s, k, w, max, budget, cost);
      Unchanged(s, s');
    case Settled(p, proved) =>
      if p !in s.held {
        Unchanged(s, s');
      } else if proved {
        SettleProvedLoses(s, p);
      } else {
        SettleUnprovedStored(s, p);
        Unchanged(s, s');
      }
  }

  lemma QuietLoses(s: State, e: Event, s': State)
    requires Step(s, e, s') && (e.Flushed? || e.Released?)
    ensures Loses(s, s', Gone(s, e))
  {
    Unchanged(s, s');
  }

  lemma ConfirmLoses(s: State, e: Event, s': State)
    requires Inv(s) && Step(s, e, s') && e.Confirmed?
    ensures Loses(s, s', Gone(s, e))
  {
    ConfirmCases(s, e.subscriber, e.ticket);
  }

  lemma ExpiryLoses(s: State, e: Event, s': State)
    requires Step(s, e, s') && e.ExpiredBefore?
    ensures Loses(s, s', Gone(s, e))
  {
    ExpireStored(s, e.threshold);
  }

  /** An event that is neither an enqueue nor a restart loses exactly what it
      removes. */
  lemma StepLoses(s: State, e: Event, s': State)
    requires Inv(s) && Step(s, e, s') && !e.Enqueued? && !e.Restarted?
    ensures Loses(s, s', Gone(s, e))
  {
    if e.Took? || e.Settled? {
      PagesLose(s, e, s');
    } else if e.Flushed? || e.Released? {
      QuietLoses(s, e, s');
    } else if e.Confirmed? {
      ConfirmLoses(s, e, s');
    } else if e.ExpiredBefore? {
      ExpiryLoses(s, e, s');
    } else {
      DrainsLose(s, e, s');
    }
  }

  lemma LosesAccounts(s: State, e: Event, s': State)
    requires !e.Enqueued? && Loses(s, s', Gone(s, e))
    ensures Accounts(s, e, s')
  {
    assert Added(s, e) == multiset{};
  }

  /** Every step but a restart accounts for every entry. */
  lemma StepAccounts(s: State, e: Event, s': State)
    requires Inv(s) && Step(s, e, s') && !e.Restarted?
    ensures Accounts(s, e, s')
  {
    if e.Enqueued? {
      EnqueueAccounts(s, e, s');
    } else {
      StepLoses(s, e, s');
      LosesAccounts(s, e, s');
    }
  }

  lemma DrainsLeave(s: State, e: Event, s': State)
    requires Step(s, e, s') && (e.Drained? || e.DrainedBatch? || e.DrainedMatching?)
    ensures s' == s.(queue := s'.queue, rows := s'.rows)
  {}

  lemma LosesKeepsInv(s: State, s': State, gone: multiset<Item>)
    requires Inv(s) && Loses(s, s', gone) && s' == s.(queue := s'.queue, rows := s'.rows)
    ensures Inv(s')
  {
    LosesKeepsCoherent(s, s', gone);
  }

  lemma DrainsKeepInv(s: State, e: Event, s': State)
    requires Inv(s) && Step(s, e, s') && (e.Drained? || e.DrainedBatch? || e.DrainedMatching?)
    ensures Inv(s')
  {
    DrainsLose(s, e, s');
    DrainsLeave(s, e, s');
    LosesKeepsInv(s, s', Gone(s, e));
  }

  lemma PagesKeepInv(s: State, e: Event, s': State)
    requires Inv(s) && Step(s, e, s') && (e.Took? || e.Settled?)
    ensures Inv(s')
  {
    match e
    case Took(k, w, max, budget, cost) => TakePageConserves(s, k, w, max, budget, cost);
    case Settled(p, proved) => if p in s.held { SettleConserves(s, p, proved); }
  }

  lemma FlightsKeepInv(s: State, e: Event, s': State)
    requires Inv(s) && Step(s, e, s') && (e.Flushed? || e.Confirmed? || e.Released?)
    ensures Inv(s')
  {
    match e
    case Flushed(k, w) => FlushKeepsInv(s, k, w);
    case Confirmed(k, t) => ConfirmRemovesExactly(s, k, t);
    case Released(_, _) =>
  }

  /** The invariant is kept by every step, a restart included. */
  lemma StepKeepsInv(s: State, e: Event, s': State)
    requires Inv(s) && Step(s, e, s')
    ensures Inv(s')
  {
    match e
    case Enqueued(k, c, b, _, now, id, o) => EnqueueKeepsInv(s, k, c, b, now, id, o);
    case Drained(_) => DrainsKeepInv(s, e, s');
    case DrainedBatch(_, _) => DrainsKeepInv(s, e, s');
    case DrainedMatching(_, _, _) => DrainsKeepInv(s, e, s');
    case Took(_, _, _, _, _) => PagesKeepInv(s, e, s');
    case Settled(_, _) => PagesKeepInv(s, e, s');
    case Flushed(_, _) => FlightsKeepInv(s, e, s');
    case Confirmed(_, _) => FlightsKeepInv(s, e, s');
    case Released(_, _) => FlightsKeepInv(s, e, s');
    case ExpiredBefore(threshold) => ExpireLoses(s, threshold);
    case Restarted => LoadedKeepsInv(s, s');
  }

  lemma StepFrom(ss: seq<State>, es: seq<Event>, i: nat)
    requires Run(ss, es) && i < |es|
    ensures Step(ss[i], es[i], ss[i + 1])
  {
    assert StepAt(ss, es, i);
  }

  ghost predicate InvUpTo(ss: seq<State>, n: nat)
    requires n < |ss|
  {
    forall i :: 0 <= i <= n ==> InvAt(ss, i)
  }

  lemma NextKeepsInv(ss: seq<State>, es: seq<Event>, n: nat)
    requires Run(ss, es) && n < |es| && InvUpTo(ss, n)
    ensures InvUpTo(ss, n + 1)
  {
    StepFrom(ss, es, n);
    assert InvAt(ss, n);
    StepKeepsInv(ss[n], es[n], ss[n + 1]);
    assert InvAt(ss, n + 1);
  }

  lemma {:induction false} RunKeepsInv(ss: seq<State>, es: seq<Event>, n: nat)
    requires Run(ss, es) && n < |ss| && InvUpTo(ss, 0)
    ensures InvUpTo(ss, n)
  {
    if n > 0 {
      RunKeepsInv(ss, es, n - 1);
      NextKeepsInv(ss, es, n - 1);
    }
  }

  ghost predicate InvAt(ss: seq<State>, i: nat)
    requires i < |ss|
  {
    Inv(ss[i])
  }

  /** A run every state of which keeps the invariant. */
  ghost predicate SoundRun(ss: seq<State>, es: seq<Event>) {
    Run(ss, es) && forall i :: 0 <= i < |ss| ==> InvAt(ss, i)
  }

  /** Which is every run from a state that does. */
  lemma RunsAreSound(ss: seq<State>, es: seq<Event>)
    requires Run(ss, es) && Inv(ss[0])
    ensures SoundRun(ss, es)
  {
    assert InvAt(ss, 0);
    RunKeepsInv(ss, es, |es|);
  }

  /** Each step of a run accounts for what it stores and removes. */
  lemma RunAccounts(ss: seq<State>, es: seq<Event>, i: nat)
    requires SoundRun(ss, es) && i < |es| && !es[i].Restarted?
    ensures Accounts(ss[i], es[i], ss[i + 1])
  {
    StepFrom(ss, es, i);
    assert InvAt(ss, i);
    StepAccounts(ss[i], es[i], ss[i + 1]);
  }
}
