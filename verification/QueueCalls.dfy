/** Every call on the queue object is a step of its runs, or for a batch a step
    a blob, so what holds over runs holds of the object. */
module QueueCalls {
  import opened Octets
  import opened Entries
  import opened QueueState
  import opened Conservation
  import opened DeferredQueues
  import opened QueueRuns
  import opened QueueTraces

  datatype Call =
    | CallEnqueue(subscriber: Bytes, channel: Bytes, blob: Bytes, limit: nat, now: real)
    | CallEnqueueAll(subscriber: Bytes, blobs: seq<(Bytes, Bytes)>, limit: nat, now: real)
    | CallDrain(subscriber: Bytes)
    | CallDrainBatch(subscriber: Bytes, max: nat)
    | CallDrainMatching(subscriber: Bytes, wanted: Wanted, max: nat)
    | CallTakePage(subscriber: Bytes, wanted: Wanted, max: nat, budget: nat, cost: Cost)
    | CallSettle(page: nat, proved: bool)
    | CallFlushCopies(subscriber: Bytes, wanted: Wanted)
    | CallConfirm(subscriber: Bytes, ticket: nat)
    | CallRelease(subscriber: Bytes, ticket: nat)
    | CallEvictExpired(threshold: real)

  /** The events a call makes: one of its kind, or one offer a blob. */
  ghost predicate Makes(c: Call, es: seq<Event>) {
    match c
    case CallEnqueue(k, channel, blob, limit, now) => |es| == 1 && IsOffer(es[0], k, channel, blob, limit, now)
    case CallEnqueueAll(k, blobs, limit, now) => Offers(es, k, blobs, limit, now)
    case CallDrain(k) => es == [Drained(k)]
    case CallDrainBatch(k, max) => es == [DrainedBatch(k, max)]
    case CallDrainMatching(k, w, max) => es == [DrainedMatching(k, w, max)]
    case CallTakePage(k, w, max, budget, cost) => es == [Took(k, w, max, budget, cost)]
    case CallSettle(page, proved) => es == [Settled(page, proved)]
    case CallFlushCopies(k, w) => es == [Flushed(k, w)]
    case CallConfirm(k, t) => es == [Confirmed(k, t)]
    case CallRelease(k, t) => es == [Released(k, t)]
    case CallEvictExpired(threshold) => es == [ExpiredBefore(threshold)]
  }

  method EnqueueCall(q: DeferredQueue, c: Call) returns (ghost e: Event)
    requires c.CallEnqueue?
    modifies q
    ensures Acts(old(q.St()), e, q.St()) && Makes(c, [e])
  {
    var o;
    ghost var id;
    o, id := q.Enqueue(c.subscriber, c.channel, c.blob, c.limit, c.now);
    e := Enqueued(c.subscriber, c.channel, c.blob, c.limit, c.now, id, o);
  }

  method DrainCall(q: DeferredQueue, c: Call) returns (ghost e: Event)
    requires c.CallDrain? || c.CallDrainBatch? || c.CallDrainMatching?
    modifies q
    ensures Acts(old(q.St()), e, q.St()) && Makes(c, [e])
  {
    match c
    case CallDrain(k) =>
      var drained := q.Drain(k);
      e := Drained(k);
    case CallDrainBatch(k, max) =>
      var drained := q.DrainBatch(k, max);
      e := DrainedBatch(k, max);
    case CallDrainMatching(k, w, max) =>
      var drained := q.DrainMatching(k, w, max);
      e := DrainedMatching(k, w, max);
  }

  method PageCall(q: DeferredQueue, c: Call) returns (ghost e: Event)
    requires c.CallTakePage? || c.CallSettle?
    modifies q
    ensures Acts(old(q.St()), e, q.St()) && Makes(c, [e])
  {
    if c.CallTakePage? {
      var page, blobs := q.TakePage(c.subscriber, c.wanted, c.max, c.budget, c.cost);
      e := Took(c.subscriber, c.wanted, c.max, c.budget, c.cost);
    } else {
      var settled := q.SettlePage(c.page, c.proved);
      e := Settled(c.page, c.proved);
    }
  }

  method FlightCall(q: DeferredQueue, c: Call) returns (ghost e: Event)
    requires c.CallFlushCopies? || c.CallConfirm? || c.CallRelease? || c.CallEvictExpired?
    requires q.Valid()
    modifies q
    ensures Acts(old(q.St()), e, q.St()) && Makes(c, [e])
  {
    match c
    case CallFlushCopies(k, w) =>
      var copies := q.FlushCopies(k, w);
      e := Flushed(k, w);
    case CallConfirm(k, t) =>
      TicketPlaces(q.St(), k);
      var stored := q.Confirm(k, t);
      e := Confirmed(k, t);
    case CallRelease(k, t) =>
      var waiting := q.Release(k, t);
      e := Released(k, t);
    case CallEvictExpired(threshold) =>
      var report := q.EvictExpired(threshold);
      e := ExpiredBefore(threshold);
  }

  method SingleCall(q: DeferredQueue, c: Call) returns (ghost e: Event)
    requires q.Valid() && !c.CallEnqueueAll?
    modifies q
    ensures Acts(old(q.St()), e, q.St()) && Makes(c, [e])
  {
    if c.CallEnqueue? {
      e := EnqueueCall(q, c);
    } else if c.CallDrain? || c.CallDrainBatch? || c.CallDrainMatching? {
      e := DrainCall(q, c);
    } else if c.CallTakePage? || c.CallSettle? {
      e := PageCall(q, c);
    } else {
      e := FlightCall(q, c);
    }
  }

  /** Any call, from any valid state: steps of a run, one but for a batch, and
      valid again. */
  method Perform(q: DeferredQueue, c: Call) returns (ghost es: seq<Event>)
    requires q.Valid()
    modifies q
    ensures Leads(old(q.St()), es, q.St()) && Makes(c, es) && q.Valid()
  {
    ghost var s := q.St();
    if c.CallEnqueueAll? {
      var tally;
      tally, es := q.EnqueueAll(c.subscriber, c.blobs, c.limit, c.now);
    } else {
      ghost var e := SingleCall(q, c);
      LeadsOne(s, e, q.St());
      es := [e];
    }
    LeadsKeepsInv(s, es, q.St());
  }

  ghost function Joined(batches: seq<seq<Event>>): seq<Event> {
    if batches == [] then [] else Joined(batches[..|batches| - 1]) + batches[|batches| - 1]
  }

  /** The first calls made, one batch of events each. */
  ghost predicate Called(s: State, calls: seq<Call>, batches: seq<seq<Event>>, s1: State) {
    Leads(s, Joined(batches), s1) && |batches| <= |calls| &&
    forall i :: 0 <= i < |batches| ==> Makes(calls[i], batches[i])
  }

  lemma CalledMore(s: State, calls: seq<Call>, batches: seq<seq<Event>>, s1: State, es: seq<Event>, s2: State)
    requires Called(s, calls, batches, s1) && |batches| < |calls|
    requires Leads(s1, es, s2) && Makes(calls[|batches|], es)
    ensures Called(s, calls, batches + [es], s2)
  {
    LeadsOn(s, Joined(batches), s1, es, s2);
    assert (batches + [es])[..|batches|] == batches;
  }

  /** A process's life: loaded from a table, then any calls in any order. The
      events they make, in order, are those of a run, sound at every step. */
  method Live(table: map<nat, Row>, calls: seq<Call>)
    returns (q: DeferredQueue, ghost ss: seq<State>, ghost batches: seq<seq<Event>>)
    requires 0 !in table
    ensures |batches| == |calls| && forall n :: 0 <= n < |calls| ==> Makes(calls[n], batches[n])
    ensures SoundRun(ss, Joined(batches)) && Loaded(table, ss[0]) && ss[|ss| - 1] == q.St()
  {
    ghost var s;
    q, s, batches := MakeCalls(table, calls);
    ss := LeadsIsRun(s, Joined(batches), q.St());
    LoadedInv(table, s);
    RunsAreSound(ss, Joined(batches));
  }

  method MakeCalls(table: map<nat, Row>, calls: seq<Call>)
    returns (q: DeferredQueue, ghost s: State, ghost batches: seq<seq<Event>>)
    requires 0 !in table
    ensures Loaded(table, s) && |batches| == |calls| && Called(s, calls, batches, q.St())
  {
    q := new DeferredQueue.Load(table);
    LoadedInv(table, q.St());
    s, batches := q.St(), [];
    for n := 0 to |calls|
      invariant fresh(q) && q.Valid() && |batches| == n && Called(s, calls, batches, q.St())
    {
      ghost var s1 := q.St();
      ghost var es := Perform(q, calls[n]);
      CalledMore(s, calls, batches, s1, es, q.St());
      batches := batches + [es];
    }
  }
}
