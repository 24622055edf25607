/** The hand-off of a blob to a distro device a fan-out could not confirm:
    queue it, then push the device or, for its own sync, stay silent within
    bounds. The queue lock's poisoning and how many wakes left are
    parameters. */
module HandOff {
  import opened Octets
  import opened Entries
  import opened QueueState
  import opened DeferredQueues
  import opened QueueRuns
  import opened QueueTraces

  datatype Wake = Push | QueueOnly

  datatype Queueing = Done(outcome: Outcome) | Kept | Poisoned

  /** Why a silent hand-off tried the push after all. */
  datatype Bound = UnPulled(count: nat) | QueueAt(total: nat, limit: nat) | QueuePoisoned

  datatype HandOffOutcome = HandOffOutcome(queued: bool, woken: bool, pushedBecause: Option<seq<Bound>>)

  const DISTRO_SYNC_UNWOKEN_LIMIT: nat := 64

  function IsQueued(q: Queueing): bool {
    match q
    case Done(o) => o != RefusedGlobalLimit
    case Kept => true
    case Poisoned => false
  }

  /** Whether a hand-off pushed the device, or tried to. */
  predicate TriedPush(wake: Wake, h: HandOffOutcome) { wake == Push || h.pushedBecause.Some? }

  function WakeAfterQueueing(queued: Queueing, wakesSent: nat): HandOffOutcome {
    HandOffOutcome(IsQueued(queued), wakesSent > 0, None)
  }

  function UnPulledAfter(held: nat, o: Outcome, device: Bytes, distro: Bytes): nat {
    match o
    case Queued => held + 1
    case QueuedEvictingOldest(r) => if r == distro then held else held + 1
    case QueuedEvictingFullest(v, r) => if v == device && r == distro then held else held + 1
    case RefusedGlobalLimit => held
  }

  // -- What the counts mean ---------------------------------------------------

  lemma FrontCounted(b: seq<Entry>, w: Wanted)
    requires b != []
    ensures |Select(b[1..], w)| == |Select(b, w)| - if w(b[0].channel) then 1 else 0
  {}

  lemma CountAfterAppend(s: State, k: Bytes, d: Bytes, blob: Bytes, now: real, id: nat)
    ensures CountMatching(Append(s, k, d, blob, now, id), k, d) == CountMatching(s, k, d) + 1
  {
    SelectConcat(Bucket(s.queue, k), [Entry(d, blob, now, id, s.nextTicket)], Only(d));
  }

  lemma CountAfterEvict(s: State, k: Bytes, d: Bytes, v: Bytes)
    requires Bucket(s.queue, v) != []
    ensures CountMatching(PopFront(s, v), k, d) ==
            CountMatching(s, k, d) - if v == k && Bucket(s.queue, k)[0].channel == d then 1 else 0
  {
    if v == k {
      FrontCounted(Bucket(s.queue, k), Only(d));
    }
  }

  /** The count the hand-off works out is the one it would read back, whatever
      the enqueue did. */
  lemma UnPulledIsCount(s: State, k: Bytes, d: Bytes, blob: Bytes, limit: nat, now: real, id: nat, o: Outcome)
    requires Allowed(s, k, limit, o)
    ensures UnPulledAfter(CountMatching(s, k, d), o, k, d) == CountMatching(Enqueue(s, k, d, blob, now, id, o), k, d)
  {
    if o != RefusedGlobalLimit {
      CountAfterAppend(Evict(s, Victim(k, o)), k, d, blob, now, id);
    }
    if Victim(k, o).Some? {
      CountAfterEvict(s, k, d, Victim(k, o).value);
    }
  }

  /** The bounds a state is at when `distro`'s blob has been queued. */
  function BoundsMet(unPulled: nat, total: nat, limit: nat): seq<Bound> {
    (if unPulled >= DISTRO_SYNC_UNWOKEN_LIMIT then [UnPulled(unPulled)] else []) +
    (if total >= limit * 3 / 4 then [QueueAt(total, limit)] else [])
  }

  /** Below three quarters of its limit the queue refuses nothing, and takes
      nothing from another subscriber. */
  lemma RoomBelowBound(s: State, k: Bytes, limit: nat, o: Outcome)
    requires Allowed(s, k, limit, o) && TotalLen(s) < s.globalLimit * 3 / 4
    ensures o.Queued? || o.QueuedEvictingOldest?
  {}

  /** An enqueue that `DistroHandOff` made without trying the push. */
  ghost predicate SilentHandOff(s: State, e: Event) {
    e.Enqueued? &&
    BoundsMet(UnPulledAfter(QueueState.CountMatching(s, e.subscriber, e.channel), e.outcome, e.subscriber, e.channel),
              TotalLen(s), s.globalLimit) == []
  }

  // -- The hand-offs ----------------------------------------------------------

  method QueueThenWake(q: DeferredQueue, device: Bytes, routing: Bytes, blob: Bytes, limit: nat, now: real,
                       poisoned: bool, wakesSent: nat)
    returns (h: HandOffOutcome, ghost o: Outcome, ghost id: nat)
    modifies q
    ensures poisoned ==> q.St() == old(q.St()) && !h.queued
    ensures !poisoned ==> Allowed(old(q.St()), device, limit, o) && (h.queued <==> o != RefusedGlobalLimit) &&
                          (h.queued ==> AboveEveryRow(Evict(old(q.St()), Victim(device, o)).rows, id)) &&
                          q.St() == Enqueue(old(q.St()), device, routing, blob, now, id, o)
    ensures !poisoned ==> Acts(old(q.St()), Enqueued(device, routing, blob, limit, now, id, o), q.St())
    ensures (h.woken <==> wakesSent > 0) && h.pushedBecause.None?
  {
    if poisoned {
      o, id := RefusedGlobalLimit, 0;
      return WakeAfterQueueing(Poisoned, wakesSent), o, id;
    }
    var outcome;
    outcome, id := q.Enqueue(device, routing, blob, limit, now);
    o := outcome;
    h := WakeAfterQueueing(Done(outcome), wakesSent);
  }

  /** A hand-off that tries no push has queued its blob, and leaves the device
      fewer than 64 un-pulled of the distro and the queue below its bound. */
  method DistroHandOff(q: DeferredQueue, device: Bytes, distro: Bytes, blob: Bytes, limit: nat, now: real,
                       wake: Wake, poisoned: bool, wakesSent: nat)
    returns (h: HandOffOutcome, ghost o: Outcome, ghost id: nat)
    modifies q
    ensures poisoned ==> q.St() == old(q.St()) && !h.queued && TriedPush(wake, h)
    ensures !poisoned ==> Allowed(old(q.St()), device, limit, o) && (h.queued <==> o != RefusedGlobalLimit) &&
                          (h.queued ==> AboveEveryRow(Evict(old(q.St()), Victim(device, o)).rows, id)) &&
                          q.St() == Enqueue(old(q.St()), device, distro, blob, now, id, o)
    ensures !poisoned ==> Acts(old(q.St()), Enqueued(device, distro, blob, limit, now, id, o), q.St())
    ensures !poisoned ==> (TriedPush(wake, h) <==>
              wake == Push || QueueState.CountMatching(q.St(), device, distro) >= 64 ||
              TotalLen(old(q.St())) >= old(q.globalLimit) * 3 / 4)
    ensures h.pushedBecause == None || wake == QueueOnly
    ensures wake == QueueOnly && poisoned ==> h.pushedBecause == Some([QueuePoisoned])
    ensures wake == QueueOnly && !poisoned && h.pushedBecause.Some? ==>
              var n := QueueState.CountMatching(q.St(), device, distro);
              var total, most := TotalLen(old(q.St())), old(q.globalLimit);
              h.pushedBecause.value ==
                (if n >= 64 then [UnPulled(n)] else []) + (if total >= most * 3 / 4 then [QueueAt(total, most)] else [])
    ensures h.woken <==> TriedPush(wake, h) && wakesSent > 0
    ensures !TriedPush(wake, h) ==> h.queued
    ensures !poisoned && wake == QueueOnly ==>
              (!TriedPush(wake, h) <==> SilentHandOff(old(q.St()), Enqueued(device, distro, blob, limit, now, id, o)))
  {
    if wake == Push {
      h, o, id := QueueThenWake(q, device, distro, blob, limit, now, poisoned, wakesSent);
      return;
    }
    if poisoned {
      o, id := RefusedGlobalLimit, 0;
      return WakeAfterQueueing(Poisoned, wakesSent).(pushedBecause := Some([QueuePoisoned])), o, id;
    }
    ghost var s := q.St();
    var held := q.CountMatching(device, distro);
    var total := q.TotalLength();
    var globalLimit := q.globalLimit;
    var outcome;
    outcome, id := q.Enqueue(device, distro, blob, limit, now);
    o := outcome;
    UnPulledIsCount(s, device, distro, blob, limit, now, id, o);
    var unPulled := UnPulledAfter(held, outcome, device, distro);
    var why := BoundsMet(unPulled, total, globalLimit);
    if why != [] {
      h := WakeAfterQueueing(Done(outcome), wakesSent).(pushedBecause := Some(why));
    } else {
      RoomBelowBound(s, device, limit, o);
      h := HandOffOutcome(IsQueued(Done(outcome)), false, None);
    }
  }

  // -- Silence over a run -----------------------------------------------------

  /** Over any run, a silent hand-off really queued its blob and left fewer
      than 64 of the distro un-pulled. */
  lemma SilentIsSound(ss: seq<State>, es: seq<Event>, i: nat)
    requires Run(ss, es) && i < |es| && SilentHandOff(ss[i], es[i])
    ensures es[i].outcome != RefusedGlobalLimit
    ensures Entry(es[i].channel, es[i].blob, es[i].now, es[i].id, ss[i].nextTicket) in
              Bucket(ss[i + 1].queue, es[i].subscriber)
    ensures QueueState.CountMatching(ss[i + 1], es[i].subscriber, es[i].channel) < 64
  {
    StepFrom(ss, es, i);
    var s, e := ss[i], es[i];
    UnPulledIsCount(s, e.subscriber, e.channel, e.blob, e.limit, e.now, e.id, e.outcome);
    RoomBelowBound(s, e.subscriber, e.limit, e.outcome);
  }

  lemma {:induction false} DroppedCount(b: seq<Entry>, w: Wanted, n: nat, v: Wanted)
    ensures |Select(DropWanted(b, w, n), v)| <= |Select(b, v)|
  {
    if b != [] {
      var m := if n > 0 && w(b[0].channel) then n - 1 else n;
      DroppedCount(b[1..], w, m, v);
      SelectCons(b[0], DropWanted(b[1..], w, m), v);
    }
  }

  lemma {:induction false} WithoutCount(b: seq<Entry>, t: nat, v: Wanted)
    ensures |Select(Without(b, t), v)| <= |Select(b, v)|
  {
    if b != [] {
      WithoutCount(b[1..], t, v);
      SelectCons(b[0], Without(b[1..], t), v);
    }
  }

  lemma {:induction false} YoungCount(b: seq<Entry>, threshold: real, v: Wanted)
    ensures |Select(Young(b, threshold), v)| <= |Select(b, v)|
  {
    if b != [] {
      YoungCount(b[1..], threshold, v);
      SelectCons(b[0], Young(b[1..], threshold), v);
    }
  }

  /** The device's bucket gets another of the distro's blobs only by an
      enqueue, a page coming back unproved, or a restart. */
  ghost predicate AddsNone(s: State, e: Event, k: Bytes, d: Bytes) {
    !e.Restarted? && !(e.Enqueued? && e.subscriber == k && e.channel == d) &&
    !(e.Settled? && !e.proved && e.page in s.held && s.held[e.page].subscriber == k)
  }

  lemma OtherEnqueueCount(s: State, e: Event, s': State, k: Bytes, d: Bytes)
    requires e.Enqueued? && Step(s, e, s') && AddsNone(s, e, k, d)
    ensures QueueState.CountMatching(s', k, d) <= QueueState.CountMatching(s, k, d)
  {
    var v := Victim(e.subscriber, e.outcome);
    if v.Some? {
      CountAfterEvict(s, k, d, v.value);
    }
    if e.outcome != RefusedGlobalLimit && e.subscriber == k {
      var x := Entry(e.channel, e.blob, e.now, e.id, s.nextTicket);
      SelectConcat(Bucket(Evict(s, v).queue, k), [x], Only(d));
    }
  }

  lemma SuffixCount(b: seq<Entry>, n: nat, v: Wanted)
    requires n <= |b|
    ensures |Select(b[n..], v)| <= |Select(b, v)|
  {
    SelectConcat(b[..n], b[n..], v);
    assert b == b[..n] + b[n..];
  }

  lemma BatchCount(s: State, u: Bytes, max: nat, k: Bytes, d: Bytes)
    ensures QueueState.CountMatching(DrainBatch(s, u, max).0, k, d) <= QueueState.CountMatching(s, k, d)
  {
    SuffixCount(Bucket(s.queue, k), Min(|Bucket(s.queue, k)|, max), Only(d));
  }

  lemma MatchingCount(s: State, u: Bytes, w: Wanted, max: nat, k: Bytes, d: Bytes)
    ensures QueueState.CountMatching(DrainMatching(s, u, w, max).0, k, d) <= QueueState.CountMatching(s, k, d)
  {
    var b := Bucket(s.queue, k);
    DroppedCount(b, w, Min(|Select(b, w)|, max), Only(d));
  }

  lemma TookCount(s: State, u: Bytes, w: Wanted, max: nat, budget: nat, cost: Cost, k: Bytes, d: Bytes)
    ensures QueueState.CountMatching(TakePage(s, u, w, max, budget, cost).0, k, d) <= QueueState.CountMatching(s, k, d)
  {
    var b := Bucket(s.queue, k);
    DroppedCount(b, w, PageCount(Select(b, w), max, budget, cost), Only(d));
  }

  lemma DrainCount(s: State, e: Event, s': State, k: Bytes, d: Bytes)
    requires (e.Drained? || e.DrainedBatch? || e.DrainedMatching? || e.Took?) && Step(s, e, s')
    ensures QueueState.CountMatching(s', k, d) <= QueueState.CountMatching(s, k, d)
  {
    match e
    case Drained(_) =>
    case DrainedBatch(u, max) => BatchCount(s, u, max, k, d);
    case DrainedMatching(u, w, max) => MatchingCount(s, u, w, max, k, d);
    case Took(u, w, max, budget, cost) => TookCount(s, u, w, max, budget, cost, k, d);
  }

  lemma CountKept(s: State, e: Event, s': State, k: Bytes, d: Bytes)
    requires Step(s, e, s') && AddsNone(s, e, k, d)
    ensures QueueState.CountMatching(s', k, d) <= QueueState.CountMatching(s, k, d)
  {
    if e.Enqueued? {
      OtherEnqueueCount(s, e, s', k, d);
    } else if e.Drained? || e.DrainedBatch? || e.DrainedMatching? || e.Took? {
      DrainCount(s, e, s', k, d);
    } else if e.Confirmed? {
      WithoutCount(Bucket(s.queue, k), e.ticket, Only(d));
    } else if e.ExpiredBefore? {
      YoungCount(Bucket(s.queue, k), e.threshold, Only(d));
    }
  }

  /** Nothing but silent hand-offs brings the device the distro's blobs. */
  ghost predicate SilentAt(ss: seq<State>, es: seq<Event>, k: Bytes, d: Bytes, i: nat)
    requires |ss| == |es| + 1 && i < |es|
  {
    AddsNone(ss[i], es[i], k, d) ||
    (SilentHandOff(ss[i], es[i]) && es[i].subscriber == k && es[i].channel == d)
  }

  ghost predicate AtMost(ss: seq<State>, k: Bytes, d: Bytes, n: nat, most: nat)
    requires n < |ss|
  {
    QueueState.CountMatching(ss[n], k, d) <= most
  }

  lemma SilentStep(ss: seq<State>, es: seq<Event>, k: Bytes, d: Bytes, n: nat, most: nat)
    requires Run(ss, es) && n < |es| && SilentAt(ss, es, k, d, n)
    requires AtMost(ss, k, d, n, most) && most >= 63
    ensures AtMost(ss, k, d, n + 1, most)
  {
    if AddsNone(ss[n], es[n], k, d) {
      StepFrom(ss, es, n);
      CountKept(ss[n], es[n], ss[n + 1], k, d);
    } else {
      SilentIsSound(ss, es, n);
    }
  }

  /** However long a run of silent hand-offs, they never pile up 64: the count
      stays below, or at what it was before the silence. */
  lemma {:induction false} SilenceIsBounded(ss: seq<State>, es: seq<Event>, k: Bytes, d: Bytes, n: nat, most: nat)
    requires Run(ss, es) && n < |ss| && (forall i :: 0 <= i < n ==> SilentAt(ss, es, k, d, i))
    requires AtMost(ss, k, d, 0, most) && most >= 63
    ensures AtMost(ss, k, d, n, most)
  {
    if n > 0 {
      SilenceIsBounded(ss, es, k, d, n - 1, most);
      SilentStep(ss, es, k, d, n - 1, most);
    }
  }
}
