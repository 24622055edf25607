/** A subscriber's paged pull, from the first page to the last, and what it
    shares with the plain drains. */
module Pulls {
  import opened Octets
  import opened Entries
  import opened QueueState
  import opened QueueInvariant
  import opened Paging
  import opened PullResponses
  import opened DeferredQueues
  import opened QueueRuns
  import opened QueueTraces

  // -- One page taken and proved ----------------------------------------------

  /** A page is taken and its proof arrives: the state after, and the blobs. */
  function Round(s: State, k: Bytes, w: Wanted, max: nat, budget: nat, cost: Cost): (State, seq<Entry>) {
    var (s1, page, blobs) := TakePage(s, k, w, max, budget, cost);
    (Settle(s1, page, true).0, blobs)
  }

  /** Page ids count up from 1. */
  ghost predicate FreshPages(s: State) {
    0 < s.nextPage && forall p :: p in s.held ==> 0 < p < s.nextPage
  }

  lemma PagesFresh(s: State)
    requires Inv(s)
    ensures FreshPages(s)
  {}

  /** A round takes the front of what is wanted, at least one blob of it if the
      page may hold any, and leaves everything else where it was. */
  lemma RoundTakesFront(s: State, k: Bytes, w: Wanted, max: nat, budget: nat, cost: Cost)
    requires FreshPages(s)
    ensures var (s', blobs) := Round(s, k, w, max, budget, cost);
            var all := Select(Bucket(s.queue, k), w);
            |blobs| <= |all| && blobs == all[..|blobs|] && (all != [] && max >= 1 ==> blobs != []) &&
            s' == s.(queue := SetBucket(s.queue, k, DropWanted(Bucket(s.queue, k), w, |blobs|)),
                     rows := DeleteRows(s.rows, blobs), nextPage := s'.nextPage) &&
            s'.nextPage >= s.nextPage
  {
    var all := Select(Bucket(s.queue, k), w);
    var n := PageCount(all, max, budget, cost);
    var (s1, page, blobs) := TakePage(s, k, w, max, budget, cost);
    assert FitsPage(all, budget, cost, 0);
    if all != [] && max >= 1 {
      assert FitsPage(all, budget, cost, 1);
    }
    if n > 0 {
      assert s1.held - {page} == s.held;
    } else {
      assert DeleteRows(s.rows, []) == s.rows;
    }
  }

  /** A round makes progress exactly when the page size allows a blob at all:
      a page size of 0 has the requester told to come back for ever. */
  lemma RoundProgresses(s: State, k: Bytes, w: Wanted, max: nat, budget: nat, cost: Cost)
    requires FreshPages(s) && Pending(s.queue, k, w)
    ensures Round(s, k, w, max, budget, cost).1 != [] <==> max >= 1
    ensures max == 0 ==> Pending(Round(s, k, w, max, budget, cost).0.queue, k, w)
  {
    if max >= 1 {
      RoundTakesFront(s, k, w, max, budget, cost);
    } else {
      DropWantedSelects(Bucket(s.queue, k), w, 0);
    }
  }

  // -- Drains -----------------------------------------------------------------

  /** A drain is a page with budget for everything, proved at once: the same
      blobs, the same buckets, pages and rows. */
  lemma DrainIsProvedPage(s: State, k: Bytes, w: Wanted, max: nat, budget: nat, cost: Cost)
    requires FreshPages(s)
    requires budget >= CostOf(Select(Bucket(s.queue, k), w)[..Min(|Select(Bucket(s.queue, k), w)|, max)], cost)
    ensures var (drained, removed) := DrainMatching(s, k, w, max);
            var (s', blobs) := Round(s, k, w, max, budget, cost);
            removed == blobs && drained == s'.(nextPage := s.nextPage)
  {
    PageUnlimited(Select(Bucket(s.queue, k), w), max, budget, cost);
    RoundTakesFront(s, k, w, max, budget, cost);
  }

  /** A batch is a drain of everything, and the full drain a batch of at least
      the bucket's length. */
  lemma BatchIsDrainOfAll(s: State, k: Bytes, max: nat)
    ensures DrainBatch(s, k, max) == DrainMatching(s, k, Any(), max)
    ensures max >= |Bucket(s.queue, k)| ==> Drain(s, k) == DrainBatch(s, k, max)
  {
    var b := Bucket(s.queue, k);
    DropWantedPrefix(b, Min(|b|, max));
    if max >= |b| {
      assert b[..|b|] == b && b[|b|..] == [];
    }
  }

  // -- A pull to its end ------------------------------------------------------

  /** `blobs` is the front of what is wanted; everything else of the bucket
      stays, in its order, and so do the other buckets, the pages and rows. */
  ghost predicate TookFront(s: State, s': State, k: Bytes, w: Wanted, blobs: seq<Entry>) {
    var all := Select(Bucket(s.queue, k), w);
    |blobs| <= |all| && blobs == all[..|blobs|] && (all != [] ==> blobs != []) &&
    Select(Bucket(s'.queue, k), w) == all[|blobs|..] &&
    Select(Bucket(s'.queue, k), Not(w)) == Select(Bucket(s.queue, k), Not(w)) &&
    (forall u :: u != k ==> Bucket(s'.queue, u) == Bucket(s.queue, u)) &&
    s'.rows == DeleteRows(s.rows, blobs) && s'.held == s.held && s'.nextPage >= s.nextPage
  }

  lemma RoundLeaves(s: State, k: Bytes, w: Wanted, max: nat, budget: nat, cost: Cost)
    requires FreshPages(s) && max >= 1
    ensures TookFront(s, Round(s, k, w, max, budget, cost).0, k, w, Round(s, k, w, max, budget, cost).1)
    ensures FreshPages(Round(s, k, w, max, budget, cost).0)
  {
    RoundTakesFront(s, k, w, max, budget, cost);
    DropWantedSelects(Bucket(s.queue, k), w, |Round(s, k, w, max, budget, cost).1|);
  }

  /** Pull after pull, each page proved, until nothing more is pending. */
  function PullAll(s: State, k: Bytes, w: Wanted, max: nat, budget: nat, cost: Cost): (State, seq<seq<Entry>>)
    requires FreshPages(s) && max >= 1
    decreases |Select(Bucket(s.queue, k), w)|
  {
    RoundLeaves(s, k, w, max, budget, cost);
    var (s1, blobs) := Round(s, k, w, max, budget, cost);
    if !Pending(s1.queue, k, w) then (s1, [blobs])
    else
      var (s2, pages) := PullAll(s1, k, w, max, budget, cost);
      (s2, [blobs] + pages)
  }

  function Flatten<T>(ps: seq<seq<T>>): seq<T> {
    if ps == [] then [] else ps[0] + Flatten(ps[1..])
  }

  lemma FlattenCons<T>(p: seq<T>, ps: seq<seq<T>>)
    ensures Flatten([p] + ps) == p + Flatten(ps)
  {
    assert ([p] + ps)[1..] == ps;
  }

  /** What a pull to its end must do to the queue. */
  ghost predicate Pulled(s: State, s': State, k: Bytes, w: Wanted) {
    var b := Bucket(s.queue, k);
    Select(Bucket(s'.queue, k), w) == [] && Bucket(s'.queue, k) == Select(b, Not(w)) &&
    (forall u :: u != k ==> Bucket(s'.queue, u) == Bucket(s.queue, u)) &&
    s'.rows == DeleteRows(s.rows, Select(b, w)) && s'.held == s.held
  }

  lemma SelectRest(b: seq<Entry>, w: Wanted)
    requires Select(b, w) == []
    ensures b == Select(b, Not(w))
  {
    SelectMembers(b, w);
    assert forall e :: e !in Select(b, w);
    SelectNone(b, w);
  }

  lemma RowsOnward(rows: map<nat, Row>, a: seq<Entry>, b: seq<Entry>)
    ensures DeleteRows(DeleteRows(rows, a), b) == DeleteRows(rows, a + b)
  {
    assert Ids(a + b) == Ids(a) + Ids(b);
  }

  lemma LastRound(s: State, s1: State, k: Bytes, w: Wanted, blobs: seq<Entry>)
    requires TookFront(s, s1, k, w, blobs) && !Pending(s1.queue, k, w)
    ensures blobs == Select(Bucket(s.queue, k), w) && Pulled(s, s1, k, w)
  {
    var all := Select(Bucket(s.queue, k), w);
    assert |all[|blobs|..]| == 0;
    assert all[..|all|] == all;
    SelectRest(Bucket(s1.queue, k), w);
  }

  lemma FrontOnward(all: seq<Entry>, rest: seq<Entry>, taken: nat, blobs: seq<Entry>)
    requires taken <= |all| && rest == all[taken..] && |blobs| <= |rest| && blobs == rest[..|blobs|]
    ensures all[..taken + |blobs|] == all[..taken] + blobs && rest[|blobs|..] == all[taken + |blobs|..]
  {}

  lemma NextRounds(s: State, s1: State, s2: State, k: Bytes, w: Wanted, blobs: seq<Entry>)
    requires TookFront(s, s1, k, w, blobs) && Pulled(s1, s2, k, w)
    ensures Pulled(s, s2, k, w)
    ensures blobs + Select(Bucket(s1.queue, k), w) == Select(Bucket(s.queue, k), w)
  {
    var all, rest := Select(Bucket(s.queue, k), w), Select(Bucket(s1.queue, k), w);
    assert all == blobs + rest;
    RowsOnward(s.rows, blobs, rest);
  }

  /** The pull ends within as many rounds as there are wanted blobs (one if
      there are none). Its pages put together are the wanted blobs, in queue
      order; nothing else moves, and only their rows are gone. */
  lemma {:induction false} PullDrains(s: State, k: Bytes, w: Wanted, max: nat, budget: nat, cost: Cost)
    requires FreshPages(s) && max >= 1
    ensures var (s', pages) := PullAll(s, k, w, max, budget, cost);
            var all := Select(Bucket(s.queue, k), w);
            Flatten(pages) == all && 1 <= |pages| && (all != [] ==> |pages| <= |all|) && (all == [] ==> |pages| == 1) &&
            Pulled(s, s', k, w)
    decreases |Select(Bucket(s.queue, k), w)|
  {
    var (s1, blobs) := Round(s, k, w, max, budget, cost);
    RoundLeaves(s, k, w, max, budget, cost);
    if !Pending(s1.queue, k, w) {
      LastRound(s, s1, k, w, blobs);
      assert Flatten([blobs]) == blobs + Flatten([]);
    } else {
      var (s2, pages) := PullAll(s1, k, w, max, budget, cost);
      PullDrains(s1, k, w, max, budget, cost);
      FlattenCons(blobs, pages);
      NextRounds(s, s1, s2, k, w, blobs);
    }
  }

  /** In every state a run reaches. */
  lemma ReachablePullDrains(ss: seq<State>, es: seq<Event>, n: nat, k: Bytes, w: Wanted, max: nat, budget: nat,
                            cost: Cost)
    requires SoundRun(ss, es) && n < |ss| && max >= 1
    ensures FreshPages(ss[n])
    ensures var (s', pages) := PullAll(ss[n], k, w, max, budget, cost);
            var all := Select(Bucket(ss[n].queue, k), w);
            Flatten(pages) == all && 1 <= |pages| && (all != [] ==> |pages| <= |all|) && (all == [] ==> |pages| == 1) &&
            Pulled(ss[n], s', k, w)
  {
    assert InvAt(ss, n);
    PagesFresh(ss[n]);
    PullDrains(ss[n], k, w, max, budget, cost);
  }

  // -- The node's answers, and a requester that pulls to the end --------------

  /** An answer that needs no proof, or one whose proof settles a page. */
  datatype Answer = Plain(data: Bytes) | Proven(data: Bytes, page: nat)

  function PullEvent(subscriber: Bytes, w: Wanted, pageSize: nat): Event {
    Took(subscriber, w, pageSize, PULL_PAGE_MAX_BYTES, EntryCost)
  }

  /** Pages taken by this pull, and proofs of pages. */
  ghost predicate PullsOnly(es: seq<Event>, subscriber: Bytes, w: Wanted, pageSize: nat) {
    forall e :: e in es ==> e == PullEvent(subscriber, w, pageSize) || (e.Settled? && e.proved)
  }

  method PullAnswer(q: DeferredQueue, subscriber: Bytes, w: Wanted, pageSize: nat) returns (a: Answer)
    modifies q
    ensures var (s', page, blobs) := TakePage(old(q.St()), subscriber, w, pageSize, PULL_PAGE_MAX_BYTES, EntryCost);
            q.St() == s' && a.data == EncodePullResponse(blobs, Pending(s'.queue, subscriber, w)) &&
            if page == 0 then a.Plain? else a == Proven(a.data, page)
    ensures Acts(old(q.St()), PullEvent(subscriber, w, pageSize), q.St())
  {
    var page, blobs := q.TakePage(subscriber, w, pageSize, PULL_PAGE_MAX_BYTES, EntryCost);
    var more := q.HasPendingMatching(subscriber, w);
    var data := EncodePullResponse(blobs, more);
    a := if page == 0 then Plain(data) else Proven(data, page);
  }

  lemma SelectCarried(b: seq<Entry>, w: Wanted, n: nat)
    requires Carried(b) && n <= |Select(b, w)|
    ensures Carried(Select(b, w)[..n])
  {
    SelectMembers(b, w);
  }

  lemma DropCarried(b: seq<Entry>, w: Wanted, n: nat)
    requires Carried(b) && n <= |Select(b, w)|
    ensures Carried(DropWanted(b, w, n))
  {
    DropWantedKeepsAll(b, w, n);
    var kept, page := DropWanted(b, w, n), Select(b, w)[..n];
    assert |multiset(b)| == |multiset(kept)| + |multiset(page)|;
    forall e | e in kept
      ensures e in b
    {
      assert e in multiset(b);
    }
  }

  /** The proof of an answer that asks for one reaches the node. */
  method Prove(q: DeferredQueue, a: Answer) returns (ghost es: seq<Event>)
    modifies q
    ensures q.St() == if a.Proven? then Settle(old(q.St()), a.page, true).0 else old(q.St())
    ensures Leads(old(q.St()), es, q.St()) && es == if a.Proven? then [Settled(a.page, true)] else []
  {
    ghost var s := q.St();
    es := [];
    if a.Proven? {
      var settled := q.SettlePage(a.page, true);
      LeadsOne(s, Settled(a.page, true), q.St());
      es := [Settled(a.page, true)];
    }
  }

  lemma PageCarried(b: seq<Entry>, w: Wanted, n: nat)
    requires Carried(b) && n <= |Select(b, w)|
    ensures Carried(Select(b, w)[..n]) && Carried(DropWanted(b, w, n))
  {
    SelectCarried(b, w, n);
    DropCarried(b, w, n);
  }

  lemma RoundIs(s: State, k: Bytes, w: Wanted, max: nat, budget: nat, cost: Cost)
    requires FreshPages(s)
    ensures var (s1, page, blobs) := TakePage(s, k, w, max, budget, cost);
            Round(s, k, w, max, budget, cost) == (if page == 0 then s1 else Settle(s1, page, true).0, blobs)
  {}

  lemma PullTrace(s: State, e: Event, s1: State, fs: seq<Event>, s2: State, k: Bytes, w: Wanted, pageSize: nat)
    requires e == PullEvent(k, w, pageSize) && Acts(s, e, s1) && Leads(s1, fs, s2) && PullsOnly(fs, k, w, pageSize)
    ensures Leads(s, [e] + fs, s2) && PullsOnly([e] + fs, k, w, pageSize)
  {
    LeadsOne(s, e, s1);
    LeadsOn(s, [e], s1, fs, s2);
  }

  /** Ask for a page and decode the answer. */
  method Ask(q: DeferredQueue, subscriber: Bytes, w: Wanted, pageSize: nat)
    returns (a: Answer, pairs: seq<(Bytes, Bytes)>, more: bool)
    requires Carried(Bucket(q.queue, subscriber))
    modifies q
    ensures var (s', page, blobs) := TakePage(old(q.St()), subscriber, w, pageSize, PULL_PAGE_MAX_BYTES, EntryCost);
            q.St() == s' && pairs == PairsOf(blobs) && (more <==> Pending(s'.queue, subscriber, w)) &&
            if page == 0 then a.Plain? else a == Proven(a.data, page)
    ensures Acts(old(q.St()), PullEvent(subscriber, w, pageSize), q.St()) && Carried(Bucket(q.queue, subscriber))
  {
    ghost var b := Bucket(q.queue, subscriber);
    ghost var n := PageCount(Select(b, w), pageSize, PULL_PAGE_MAX_BYTES, EntryCost);
    PageCarried(b, w, n);
    a := PullAnswer(q, subscriber, w, pageSize);
    PullResponseRoundTrip(Select(b, w)[..n], Pending(q.queue, subscriber, w));
    var decoded := DecodePullResponse(a.data);
    pairs, more := decoded.value.0, decoded.value.1;
  }

  /** One pull as the requester sees it: it decodes the answer, and its proof
      reaches the node. */
  method PullOnce(q: DeferredQueue, subscriber: Bytes, w: Wanted, pageSize: nat)
    returns (pairs: seq<(Bytes, Bytes)>, more: bool, ghost blobs: seq<Entry>, ghost es: seq<Event>)
    requires FreshPages(q.St()) && pageSize >= 1 && Carried(Bucket(q.queue, subscriber))
    modifies q
    ensures TookFront(old(q.St()), q.St(), subscriber, w, blobs) && FreshPages(q.St())
    ensures Leads(old(q.St()), es, q.St()) && PullsOnly(es, subscriber, w, pageSize)
    ensures pairs == PairsOf(blobs) && (more <==> Pending(q.queue, subscriber, w))
    ensures Carried(Bucket(q.queue, subscriber))
  {
    ghost var s := q.St();
    var answer;
    answer, pairs, more := Ask(q, subscriber, w, pageSize);
    blobs := TakePage(s, subscriber, w, pageSize, PULL_PAGE_MAX_BYTES, EntryCost).2;
    ghost var s1 := q.St();
    ghost var fs := Prove(q, answer);
    PullTrace(s, PullEvent(subscriber, w, pageSize), s1, fs, q.St(), subscriber, w, pageSize);
    es := [PullEvent(subscriber, w, pageSize)] + fs;
    RoundIs(s, subscriber, w, pageSize, PULL_PAGE_MAX_BYTES, EntryCost);
    RoundLeaves(s, subscriber, w, pageSize, PULL_PAGE_MAX_BYTES, EntryCost);
  }

  /** `taken` of the blobs wanted at `s` have been pulled and proved by `s1`. */
  ghost predicate PullUnderWay(s: State, s1: State, k: Bytes, w: Wanted, taken: nat, received: seq<(Bytes, Bytes)>) {
    var b := Bucket(s.queue, k);
    taken <= |Select(b, w)| && FreshPages(s1) && s1.held == s.held && received == PairsOf(Select(b, w)[..taken]) &&
    Select(Bucket(s1.queue, k), w) == Select(b, w)[taken..] &&
    Select(Bucket(s1.queue, k), Not(w)) == Select(b, Not(w)) &&
    (forall u :: u != k ==> Bucket(s1.queue, u) == Bucket(s.queue, u)) &&
    s1.rows == DeleteRows(s.rows, Select(b, w)[..taken])
  }

  lemma PairsOnward(a: seq<Entry>, b: seq<Entry>)
    ensures PairsOf(a + b) == PairsOf(a) + PairsOf(b)
  {}

  lemma PullAdvances(s: State, s1: State, s2: State, k: Bytes, w: Wanted, taken: nat,
                     received: seq<(Bytes, Bytes)>, blobs: seq<Entry>, taken': nat, received': seq<(Bytes, Bytes)>)
    requires PullUnderWay(s, s1, k, w, taken, received) && TookFront(s1, s2, k, w, blobs) && FreshPages(s2)
    requires taken' == taken + |blobs| && received' == received + PairsOf(blobs)
    ensures PullUnderWay(s, s2, k, w, taken', received')
    ensures Pending(s2.queue, k, w) ==> blobs != []
  {
    var all := Select(Bucket(s.queue, k), w);
    FrontOnward(all, Select(Bucket(s1.queue, k), w), taken, blobs);
    RowsOnward(s.rows, all[..taken], blobs);
    PairsOnward(all[..taken], blobs);
  }

  lemma PullEnds(s: State, s1: State, k: Bytes, w: Wanted, taken: nat, received: seq<(Bytes, Bytes)>)
    requires PullUnderWay(s, s1, k, w, taken, received) && !Pending(s1.queue, k, w)
    ensures received == PairsOf(Select(Bucket(s.queue, k), w)) && Pulled(s, s1, k, w)
    ensures var all := Select(Bucket(s.queue, k), w);
            |received| == |all| && forall i :: 0 <= i < |all| ==> received[i] == (all[i].channel, all[i].blob)
  {
    SelectRest(Bucket(s1.queue, k), w);
    var all := Select(Bucket(s.queue, k), w);
    assert |all[taken..]| == 0;
    assert all[..taken] == all;
  }

  /** One pull more for a requester that has `received` so far. */
  method PullNext(q: DeferredQueue, ghost s: State, subscriber: Bytes, w: Wanted, pageSize: nat,
                  ghost taken: nat, received: seq<(Bytes, Bytes)>)
    returns (received': seq<(Bytes, Bytes)>, more: bool, ghost taken': nat, ghost es: seq<Event>)
    requires PullUnderWay(s, q.St(), subscriber, w, taken, received)
    requires pageSize >= 1 && Carried(Bucket(q.queue, subscriber))
    modifies q
    ensures PullUnderWay(s, q.St(), subscriber, w, taken', received') && taken <= taken'
    ensures Leads(old(q.St()), es, q.St()) && PullsOnly(es, subscriber, w, pageSize)
    ensures Carried(Bucket(q.queue, subscriber))
    ensures if more then taken' > taken else !Pending(q.queue, subscriber, w)
  {
    ghost var s1 := q.St();
    var pairs;
    ghost var blobs;
    pairs, more, blobs, es := PullOnce(q, subscriber, w, pageSize);
    taken' := taken + |blobs|;
    received' := received + pairs;
    PullAdvances(s, s1, q.St(), subscriber, w, taken, received, blobs, taken', received');
  }

  method PullRounds(q: DeferredQueue, subscriber: Bytes, w: Wanted, pageSize: nat)
    returns (received: seq<(Bytes, Bytes)>, ghost es: seq<Event>, ghost taken: nat)
    requires FreshPages(q.St()) && pageSize >= 1 && Carried(Bucket(q.queue, subscriber))
    modifies q
    ensures PullUnderWay(old(q.St()), q.St(), subscriber, w, taken, received) && !Pending(q.queue, subscriber, w)
    ensures Leads(old(q.St()), es, q.St()) && PullsOnly(es, subscriber, w, pageSize)
  {
    ghost var s := q.St();
    var more := true;
    received, es, taken := [], [], 0;
    while more
      invariant PullUnderWay(s, q.St(), subscriber, w, taken, received)
      invariant Carried(Bucket(q.queue, subscriber)) && (!more ==> !Pending(q.queue, subscriber, w))
      invariant Leads(s, es, q.St()) && PullsOnly(es, subscriber, w, pageSize)
      decreases more, |Select(Bucket(s.queue, subscriber), w)| - taken
    {
      ghost var s1 := q.St();
      ghost var fs;
      received, more, taken, fs := PullNext(q, s, subscriber, w, pageSize, taken, received);
      LeadsOn(s, es, s1, fs, q.St());
      es := es + fs;
    }
  }

  /** A requester that pulls until it is told nothing is pending has received
      exactly the blobs wanted, in order, and the node has forgotten them; the
      queue has seen this pull's pages and their proofs, and nothing else. */
  method PullToTheEnd(q: DeferredQueue, subscriber: Bytes, w: Wanted, pageSize: nat)
    returns (received: seq<(Bytes, Bytes)>, ghost es: seq<Event>)
    requires FreshPages(q.St()) && pageSize >= 1 && Carried(Bucket(q.queue, subscriber))
    modifies q
    ensures received == PairsOf(Select(Bucket(old(q.queue), subscriber), w))
    ensures var all := Select(Bucket(old(q.queue), subscriber), w);
            |received| == |all| && forall i :: 0 <= i < |all| ==> received[i] == (all[i].channel, all[i].blob)
    ensures Pulled(old(q.St()), q.St(), subscriber, w)
    ensures Leads(old(q.St()), es, q.St()) && PullsOnly(es, subscriber, w, pageSize)
    ensures old(q.Valid()) ==> q.Valid()
  {
    ghost var s := q.St();
    ghost var taken: nat;
    received, es, taken := PullRounds(q, subscriber, w, pageSize);
    PullEnds(s, q.St(), subscriber, w, taken, received);
    if Inv(s) {
      LeadsKeepsInv(s, es, q.St());
    }
  }
}
