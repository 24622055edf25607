/** Where the queue's bounds hold and where they do not: the per-subscriber
    limit, empty buckets, and what an expiry leaves and reports. */
module QueueLimits {
  import opened Octets
  import opened Entries
  import opened QueueState
  import opened QueueInvariant
  import opened Tallies
  import opened DeferredQueues

  function AtLeastOne(limit: nat): nat { if limit == 0 then 1 else limit }

  /** A limit of 0 still lets one entry in; otherwise an enqueue takes the
      bucket past its limit exactly when it stood past it already, by pages
      that came back unproved. */
  lemma EnqueueKeepsLimit(s: State, k: Bytes, c: Bytes, blob: Bytes, limit: nat, now: real, id: nat, o: Outcome)
    requires Allowed(s, k, limit, o) && o != RefusedGlobalLimit
    ensures var after := Bucket(Enqueue(s, k, c, blob, now, id, o).queue, k);
            after != [] && (|after| <= AtLeastOne(limit) <==> |Bucket(s.queue, k)| <= AtLeastOne(limit))
  {}

  /** A page coming back is not held to the limit: the bucket stands over it
      exactly when page and bucket together do. */
  lemma ReturnIgnoresLimit(s: State, p: nat, limit: nat)
    requires p in s.held
    ensures var k := s.held[p].subscriber;
            |Bucket(Settle(s, p, false).0.queue, k)| <= limit <==> |s.held[p].blobs| + |Bucket(s.queue, k)| <= limit
  {}

  /** Which does happen, at a limit of 1: one entry pulled, another queued in
      its place, and the page back. */
  lemma OverLimitHappens(k: Bytes, c: Bytes)
    ensures var s := State(map[k := [Entry(c, [], 0.0, 1, 1)]], map[], 1, 2, {}, map[1 := Row(k, c, [], 0.0)], 4096);
            var s1 := TakePage(s, k, Any(), 1, 0, (e: Entry) => 0).0;
            var s2 := Enqueue(s1, k, c, [], 0.0, 2, Queued);
            Allowed(s1, k, 1, Queued) && |Bucket(s.queue, k)| <= 1 && |Bucket(Settle(s2, 1, false).0.queue, k)| == 2
  {
    var e := Entry(c, [], 0.0, 1, 1);
    var cost := (e: Entry) => 0;
    var s := State(map[k := [e]], map[], 1, 2, {}, map[1 := Row(k, c, [], 0.0)], 4096);
    assert Select([e], Any()) == [e];
    assert FitsPage([e], 0, cost, 1);
    var s1 := TakePage(s, k, Any(), 1, 0, cost).0;
    assert DropWanted([e], Any(), 1) == [];
    assert s1.held == map[1 := HeldPage(k, [e])] && s1.queue == map[];
    HeldPut(map[], 1, HeldPage(k, [e]));
    assert map[][1 := HeldPage(k, [e])] == s1.held;
    TagMembers(k, [e]);
    assert TotalLen(s1) == 1;
  }

  ghost predicate NoEmptyBucket(q: Buckets) { forall k :: k in q ==> q[k] != [] }

  /** Settling a page unproved leaves an empty bucket exactly when every entry
      of the page was confirmed meanwhile and nothing else waits. */
  lemma SettleLeavesEmpty(s: State, p: nat)
    requires p in s.held && NoEmptyBucket(s.queue)
    ensures NoEmptyBucket(Settle(s, p, false).0.queue) <==>
            s.held[p].blobs != [] || Bucket(s.queue, s.held[p].subscriber) != []
  {
    var k := s.held[p].subscriber;
    var q := Settle(s, p, false).0.queue;
    assert q[k] == s.held[p].blobs + Bucket(s.queue, k);
  }

  /** Which does happen: one entry, pulled, confirmed, and the page back. */
  lemma EmptyBucketHappens(k: Bytes, c: Bytes)
    ensures var s := State(map[k := [Entry(c, [], 0.0, 1, 1)]], map[], 1, 2, {}, map[1 := Row(k, c, [], 0.0)], 4096);
            var s1 := TakePage(s, k, Any(), 1, 0, (e: Entry) => 0).0;
            var s2 := Confirm(s1, k, 1).0;
            var s3 := Settle(s2, 1, false).0;
            NoEmptyBucket(s.queue) && !NoEmptyBucket(s3.queue)
  {
    var e := Entry(c, [], 0.0, 1, 1);
    var cost := (e: Entry) => 0;
    var s := State(map[k := [e]], map[], 1, 2, {}, map[1 := Row(k, c, [], 0.0)], 4096);
    assert Select([e], Any()) == [e];
    assert FitsPage([e], 0, cost, 1);
    var s1 := TakePage(s, k, Any(), 1, 0, cost).0;
    assert DropWanted([e], Any(), 1) == [];
    assert s1.held[1] == HeldPage(k, [e]) && k !in s1.queue;
    assert Without([e], 1) == [];
    var s2 := Confirm(s1, k, 1).0;
    assert s2.held[1] == HeldPage(k, []);
    assert Settle(s2, 1, false).0.queue[k] == [];
  }

  // -- Expiry -----------------------------------------------------------------

  lemma {:induction false} YoungKeepsOrder(b: seq<Entry>, threshold: real)
    ensures Subsequence(Young(b, threshold), b)
  {
    if b != [] {
      YoungKeepsOrder(b[1..], threshold);
      ConsSubsequence(b[0], Young(b[1..], threshold), b[1..]);
      assert b == [b[0]] + b[1..];
    }
  }

  /** After an expiry every bucket holds its survivors, all of them, in their
      old order, and no bucket is empty; held pages are as they were. */
  lemma ExpiryKeepsSurvivors(s: State, threshold: real, k: Bytes)
    ensures var s' := Expire(s, threshold);
            Subsequence(Bucket(s'.queue, k), Bucket(s.queue, k)) && NoEmptyBucket(s'.queue) && s'.held == s.held &&
            (forall e :: e in Bucket(s'.queue, k) <==> e in Bucket(s.queue, k) && e.enqueuedAt >= threshold)
  {
    YoungKeepsOrder(Bucket(s.queue, k), threshold);
    AgeSplit(Bucket(s.queue, k), threshold);
  }

  /** How many of a subscriber's entries under a hash an expiry loses. */
  ghost function Lost(q: Buckets, threshold: real, s: Bytes, r: Bytes): nat {
    |Select(Old(Bucket(q, s), threshold), Only(r))|
  }

  /** The report names each loss once, with its exact count, and nothing else. */
  lemma ReportNamesEachLoss(report: seq<Expired>, q: Buckets, threshold: real)
    requires Reports(report, q, threshold)
    ensures forall i :: 0 <= i < |report| ==>
              report[i].count == Lost(q, threshold, report[i].subscriber, report[i].routing) > 0
    ensures forall s, r :: Lost(q, threshold, s, r) > 0 ==>
              exists e :: e in report && e.subscriber == s && e.routing == r
    ensures forall i, j :: 0 <= i < j < |report| ==>
              report[i].subscriber != report[j].subscriber || report[i].routing != report[j].routing
    ensures forall i, j :: 0 <= i < j < |report| ==>
              Less(report[i].subscriber, report[j].subscriber) ||
              (report[i].subscriber == report[j].subscriber && Less(report[i].routing, report[j].routing))
  {
    forall i | 0 <= i < |report|
      ensures report[i].count == Lost(q, threshold, report[i].subscriber, report[i].routing) > 0
    {
      OrderedCount(report, i);
      assert report[i] in report;
    }
    forall s, r | Lost(q, threshold, s, r) > 0
      ensures exists e :: e in report && e.subscriber == s && e.routing == r
    {
      CountOfPresent(report, s, r);
    }
    forall i, j | 0 <= i < j < |report|
      ensures report[i].subscriber != report[j].subscriber || report[i].routing != report[j].routing
    {
      assert Before(report[i].subscriber, report[i].routing, report[j]);
      LessTrichotomy(report[i].subscriber, report[j].subscriber);
      LessTrichotomy(report[i].routing, report[j].routing);
    }
  }
}
