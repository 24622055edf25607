/** The counts the queue reports of its own losses: `EnqueueTally` and the
    ordered counts of an expiry. */
module Tallies {
  import opened Octets
  import opened QueueState

  datatype Tally = Tally(queued: nat, evicted: nat, evictedFullest: nat, refused: nat)

  function Count(t: Tally, o: Outcome): Tally {
    match o
    case Queued => t.(queued := t.queued + 1)
    case QueuedEvictingOldest(_) => t.(queued := t.queued + 1, evicted := t.evicted + 1)
    case QueuedEvictingFullest(_, _) => t.(queued := t.queued + 1, evictedFullest := t.evictedFullest + 1)
    case RefusedGlobalLimit => t.(refused := t.refused + 1)
  }

  /** What one subscriber lost under one routing hash. */
  datatype Expired = Expired(subscriber: Bytes, routing: Bytes, count: nat)

  predicate Before(s: Bytes, r: Bytes, e: Expired) {
    Less(s, e.subscriber) || (s == e.subscriber && Less(r, e.routing))
  }

  predicate Ordered(c: seq<Expired>) {
    forall i, j :: 0 <= i < j < |c| ==> Before(c[i].subscriber, c[i].routing, c[j])
  }

  /** One more under a key of the ordered map. */
  function Bump(c: seq<Expired>, s: Bytes, r: Bytes): seq<Expired> {
    if c == [] || Before(s, r, c[0]) then [Expired(s, r, 1)] + c
    else if c[0].subscriber == s && c[0].routing == r then [Expired(s, r, c[0].count + 1)] + c[1..]
    else [c[0]] + Bump(c[1..], s, r)
  }

  function CountOf(c: seq<Expired>, s: Bytes, r: Bytes): nat {
    if c == [] then 0
    else (if c[0].subscriber == s && c[0].routing == r then c[0].count else 0) + CountOf(c[1..], s, r)
  }

  function Sum(c: seq<Expired>): nat {
    if c == [] then 0 else c[0].count + Sum(c[1..])
  }

  predicate Positive(c: seq<Expired>) { forall e :: e in c ==> e.count > 0 }

  lemma BeforeTransitive(s: Bytes, r: Bytes, e: Expired, f: Expired)
    requires Before(s, r, e) && Before(e.subscriber, e.routing, f)
    ensures Before(s, r, f)
  {
    if Less(s, e.subscriber) && Less(e.subscriber, f.subscriber) {
      LessTransitive(s, e.subscriber, f.subscriber);
    }
    if Less(r, e.routing) && Less(e.routing, f.routing) {
      LessTransitive(r, e.routing, f.routing);
    }
  }

  lemma {:induction false} BumpCounts(c: seq<Expired>, s: Bytes, r: Bytes)
    ensures Sum(Bump(c, s, r)) == Sum(c) + 1
    ensures forall s', r' :: CountOf(Bump(c, s, r), s', r') == CountOf(c, s', r') + if s' == s && r' == r then 1 else 0
    ensures Positive(c) ==> Positive(Bump(c, s, r))
  {
    if c != [] && !Before(s, r, c[0]) && !(c[0].subscriber == s && c[0].routing == r) {
      BumpCounts(c[1..], s, r);
    }
  }

  /** Keys of a bumped list: the old ones and the new one. */
  lemma {:induction false} BumpKeys(c: seq<Expired>, s: Bytes, r: Bytes)
    ensures forall e :: e in Bump(c, s, r) ==>
              (e.subscriber == s && e.routing == r) ||
              exists f :: f in c && f.subscriber == e.subscriber && f.routing == e.routing
  {
    if c != [] && !Before(s, r, c[0]) && !(c[0].subscriber == s && c[0].routing == r) {
      BumpKeys(c[1..], s, r);
      forall e | e in Bump(c, s, r)
        ensures (e.subscriber == s && e.routing == r) ||
                exists f :: f in c && f.subscriber == e.subscriber && f.routing == e.routing
      {
        if e != c[0] && !(e.subscriber == s && e.routing == r) {
          var f :| f in c[1..] && f.subscriber == e.subscriber && f.routing == e.routing;
          assert f in c;
        }
      }
    }
  }

  lemma {:induction false} BumpOrdered(c: seq<Expired>, s: Bytes, r: Bytes)
    requires Ordered(c)
    ensures Ordered(Bump(c, s, r))
  {
    var b := Bump(c, s, r);
    if c == [] {
    } else if Before(s, r, c[0]) {
      forall j | 0 <= j < |c|
        ensures Before(s, r, c[j])
      {
        if j > 0 { BeforeTransitive(s, r, c[0], c[j]); }
      }
    } else if c[0].subscriber != s || c[0].routing != r {
      var tail := Bump(c[1..], s, r);
      assert Ordered(c[1..]);
      BumpOrdered(c[1..], s, r);
      BumpKeys(c[1..], s, r);
      LessTrichotomy(s, c[0].subscriber);
      LessTrichotomy(r, c[0].routing);
      forall e | e in tail
        ensures Before(c[0].subscriber, c[0].routing, e)
      {
        if !(e.subscriber == s && e.routing == r) {
          var f :| f in c[1..] && f.subscriber == e.subscriber && f.routing == e.routing;
        }
      }
      assert b == [c[0]] + tail;
    }
  }

  /** In an ordered list each key stands once, so its entry is its count. */
  lemma {:induction false} OrderedCount(c: seq<Expired>, i: nat)
    requires Ordered(c) && i < |c|
    ensures CountOf(c, c[i].subscriber, c[i].routing) == c[i].count
  {
    if i == 0 {
      NoneBefore(c[1..], c[0].subscriber, c[0].routing);
    } else {
      assert Before(c[0].subscriber, c[0].routing, c[i]);
      LessTrichotomy(c[0].subscriber, c[i].subscriber);
      LessTrichotomy(c[0].routing, c[i].routing);
      OrderedCount(c[1..], i - 1);
    }
  }

  lemma {:induction false} NoneBefore(c: seq<Expired>, s: Bytes, r: Bytes)
    requires forall e :: e in c ==> Before(s, r, e)
    ensures CountOf(c, s, r) == 0
  {
    if c != [] {
      assert c[0] in c;
      LessTrichotomy(s, c[0].subscriber);
      LessTrichotomy(r, c[0].routing);
      NoneBefore(c[1..], s, r);
    }
  }

  lemma {:induction false} CountOfPresent(c: seq<Expired>, s: Bytes, r: Bytes)
    requires CountOf(c, s, r) > 0
    ensures exists e :: e in c && e.subscriber == s && e.routing == r
  {
    if !(c[0].subscriber == s && c[0].routing == r) {
      CountOfPresent(c[1..], s, r);
      var e :| e in c[1..] && e.subscriber == s && e.routing == r;
      assert e in c;
    } else {
      assert c[0] in c;
    }
  }
}
