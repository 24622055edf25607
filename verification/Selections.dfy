/** What the selections made of a bucket come to, in plain terms: which entries
    they hold, each once, and in which order. */
module Selections {
  import opened Filters
  import opened Octets
  import opened Entries
  import opened QueueState
  import opened QueueInvariant

  lemma {:induction false} SelectIsChosen(b: seq<Entry>, w: Wanted)
    ensures Select(b, w) == Chosen(b, (e: Entry) => w(e.channel))
  {
    if b != [] {
      SelectIsChosen(b[1..], w);
      ChosenCons(b[0], b[1..], (e: Entry) => w(e.channel));
      assert b == [b[0]] + b[1..];
    }
  }

  lemma {:induction false} IdleIsChosen(b: seq<Entry>, w: Wanted, inFlight: set<nat>)
    ensures Idle(b, w, inFlight) == Chosen(b, (e: Entry) => w(e.channel) && e.ticket !in inFlight)
  {
    if b != [] {
      IdleIsChosen(b[1..], w, inFlight);
      ChosenCons(b[0], b[1..], (e: Entry) => w(e.channel) && e.ticket !in inFlight);
      assert b == [b[0]] + b[1..];
    }
  }

  lemma {:induction false} YoungIsChosen(b: seq<Entry>, threshold: real)
    ensures Young(b, threshold) == Chosen(b, (e: Entry) => e.enqueuedAt >= threshold)
  {
    if b != [] {
      YoungIsChosen(b[1..], threshold);
      ChosenCons(b[0], b[1..], (e: Entry) => e.enqueuedAt >= threshold);
      assert b == [b[0]] + b[1..];
    }
  }

  lemma {:induction false} OldIsChosen(b: seq<Entry>, threshold: real)
    ensures Old(b, threshold) == Chosen(b, (e: Entry) => e.enqueuedAt < threshold)
  {
    if b != [] {
      OldIsChosen(b[1..], threshold);
      ChosenCons(b[0], b[1..], (e: Entry) => e.enqueuedAt < threshold);
      assert b == [b[0]] + b[1..];
    }
  }

  lemma {:induction false} WithoutIsChosen(b: seq<Entry>, t: nat)
    ensures Without(b, t) == Chosen(b, (e: Entry) => e.ticket != t)
  {
    if b != [] {
      WithoutIsChosen(b[1..], t);
      ChosenCons(b[0], b[1..], (e: Entry) => e.ticket != t);
      assert b == [b[0]] + b[1..];
    }
  }

  /** Taking the first `n` wanted entries out splits the bucket once: of the
      front only the unwanted stay, and what stands behind is as it was. */
  lemma {:induction false} DropWantedSplits(b: seq<Entry>, w: Wanted, n: nat) returns (m: nat)
    requires n <= |Select(b, w)|
    ensures m <= |b| && Select(b[..m], w) == Select(b, w)[..n]
    ensures DropWanted(b, w, n) == Select(b[..m], Not(w)) + b[m..]
  {
    if n == 0 {
      m := 0;
      DropNothing(b, w);
      assert b[..0] == [] && b[0..] == b;
    } else {
      var tail := b[1..];
      var m' := DropWantedSplits(tail, w, if w(b[0].channel) then n - 1 else n);
      m := m' + 1;
      SplitCons(b, w, n, m');
    }
  }

  lemma SplitCons(b: seq<Entry>, w: Wanted, n: nat, m: nat)
    requires b != [] && 0 < n <= |Select(b, w)| && m < |b|
    requires var k := if w(b[0].channel) then n - 1 else n;
             Select(b[1..][..m], w) == Select(b[1..], w)[..k] &&
             DropWanted(b[1..], w, k) == Select(b[1..][..m], Not(w)) + b[1..][m..]
    ensures Select(b[..m + 1], w) == Select(b, w)[..n]
    ensures DropWanted(b, w, n) == Select(b[..m + 1], Not(w)) + b[m + 1..]
  {
    var head, tail := b[0], b[1..];
    assert b[..m + 1] == [head] + tail[..m] && b[m + 1..] == tail[m..];
    SelectCons(head, tail[..m], w);
    SelectCons(head, tail[..m], Not(w));
    if w(head.channel) {
      assert Select(b, w)[..n] == [head] + Select(tail, w)[..n - 1];
    } else {
      ConsAssoc(head, Select(tail[..m], Not(w)), tail[m..]);
    }
  }

  lemma {:induction false} DropNothing(b: seq<Entry>, w: Wanted)
    ensures DropWanted(b, w, 0) == b
  {
    if b != [] {
      DropNothing(b[1..], w);
      assert b == [b[0]] + b[1..];
    }
  }

  // -- Counts -----------------------------------------------------------------

  /** As many entries are pending under a hash as the bucket has under it. */
  lemma CountIsChosen(s: State, k: Bytes, routing: Bytes)
    ensures QueueState.CountMatching(s, k, routing) == |Chosen(Bucket(s.queue, k), (e: Entry) => e.channel == routing)|
  {
    SelectIsChosen(Bucket(s.queue, k), Only(routing));
    ChosenSame(Bucket(s.queue, k), (e: Entry) => Only(routing)(e.channel), (e: Entry) => e.channel == routing);
  }

  // -- The announce flush -----------------------------------------------------

  /** A flush copies, once each and in the bucket's order, what is wanted and
      not in flight; so with nothing in flight, all that is wanted. */
  lemma FlushCopiesExact(s: State, k: Bytes, w: Wanted)
    requires Inv(s)
    ensures var copies := QueueState.FlushCopies(s, k, w).1;
            copies == Chosen(Bucket(s.queue, k), (e: Entry) => w(e.channel) && e.ticket !in s.inFlight) &&
            Subsequence(copies, Bucket(s.queue, k)) &&
            (forall i, j :: 0 <= i < j < |copies| ==> copies[i].ticket != copies[j].ticket) &&
            (s.inFlight == {} ==> copies == Select(Bucket(s.queue, k), w))
  {
    var b := Bucket(s.queue, k);
    var p := (e: Entry) => w(e.channel) && e.ticket !in s.inFlight;
    IdleIsChosen(b, w, s.inFlight);
    BucketTicketsDistinct(s, k);
    var at := ChosenExact(b, p);
    IdleInOrder(b, w, s.inFlight);
    if s.inFlight == {} {
      SelectIsChosen(b, w);
      ChosenSame(b, p, (e: Entry) => w(e.channel));
    }
  }

  lemma {:induction false} IdleInOrder(b: seq<Entry>, w: Wanted, inFlight: set<nat>)
    ensures Subsequence(Idle(b, w, inFlight), b)
  {
    if b != [] {
      IdleInOrder(b[1..], w, inFlight);
      ConsSubsequence(b[0], Idle(b[1..], w, inFlight), b[1..]);
      assert b == [b[0]] + b[1..];
    }
  }

  lemma NoMembers(b: seq<Entry>)
    ensures (forall e :: e !in b) ==> b == []
  {
    if b != [] {
      assert b[0] in b;
    }
  }

  /** Nothing is sent again while it is in flight, and all that waits is once
      its flight has ended. */
  lemma FlushAgain(s: State, k: Bytes, w: Wanted, t: nat)
    ensures QueueState.FlushCopies(QueueState.FlushCopies(s, k, w).0, k, w).1 == []
    ensures forall e :: e in QueueState.FlushCopies(Release(s, t), k, w).1 <==>
              e in Bucket(s.queue, k) && w(e.channel) && (e.ticket == t || e.ticket !in s.inFlight)
  {
    var s1 := QueueState.FlushCopies(s, k, w).0;
    IdleMembers(Bucket(s.queue, k), w, s.inFlight);
    IdleMembers(Bucket(s.queue, k), w, s1.inFlight);
    NoMembers(QueueState.FlushCopies(s1, k, w).1);
    IdleMembers(Bucket(s.queue, k), w, Release(s, t).inFlight);
  }
}
