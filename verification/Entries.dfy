/** Entries of the deferred queue and the sequences they stand in: one
    subscriber's bucket, or the page a pull holds. */
module Entries {
  import opened Octets

  /** A pending blob (`PendingBlob`): `id` is its database row, `ticket` names
      it while the process runs. */
  datatype Entry = Entry(channel: Bytes, blob: Bytes, enqueuedAt: real, id: nat, ticket: nat)

  /** An entry with the subscriber it is stored for. */
  datatype Item = Item(subscriber: Bytes, entry: Entry)

  type Wanted = Bytes -> bool

  function Not(w: Wanted): Wanted { c => !w(c) }

  function Only(routing: Bytes): Wanted { c => c == routing }

  function Any(): Wanted { c => true }

  /** The entries of `b` whose routing hash `w` admits, in order. */
  function Select(b: seq<Entry>, w: Wanted): (r: seq<Entry>)
    ensures |r| <= |b|
  {
    if b == [] then []
    else if w(b[0].channel) then [b[0]] + Select(b[1..], w)
    else Select(b[1..], w)
  }

  /** `b` without its first `n` admitted entries. */
  function DropWanted(b: seq<Entry>, w: Wanted, n: nat): seq<Entry> {
    if b == [] then []
    else if n > 0 && w(b[0].channel) then DropWanted(b[1..], w, n - 1)
    else [b[0]] + DropWanted(b[1..], w, n)
  }

  /** `b` without the entries ticketed `t`. */
  function Without(b: seq<Entry>, t: nat): (r: seq<Entry>)
    ensures |r| <= |b|
  {
    if b == [] then []
    else if b[0].ticket == t then Without(b[1..], t)
    else [b[0]] + Without(b[1..], t)
  }

  /** The entries of `b` not yet in flight that `w` admits. */
  function Idle(b: seq<Entry>, w: Wanted, inFlight: set<nat>): seq<Entry> {
    if b == [] then []
    else if w(b[0].channel) && b[0].ticket !in inFlight then [b[0]] + Idle(b[1..], w, inFlight)
    else Idle(b[1..], w, inFlight)
  }

  /** The entries of `b` enqueued at `threshold` or later, and those before it. */
  function Young(b: seq<Entry>, threshold: real): seq<Entry> {
    if b == [] then []
    else if b[0].enqueuedAt >= threshold then [b[0]] + Young(b[1..], threshold)
    else Young(b[1..], threshold)
  }

  function Old(b: seq<Entry>, threshold: real): seq<Entry> {
    if b == [] then []
    else if b[0].enqueuedAt >= threshold then Old(b[1..], threshold)
    else [b[0]] + Old(b[1..], threshold)
  }

  function Ids(b: seq<Entry>): set<nat> { set e | e in b :: e.id }

  function Tickets(b: seq<Entry>): set<nat> { set e | e in b :: e.ticket }

  function Tag(subscriber: Bytes, b: seq<Entry>): (r: seq<Item>)
    ensures |r| == |b|
  {
    seq(|b|, i requires 0 <= i < |b| => Item(subscriber, b[i]))
  }

  function Items(subscriber: Bytes, b: seq<Entry>): multiset<Item> { multiset(Tag(subscriber, b)) }

  /** `a` is `b` with some entries left out. */
  predicate Subsequence(a: seq<Entry>, b: seq<Entry>) {
    if a == [] then true
    else b != [] && ((a[0] == b[0] && Subsequence(a[1..], b[1..])) || Subsequence(a, b[1..]))
  }

  lemma ConsSubsequence(e: Entry, a: seq<Entry>, b: seq<Entry>)
    requires Subsequence(a, b)
    ensures Subsequence([e] + a, [e] + b) && Subsequence(a, [e] + b)
  {
    assert ([e] + a)[1..] == a && ([e] + b)[1..] == b;
  }

  // -- Laws of the sequence functions -----------------------------------------

  lemma TagMembers(subscriber: Bytes, b: seq<Entry>)
    ensures forall x :: x in Items(subscriber, b) <==> x.subscriber == subscriber && x.entry in b
    ensures |Items(subscriber, b)| == |b|
  {
    var t := Tag(subscriber, b);
    forall x: Item | x.subscriber == subscriber && x.entry in b
      ensures x in t
    {
      var i :| 0 <= i < |b| && b[i] == x.entry;
      assert t[i] == x;
    }
  }

  lemma ItemsConcat(subscriber: Bytes, a: seq<Entry>, b: seq<Entry>)
    ensures Items(subscriber, a + b) == Items(subscriber, a) + Items(subscriber, b)
  {
    assert Tag(subscriber, a + b) == Tag(subscriber, a) + Tag(subscriber, b);
  }

  lemma {:induction false} ItemsCount(subscriber: Bytes, b: seq<Entry>, e: Entry)
    ensures Items(subscriber, b)[Item(subscriber, e)] == multiset(b)[e]
  {
    if b != [] {
      ItemsCount(subscriber, b[1..], e);
      ItemsConcat(subscriber, [b[0]], b[1..]);
      assert b == [b[0]] + b[1..];
      assert Tag(subscriber, [b[0]]) == [Item(subscriber, b[0])];
    }
  }

  lemma ItemsPermuted(subscriber: Bytes, a: seq<Entry>, b: seq<Entry>)
    requires multiset(a) == multiset(b)
    ensures Items(subscriber, a) == Items(subscriber, b)
  {
    forall x: Item
      ensures Items(subscriber, a)[x] == Items(subscriber, b)[x]
    {
      if x.subscriber == subscriber {
        ItemsCount(subscriber, a, x.entry);
        ItemsCount(subscriber, b, x.entry);
      } else {
        TagMembers(subscriber, a);
        TagMembers(subscriber, b);
      }
    }
  }

  lemma {:induction false} SelectConcat(a: seq<Entry>, b: seq<Entry>, w: Wanted)
    ensures Select(a + b, w) == Select(a, w) + Select(b, w)
  {
    if a == [] {
      assert a + b == b;
    } else {
      var head, tail := a[0], a[1..];
      assert a + b == [head] + (tail + b) && a == [head] + tail;
      SelectConcat(tail, b, w);
      SelectCons(head, tail + b, w);
      SelectCons(head, tail, w);
    }
  }

  lemma {:induction false} SelectMembers(b: seq<Entry>, w: Wanted)
    ensures forall e :: e in Select(b, w) <==> e in b && w(e.channel)
  {
    if b != [] {
      SelectMembers(b[1..], w);
      assert b == [b[0]] + b[1..];
    }
  }

  lemma {:induction false} SelectAll(b: seq<Entry>, w: Wanted)
    requires forall e :: e in b ==> w(e.channel)
    ensures Select(b, w) == b
    ensures Select(b, Not(w)) == []
  {
    if b != [] {
      assert forall e :: e in b[1..] ==> e in b;
      SelectAll(b[1..], w);
      assert b == [b[0]] + b[1..];
    }
  }

  lemma {:induction false} SelectNone(b: seq<Entry>, w: Wanted)
    requires forall e :: e in b ==> !w(e.channel)
    ensures Select(b, w) == []
    ensures Select(b, Not(w)) == b
  {
    if b != [] {
      assert forall e :: e in b[1..] ==> e in b;
      SelectNone(b[1..], w);
      assert b == [b[0]] + b[1..];
    }
  }

  lemma SelectCons(e: Entry, b: seq<Entry>, w: Wanted)
    ensures Select([e] + b, w) == if w(e.channel) then [e] + Select(b, w) else Select(b, w)
  {
    assert ([e] + b)[1..] == b;
  }

  /** Taking the first `n` admitted entries out of a bucket leaves the rest of
      them, every other entry in its order, and loses nothing. */
  lemma {:induction false} DropWantedSelects(b: seq<Entry>, w: Wanted, n: nat)
    requires n <= |Select(b, w)|
    ensures Select(DropWanted(b, w, n), w) == Select(b, w)[n..]
    ensures Select(DropWanted(b, w, n), Not(w)) == Select(b, Not(w))
  {
    if b != [] {
      var head, tail := b[0], b[1..];
      if n > 0 && w(head.channel) {
        DropWantedSelects(tail, w, n - 1);
      } else {
        DropWantedSelects(tail, w, n);
        var kept := DropWanted(tail, w, n);
        SelectCons(head, kept, w);
        SelectCons(head, kept, Not(w));
        if w(head.channel) {
          assert n == 0;
        }
      }
    }
  }

  lemma ConsOneSide(head: Entry, tail: seq<Entry>, a: seq<Entry>, b: seq<Entry>)
    requires multiset(tail) == multiset(a) + multiset(b)
    ensures multiset([head] + tail) == multiset([head] + a) + multiset(b)
    ensures multiset([head] + tail) == multiset(a) + multiset([head] + b)
  {}

  /** The first `n` admitted entries, taken off as `DropWanted` drops them. */
  ghost function FirstWanted(b: seq<Entry>, w: Wanted, n: nat): seq<Entry> {
    if b == [] then []
    else if n > 0 && w(b[0].channel) then [b[0]] + FirstWanted(b[1..], w, n - 1)
    else FirstWanted(b[1..], w, n)
  }

  lemma {:induction false} FirstWantedIsPrefix(b: seq<Entry>, w: Wanted, n: nat)
    requires n <= |Select(b, w)|
    ensures FirstWanted(b, w, n) == Select(b, w)[..n]
  {
    if b != [] {
      FirstWantedIsPrefix(b[1..], w, if n > 0 && w(b[0].channel) then n - 1 else n);
    }
  }

  lemma {:induction false} DropAndFirst(b: seq<Entry>, w: Wanted, n: nat)
    ensures multiset(b) == multiset(DropWanted(b, w, n)) + multiset(FirstWanted(b, w, n))
  {
    if b != [] {
      var head, tail := b[0], b[1..];
      assert b == [head] + tail;
      if n > 0 && w(head.channel) {
        DropAndFirst(tail, w, n - 1);
        ConsOneSide(head, tail, DropWanted(tail, w, n - 1), FirstWanted(tail, w, n - 1));
      } else {
        DropAndFirst(tail, w, n);
        ConsOneSide(head, tail, DropWanted(tail, w, n), FirstWanted(tail, w, n));
      }
    }
  }

  lemma DropWantedKeepsAll(b: seq<Entry>, w: Wanted, n: nat)
    requires n <= |Select(b, w)|
    ensures multiset(b) == multiset(DropWanted(b, w, n)) + multiset(Select(b, w)[..n])
  {
    DropAndFirst(b, w, n);
    FirstWantedIsPrefix(b, w, n);
  }

  lemma {:induction false} DropWantedPrefix(b: seq<Entry>, n: nat)
    requires n <= |b|
    ensures DropWanted(b, Any(), n) == b[n..]
    ensures Select(b, Any()) == b
  {
    if b != [] {
      DropWantedPrefix(b[1..], if n == 0 then 0 else n - 1);
      assert b == [b[0]] + b[1..];
    }
  }

  lemma {:induction false} WithoutMembers(b: seq<Entry>, t: nat)
    ensures forall e :: e in Without(b, t) <==> e in b && e.ticket != t
    ensures t !in Tickets(b) ==> Without(b, t) == b
  {
    if b != [] {
      WithoutMembers(b[1..], t);
      assert b == [b[0]] + b[1..];
    }
  }

  lemma {:induction false} WithoutNone(b: seq<Entry>, t: nat)
    requires forall i :: 0 <= i < |b| ==> b[i].ticket != t
    ensures Without(b, t) == b
  {
    if b != [] {
      WithoutNone(b[1..], t);
      assert b == [b[0]] + b[1..];
    }
  }

  lemma ConsAssoc(e: Entry, a: seq<Entry>, b: seq<Entry>)
    ensures ([e] + a) + b == [e] + (a + b)
  {}

  lemma WithoutCons(e: Entry, b: seq<Entry>, t: nat)
    ensures Without([e] + b, t) == if e.ticket == t then Without(b, t) else [e] + Without(b, t)
  {
    assert ([e] + b)[1..] == b;
  }

  lemma {:induction false} WithoutConcat(a: seq<Entry>, b: seq<Entry>, t: nat)
    ensures Without(a + b, t) == Without(a, t) + Without(b, t)
  {
    if a == [] {
      assert a + b == b;
    } else {
      var head, tail := a[0], a[1..];
      assert a == [head] + tail;
      ConsAssoc(head, tail, b);
      WithoutConcat(tail, b, t);
      WithoutCons(head, tail + b, t);
      WithoutCons(head, tail, t);
      ConsAssoc(head, Without(tail, t), Without(b, t));
    }
  }

  lemma {:induction false} WithoutSelect(b: seq<Entry>, w: Wanted, t: nat)
    ensures Select(Without(b, t), w) == Without(Select(b, w), t)
  {
    if b != [] {
      WithoutSelect(b[1..], w, t);
      var head := if b[0].ticket == t then [] else [b[0]];
      SelectConcat(head, Without(b[1..], t), w);
      WithoutConcat(if w(b[0].channel) then [b[0]] else [], Select(b[1..], w), t);
    }
  }

  lemma Around(b: seq<Entry>, i: nat)
    requires i < |b|
    ensures b == b[..i] + ([b[i]] + b[i + 1..])
  {}

  ghost predicate Nowhere(b: seq<Entry>, t: nat) { forall j :: 0 <= j < |b| ==> b[j].ticket != t }

  lemma NowhereAround(b: seq<Entry>, i: nat)
    requires i < |b| && forall j, k :: 0 <= j < k < |b| ==> b[j].ticket != b[k].ticket
    ensures Nowhere(b[..i], b[i].ticket) && Nowhere(b[i + 1..], b[i].ticket)
  {}

  /** Where tickets are distinct, dropping a ticket removes one entry. */
  lemma WithoutOne(b: seq<Entry>, i: nat)
    requires i < |b|
    requires forall j, k :: 0 <= j < k < |b| ==> b[j].ticket != b[k].ticket
    ensures Without(b, b[i].ticket) == b[..i] + b[i + 1..]
    ensures multiset(b) == multiset(Without(b, b[i].ticket)) + multiset{b[i]}
  {
    NowhereAround(b, i);
    DropMiddle(b, i);
  }

  lemma DropMiddle(b: seq<Entry>, i: nat)
    requires i < |b| && Nowhere(b[..i], b[i].ticket) && Nowhere(b[i + 1..], b[i].ticket)
    ensures Without(b, b[i].ticket) == b[..i] + b[i + 1..]
    ensures multiset(b) == multiset(Without(b, b[i].ticket)) + multiset{b[i]}
  {
    Around(b, i);
    WithoutAround(b[..i], b[i], b[i + 1..]);
    MiddleOut(b[..i], b[i], b[i + 1..]);
  }

  lemma MiddleOut(a: seq<Entry>, e: Entry, c: seq<Entry>)
    ensures multiset(a + ([e] + c)) == multiset(a + c) + multiset{e}
  {}

  lemma WithoutAround(a: seq<Entry>, e: Entry, c: seq<Entry>)
    requires Nowhere(a, e.ticket) && Nowhere(c, e.ticket)
    ensures Without(a + ([e] + c), e.ticket) == a + c
  {
    WithoutConcat(a, [e] + c, e.ticket);
    WithoutNone(a, e.ticket);
    WithoutNone(c, e.ticket);
    WithoutCons(e, c, e.ticket);
  }

  lemma {:induction false} IdleMembers(b: seq<Entry>, w: Wanted, inFlight: set<nat>)
    ensures forall e :: e in Idle(b, w, inFlight) <==> e in b && w(e.channel) && e.ticket !in inFlight
  {
    if b != [] {
      IdleMembers(b[1..], w, inFlight);
      assert b == [b[0]] + b[1..];
    }
  }

  lemma {:induction false} IdleConcat(a: seq<Entry>, b: seq<Entry>, w: Wanted, inFlight: set<nat>)
    ensures Idle(a + b, w, inFlight) == Idle(a, w, inFlight) + Idle(b, w, inFlight)
  {
    if a == [] {
      assert a + b == b;
    } else {
      assert (a + b)[0] == a[0] && (a + b)[1..] == a[1..] + b;
      IdleConcat(a[1..], b, w, inFlight);
    }
  }

  lemma {:induction false} AgeSplit(b: seq<Entry>, threshold: real)
    ensures multiset(b) == multiset(Young(b, threshold)) + multiset(Old(b, threshold))
    ensures forall e :: e in Young(b, threshold) <==> e in b && e.enqueuedAt >= threshold
    ensures forall e :: e in Old(b, threshold) <==> e in b && e.enqueuedAt < threshold
  {
    if b != [] {
      AgeSplit(b[1..], threshold);
      assert b == [b[0]] + b[1..];
    }
  }

  lemma AgeCons(e: Entry, b: seq<Entry>, threshold: real)
    ensures Young([e] + b, threshold) ==
            if e.enqueuedAt >= threshold then [e] + Young(b, threshold) else Young(b, threshold)
    ensures Old([e] + b, threshold) == if e.enqueuedAt >= threshold then Old(b, threshold) else [e] + Old(b, threshold)
  {
    assert ([e] + b)[1..] == b;
  }

  lemma {:induction false} YoungConcat(a: seq<Entry>, b: seq<Entry>, threshold: real)
    ensures Young(a + b, threshold) == Young(a, threshold) + Young(b, threshold)
  {
    if a == [] {
      assert a + b == b;
    } else {
      var head, tail := a[0], a[1..];
      assert a + b == [head] + (tail + b) && a == [head] + tail;
      YoungConcat(tail, b, threshold);
      AgeCons(head, tail + b, threshold);
      AgeCons(head, tail, threshold);
    }
  }

  lemma {:induction false} OldConcat(a: seq<Entry>, b: seq<Entry>, threshold: real)
    ensures Old(a + b, threshold) == Old(a, threshold) + Old(b, threshold)
  {
    if a == [] {
      assert a + b == b;
    } else {
      var head, tail := a[0], a[1..];
      assert a + b == [head] + (tail + b) && a == [head] + tail;
      OldConcat(tail, b, threshold);
      AgeCons(head, tail + b, threshold);
      AgeCons(head, tail, threshold);
    }
  }

  lemma AgeConcat(a: seq<Entry>, b: seq<Entry>, threshold: real)
    ensures Young(a + b, threshold) == Young(a, threshold) + Young(b, threshold)
    ensures Old(a + b, threshold) == Old(a, threshold) + Old(b, threshold)
  {
    YoungConcat(a, b, threshold);
    OldConcat(a, b, threshold);
  }
}
