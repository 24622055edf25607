/** Every operation conserves what is stored except for the entries it says it
    removes, and keeps the invariant. */
module Conservation {
  import opened Octets
  import opened Entries
  import opened QueueState
  import opened QueueInvariant

  // -- Taking entries out of one bucket ---------------------------------------

  lemma OneItem(k: Bytes, e: Entry)
    ensures Items(k, [e]) == multiset{Item(k, e)} && ItemIds(multiset{Item(k, e)}) == {e.id}
  {
    assert Tag(k, [e]) == [Item(k, e)];
  }

  lemma PoolTakeOut(q: Buckets, k: Bytes, kept: seq<Entry>, removed: seq<Entry>)
    requires multiset(Bucket(q, k)) == multiset(kept) + multiset(removed)
    ensures Pool(q) == Pool(SetBucket(q, k, kept)) + Items(k, removed)
  {
    PoolBucket(q, k);
    PoolSet(q, k, kept);
    assert multiset(kept + removed) == multiset(Bucket(q, k));
    ItemsPermuted(k, Bucket(q, k), kept + removed);
    ItemsConcat(k, kept, removed);
  }

  /** `s'` differs from `s` in having lost `gone`, rows and all. */
  ghost predicate Loses(s: State, s': State, gone: multiset<Item>) {
    gone <= Stored(s) && Stored(s') == Stored(s) - gone && s'.rows == s.rows - ItemIds(gone)
  }

  lemma LosesShrinks(s: State, s': State, gone: multiset<Item>)
    requires Loses(s, s', gone)
    ensures TotalLen(s') <= TotalLen(s)
  {}

  lemma LosesKeepsCoherent(s: State, s': State, gone: multiset<Item>)
    requires Coherent(Stored(s), s.rows, s.nextTicket) && Loses(s, s', gone) && s'.nextTicket == s.nextTicket
    ensures Coherent(Stored(s'), s'.rows, s'.nextTicket)
  {
    CoherentRemove(Stored(s), s.rows, s.nextTicket, gone);
  }

  lemma TakeOutLoses(s: State, k: Bytes, kept: seq<Entry>, removed: seq<Entry>, s': State)
    requires multiset(Bucket(s.queue, k)) == multiset(kept) + multiset(removed)
    requires s' == s.(queue := SetBucket(s.queue, k, kept), rows := DeleteRows(s.rows, removed))
    ensures Loses(s, s', Items(k, removed))
  {
    PoolTakeOut(s.queue, k, kept, removed);
    ItemIdsOf(k, removed);
  }

  lemma PopFrontLoses(s: State, v: Bytes)
    requires Bucket(s.queue, v) != []
    ensures Loses(s, PopFront(s, v), Items(v, [Bucket(s.queue, v)[0]]))
  {
    var b := Bucket(s.queue, v);
    assert b == [b[0]] + b[1..];
    assert Ids([b[0]]) == {b[0].id};
    TakeOutLoses(s, v, b[1..], [b[0]], PopFront(s, v));
  }

  lemma DrainMatchingLoses(s: State, k: Bytes, w: Wanted, max: nat)
    ensures Loses(s, DrainMatching(s, k, w, max).0, Items(k, DrainMatching(s, k, w, max).1))
  {
    var b := Bucket(s.queue, k);
    var n := Min(|Select(b, w)|, max);
    DropWantedKeepsAll(b, w, n);
    TakeOutLoses(s, k, DropWanted(b, w, n), Select(b, w)[..n], DrainMatching(s, k, w, max).0);
  }

  lemma DrainBatchLoses(s: State, k: Bytes, max: nat)
    ensures Loses(s, DrainBatch(s, k, max).0, Items(k, DrainBatch(s, k, max).1))
  {
    var b := Bucket(s.queue, k);
    var n := Min(|b|, max);
    assert b == b[..n] + b[n..];
    TakeOutLoses(s, k, b[n..], b[..n], DrainBatch(s, k, max).0);
  }

  lemma DrainLoses(s: State, k: Bytes)
    ensures Loses(s, Drain(s, k).0, Items(k, Drain(s, k).1))
  {
    var b := Bucket(s.queue, k);
    TakeOutLoses(s, k, [], b, Drain(s, k).0);
  }

  // -- Enqueue ----------------------------------------------------------------

  lemma AppendStores(s: State, k: Bytes, channel: Bytes, blob: Bytes, now: real, id: nat)
    ensures Stored(Append(s, k, channel, blob, now, id)) ==
            Stored(s) + multiset{Item(k, Entry(channel, blob, now, id, s.nextTicket))}
  {
    var e := Entry(channel, blob, now, id, s.nextTicket);
    var b := Bucket(s.queue, k);
    PoolBucket(s.queue, k);
    PoolPut(s.queue, k, b + [e]);
    ItemsConcat(k, b, [e]);
    OneItem(k, e);
  }

  /** What an enqueue evicts: the front entry of the victim's bucket. */
  ghost function Evicted(s: State, v: Option<Bytes>): multiset<Item> {
    if v.Some? && Bucket(s.queue, v.value) != [] then Items(v.value, [Bucket(s.queue, v.value)[0]]) else multiset{}
  }

  lemma EvictLoses(s: State, v: Option<Bytes>)
    ensures Loses(s, Evict(s, v), Evicted(s, v))
    ensures Evict(s, v).nextTicket == s.nextTicket && Evict(s, v).held == s.held && Evict(s, v).nextPage == s.nextPage
    ensures Evict(s, v).inFlight == s.inFlight && Evict(s, v).globalLimit == s.globalLimit
  {
    if v.Some? && Bucket(s.queue, v.value) != [] {
      PopFrontLoses(s, v.value);
    }
  }

  lemma EnqueueKeepsInv(s: State, k: Bytes, channel: Bytes, blob: Bytes, now: real, id: nat, o: Outcome)
    requires Inv(s) && (o != RefusedGlobalLimit ==> AboveEveryRow(Evict(s, Victim(k, o)).rows, id))
    ensures Inv(Enqueue(s, k, channel, blob, now, id, o))
  {
    var v := Victim(k, o);
    EvictLoses(s, v);
    LosesKeepsCoherent(s, Evict(s, v), Evicted(s, v));
    if o != RefusedGlobalLimit {
      var s1 := Evict(s, v);
      AppendStores(s1, k, channel, blob, now, id);
      CoherentAdd(Stored(s1), s1.rows, s1.nextTicket, Item(k, Entry(channel, blob, now, id, s1.nextTicket)));
    }
  }

  lemma EnqueueLength(s: State, k: Bytes, channel: Bytes, blob: Bytes, limit: nat, now: real, id: nat, o: Outcome)
    requires Allowed(s, k, limit, o)
    ensures var s' := Enqueue(s, k, channel, blob, now, id, o);
            TotalLen(s') == TotalLen(s) + match o
              case Queued => 1
              case _ => 0
    ensures Enqueue(s, k, channel, blob, now, id, o).held == s.held
  {
    var v := Victim(k, o);
    EvictLoses(s, v);
    if o != RefusedGlobalLimit {
      AppendStores(Evict(s, v), k, channel, blob, now, id);
      if v.Some? {
        TagMembers(v.value, [Bucket(s.queue, v.value)[0]]);
      }
    }
  }

  // -- What an enqueue brings -------------------------------------------------

  /** Whatever `s'` stores was stored before, or is for one of these
      subscribers under one of these hashes. */
  ghost predicate OnlyBrings(s: State, s': State, allowed: set<(Bytes, Bytes)>) {
    forall x :: x in Stored(s') ==> x in Stored(s) || (x.subscriber, x.entry.channel) in allowed
  }

  lemma EnqueueBrings(s: State, k: Bytes, c: Bytes, blob: Bytes, now: real, id: nat, o: Outcome)
    ensures OnlyBrings(s, Enqueue(s, k, c, blob, now, id, o), {(k, c)})
  {
    EvictLoses(s, Victim(k, o));
    if o != RefusedGlobalLimit {
      AppendStores(Evict(s, Victim(k, o)), k, c, blob, now, id);
    }
  }

  // -- Pages ------------------------------------------------------------------

  lemma TakePageStored(s: State, k: Bytes, w: Wanted, max: nat, budget: nat, cost: Cost)
    requires s.nextPage !in s.held
    ensures Stored(TakePage(s, k, w, max, budget, cost).0) == Stored(s)
  {
    var b := Bucket(s.queue, k);
    var n := PageCount(Select(b, w), max, budget, cost);
    var page := Select(b, w)[..n];
    DropWantedKeepsAll(b, w, n);
    PoolTakeOut(s.queue, k, DropWanted(b, w, n), page);
    if n != 0 {
      HeldPut(s.held, s.nextPage, HeldPage(k, page));
    }
  }

  lemma SameStoredKeepsInv(s: State, s': State)
    requires Inv(s) && Stored(s') == Stored(s) && s'.rows == s.rows && s'.nextTicket == s.nextTicket
    requires s'.inFlight == s.inFlight && 0 < s'.nextPage && forall p :: p in s'.held ==> 0 < p < s'.nextPage
    ensures Inv(s')
  {}

  lemma TakePageConserves(s: State, k: Bytes, w: Wanted, max: nat, budget: nat, cost: Cost)
    requires Inv(s)
    ensures Stored(TakePage(s, k, w, max, budget, cost).0) == Stored(s)
    ensures Inv(TakePage(s, k, w, max, budget, cost).0)
  {
    TakePageStored(s, k, w, max, budget, cost);
    TakePageNumbers(s, k, w, max, budget, cost);
    SameStoredKeepsInv(s, TakePage(s, k, w, max, budget, cost).0);
  }

  lemma TakePageNumbers(s: State, k: Bytes, w: Wanted, max: nat, budget: nat, cost: Cost)
    requires 0 < s.nextPage && forall p :: p in s.held ==> 0 < p < s.nextPage
    ensures var s' := TakePage(s, k, w, max, budget, cost).0;
            s'.rows == s.rows && s'.nextTicket == s.nextTicket && s'.inFlight == s.inFlight && 0 < s'.nextPage &&
            forall p :: p in s'.held ==> 0 < p < s'.nextPage
  {}

  lemma SettleProvedLoses(s: State, p: nat)
    requires p in s.held
    ensures Loses(s, Settle(s, p, true).0, PageItems(s.held[p]))
  {
    HeldSplit(s.held, p);
    ItemIdsOf(s.held[p].subscriber, s.held[p].blobs);
  }

  lemma SettleUnprovedStored(s: State, p: nat)
    requires p in s.held
    ensures Stored(Settle(s, p, false).0) == Stored(s)
  {
    var page := s.held[p];
    var b := Bucket(s.queue, page.subscriber);
    HeldSplit(s.held, p);
    PoolBucket(s.queue, page.subscriber);
    PoolPut(s.queue, page.subscriber, page.blobs + b);
    ItemsConcat(page.subscriber, page.blobs, b);
  }

  lemma SettleConserves(s: State, p: nat, proved: bool)
    requires Inv(s) && p in s.held
    ensures proved ==> Loses(s, Settle(s, p, true).0, PageItems(s.held[p]))
    ensures !proved ==> Stored(Settle(s, p, false).0) == Stored(s)
    ensures Inv(Settle(s, p, proved).0)
  {
    if proved {
      SettleProvedLoses(s, p);
      LosesKeepsCoherent(s, Settle(s, p, true).0, PageItems(s.held[p]));
    } else {
      SettleUnprovedStored(s, p);
    }
  }

  // -- Flush ------------------------------------------------------------------

  lemma FlushKeepsInv(s: State, k: Bytes, w: Wanted)
    requires Inv(s)
    ensures Inv(FlushCopies(s, k, w).0)
  {
    var b := Bucket(s.queue, k);
    IdleMembers(b, w, s.inFlight);
    PoolMembers(s.queue);
    forall e | e in FlushCopies(s, k, w).1
      ensures e.ticket < s.nextTicket
    {
      assert Item(k, e) in Stored(s);
    }
  }

  /** No ticket is in a bucket and in a page. */
  lemma ApartFromBucket(s: State, p: nat, k: Bytes, e: Entry, f: Entry)
    requires Inv(s) && p in s.held && s.held[p].subscriber == k
    requires e in Bucket(s.queue, k) && f in s.held[p].blobs
    ensures e.ticket != f.ticket
  {
    PoolMembers(s.queue);
    HeldSplit(s.held, p);
    TagMembers(k, s.held[p].blobs);
    var x, y := Item(k, e), Item(k, f);
    assert x in Pool(s.queue) && y in PageItems(s.held[p]) && y in HeldPool(s.held);
    assert Stored(s)[x] == Pool(s.queue)[x] + HeldPool(s.held)[x];
  }

  /** Nor in two pages. */
  lemma PagesApart(s: State, p: nat, r: nat, e: Entry, f: Entry)
    requires Inv(s) && p in s.held && r in s.held && p != r
    requires e in s.held[p].blobs && f in s.held[r].blobs
    ensures e.ticket != f.ticket
  {
    HeldSplit(s.held, p);
    HeldSplit(s.held - {p}, r);
    TagMembers(s.held[p].subscriber, s.held[p].blobs);
    TagMembers(s.held[r].subscriber, s.held[r].blobs);
    var x, y := Item(s.held[p].subscriber, e), Item(s.held[r].subscriber, f);
    assert x in PageItems(s.held[p]) && y in PageItems(s.held[r]);
    assert x in Stored(s) && y in Stored(s);
    assert Stored(s)[x] >= PageItems(s.held[p])[x] + PageItems(s.held[r])[x];
  }

  lemma SetSameBucket(q: Buckets, k: Bytes)
    ensures Pool(SetBucket(q, k, Bucket(q, k))) == Pool(q)
  {
    PoolBucket(q, k);
    PoolSet(q, k, Bucket(q, k));
  }

  predicate TicketsDistinct(b: seq<Entry>) {
    forall i, j :: 0 <= i < j < |b| ==> b[i].ticket != b[j].ticket
  }

  /** No page of the subscriber's but `except` has the ticket. */
  predicate NoOtherPage(s: State, k: Bytes, t: nat, except: Option<nat>) {
    forall p :: p in s.held && s.held[p].subscriber == k && except != Some(p) ==> t !in Tickets(s.held[p].blobs)
  }

  lemma PagesWithout(s: State, k: Bytes, t: nat, except: Option<nat>)
    requires NoOtherPage(s, k, t, except)
    ensures forall p :: p in s.held && s.held[p].subscriber == k && except != Some(p) ==>
              Without(s.held[p].blobs, t) == s.held[p].blobs
  {
    forall p | p in s.held && s.held[p].subscriber == k && except != Some(p)
      ensures Without(s.held[p].blobs, t) == s.held[p].blobs
    {
      WithoutMembers(s.held[p].blobs, t);
    }
  }

  /** The ticket names an entry of the subscriber's bucket. */
  lemma ConfirmInBucket(s: State, k: Bytes, i: nat)
    requires i < |Bucket(s.queue, k)| && TicketsDistinct(Bucket(s.queue, k))
    requires NoOtherPage(s, k, Bucket(s.queue, k)[i].ticket, None)
    ensures var b := Bucket(s.queue, k);
            var s' := Confirm(s, k, b[i].ticket).0;
            s'.queue == SetBucket(s.queue, k, b[..i] + b[i + 1..]) && s'.held == s.held &&
            s'.rows == s.rows - {b[i].id} && Confirm(s, k, b[i].ticket).1
  {
    var b := Bucket(s.queue, k);
    var t := b[i].ticket;
    WithoutOne(b, i);
    PagesWithout(s, k, t, None);
    assert HeldWithout(s.held, k, t) == s.held;
    assert b[i] in b && forall e :: e in b && e.ticket == t ==> e == b[i];
    forall p, e | p in s.held && s.held[p].subscriber == k && e in s.held[p].blobs
      ensures e.ticket != t
    {
      assert e.ticket in Tickets(s.held[p].blobs);
    }
    assert RowsOfTicket(s, k, t) == {b[i].id};
  }

  lemma ConfirmInBucketLoses(s: State, k: Bytes, i: nat)
    requires i < |Bucket(s.queue, k)| && TicketsDistinct(Bucket(s.queue, k))
    requires NoOtherPage(s, k, Bucket(s.queue, k)[i].ticket, None)
    ensures Loses(s, Confirm(s, k, Bucket(s.queue, k)[i].ticket).0, multiset{Item(k, Bucket(s.queue, k)[i])})
  {
    var b := Bucket(s.queue, k);
    ConfirmInBucket(s, k, i);
    WithoutOne(b, i);
    PoolTakeOut(s.queue, k, Without(b, b[i].ticket), [b[i]]);
    OneItem(k, b[i]);
  }

  /** The ticket names an entry of a page the subscriber's pull holds. */
  lemma ConfirmInPage(s: State, k: Bytes, p: nat, i: nat)
    requires p in s.held && s.held[p].subscriber == k && i < |s.held[p].blobs| && TicketsDistinct(s.held[p].blobs)
    requires s.held[p].blobs[i].ticket !in Tickets(Bucket(s.queue, k))
    requires NoOtherPage(s, k, s.held[p].blobs[i].ticket, Some(p))
    ensures var c := s.held[p].blobs;
            var s' := Confirm(s, k, c[i].ticket).0;
            s'.queue == SetBucket(s.queue, k, Bucket(s.queue, k)) &&
            s'.held == s.held[p := HeldPage(k, c[..i] + c[i + 1..])] &&
            s'.rows == s.rows - {c[i].id} && Confirm(s, k, c[i].ticket).1
  {
    var b, c := Bucket(s.queue, k), s.held[p].blobs;
    var t := c[i].ticket;
    WithoutOne(c, i);
    WithoutMembers(b, t);
    PagesWithout(s, k, t, Some(p));
    assert HeldWithout(s.held, k, t) == s.held[p := HeldPage(k, c[..i] + c[i + 1..])];
    assert c[i] in c && forall e :: e in c && e.ticket == t ==> e == c[i];
    forall r, e | r in s.held && r != p && s.held[r].subscriber == k && e in s.held[r].blobs
      ensures e.ticket != t
    {
      assert e.ticket in Tickets(s.held[r].blobs);
    }
    forall e | e in b
      ensures e.ticket != t
    {
      assert e.ticket in Tickets(b);
    }
    assert RowsOfTicket(s, k, t) == {c[i].id};
  }

  lemma ItemsMiddle(k: Bytes, c: seq<Entry>, i: nat)
    requires i < |c|
    ensures Items(k, c) == Items(k, c[..i] + c[i + 1..]) + multiset{Item(k, c[i])}
  {
    var rest := c[..i] + c[i + 1..];
    Around(c, i);
    MiddleOut(c[..i], c[i], c[i + 1..]);
    ItemsPermuted(k, c, rest + [c[i]]);
    ItemsConcat(k, rest, [c[i]]);
    OneItem(k, c[i]);
  }

  lemma HeldTakeOut(h: map<nat, HeldPage>, p: nat, i: nat)
    requires p in h && i < |h[p].blobs|
    ensures var c := h[p].blobs;
            HeldPool(h) ==
              HeldPool(h[p := HeldPage(h[p].subscriber, c[..i] + c[i + 1..])]) + multiset{Item(h[p].subscriber, c[i])}
  {
    var k, c := h[p].subscriber, h[p].blobs;
    var page := HeldPage(k, c[..i] + c[i + 1..]);
    HeldSplit(h, p);
    HeldPut(h - {p}, p, page);
    assert h[p := page] == (h - {p})[p := page];
    ItemsMiddle(k, c, i);
  }

  lemma ConfirmInPageLoses(s: State, k: Bytes, p: nat, i: nat)
    requires p in s.held && s.held[p].subscriber == k && i < |s.held[p].blobs| && TicketsDistinct(s.held[p].blobs)
    requires s.held[p].blobs[i].ticket !in Tickets(Bucket(s.queue, k))
    requires NoOtherPage(s, k, s.held[p].blobs[i].ticket, Some(p))
    ensures Loses(s, Confirm(s, k, s.held[p].blobs[i].ticket).0, multiset{Item(k, s.held[p].blobs[i])})
  {
    ConfirmInPage(s, k, p, i);
    SetSameBucket(s.queue, k);
    HeldTakeOut(s.held, p, i);
    OneItem(k, s.held[p].blobs[i]);
  }

  ghost predicate BucketApart(s: State, k: Bytes) {
    forall e :: e in Bucket(s.queue, k) ==> NoOtherPage(s, k, e.ticket, None)
  }

  ghost predicate PageApart(s: State, k: Bytes, p: nat)
    requires p in s.held
  {
    forall e :: e in s.held[p].blobs ==>
      e.ticket !in Tickets(Bucket(s.queue, k)) && NoOtherPage(s, k, e.ticket, Some(p))
  }

  /** A ticket stands once in the subscriber's bucket and pages together. */
  ghost predicate TicketsApart(s: State, k: Bytes) {
    TicketsDistinct(Bucket(s.queue, k)) && BucketApart(s, k) &&
    (forall p :: p in s.held ==> TicketsDistinct(s.held[p].blobs)) &&
    (forall p :: p in s.held && s.held[p].subscriber == k ==> PageApart(s, k, p))
  }

  lemma BucketIsApart(s: State, k: Bytes)
    requires Inv(s)
    ensures BucketApart(s, k)
  {
    forall p, e, f | p in s.held && s.held[p].subscriber == k && e in Bucket(s.queue, k) && f in s.held[p].blobs
      ensures e.ticket != f.ticket
    {
      ApartFromBucket(s, p, k, e, f);
    }
  }

  lemma PageIsApart(s: State, k: Bytes, p: nat)
    requires Inv(s) && p in s.held && s.held[p].subscriber == k
    ensures PageApart(s, k, p)
  {
    forall e, f | e in Bucket(s.queue, k) && f in s.held[p].blobs
      ensures e.ticket != f.ticket
    {
      ApartFromBucket(s, p, k, e, f);
    }
    forall r, e, f | r in s.held && p != r && e in s.held[p].blobs && f in s.held[r].blobs
      ensures e.ticket != f.ticket
    {
      PagesApart(s, p, r, e, f);
    }
  }

  /** Every reachable state keeps tickets apart. */
  lemma TicketPlaces(s: State, k: Bytes)
    requires Inv(s)
    ensures TicketsApart(s, k)
  {
    BucketTicketsDistinct(s, k);
    BucketIsApart(s, k);
    forall p | p in s.held
      ensures TicketsDistinct(s.held[p].blobs)
    {
      PageTicketsDistinct(s, p);
    }
    forall p | p in s.held && s.held[p].subscriber == k
      ensures PageApart(s, k, p)
    {
      PageIsApart(s, k, p);
    }
  }

  /** The ticket names nothing the subscriber has stored. */
  lemma ConfirmNowhere(s: State, k: Bytes, t: nat)
    requires t !in Tickets(Bucket(s.queue, k)) && NoOtherPage(s, k, t, None)
    ensures var s' := Confirm(s, k, t).0;
            s'.queue == SetBucket(s.queue, k, Bucket(s.queue, k)) && s'.held == s.held && s'.rows == s.rows &&
            !Confirm(s, k, t).1 && Stored(s') == Stored(s)
  {
    var b := Bucket(s.queue, k);
    WithoutMembers(b, t);
    PagesWithout(s, k, t, None);
    assert HeldWithout(s.held, k, t) == s.held;
    forall e | e in b
      ensures e.ticket != t
    {
      assert e.ticket in Tickets(b);
    }
    forall p, e | p in s.held && s.held[p].subscriber == k && e in s.held[p].blobs
      ensures e.ticket != t
    {
      assert e.ticket in Tickets(s.held[p].blobs);
    }
    assert RowsOfTicket(s, k, t) == {};
    SetSameBucket(s.queue, k);
  }

  /** What a confirm of `t` for `k` can find. */
  ghost function TicketNamed(s: State, k: Bytes, t: nat): set<Item> {
    set x | x in Stored(s) && x.subscriber == k && x.entry.ticket == t
  }

  lemma NamedIs(s: State, x: Item)
    requires Inv(s) && x in Stored(s)
    ensures TicketNamed(s, x.subscriber, x.entry.ticket) == {x}
  {}

  lemma BucketStored(s: State, k: Bytes, e: Entry)
    requires e in Bucket(s.queue, k)
    ensures Item(k, e) in Stored(s) && Item(k, e) in Pool(s.queue)
  {
    PoolMembers(s.queue);
  }

  lemma PageStored(s: State, p: nat, e: Entry)
    requires p in s.held && e in s.held[p].blobs
    ensures Item(s.held[p].subscriber, e) in Stored(s) && Item(s.held[p].subscriber, e) in HeldPool(s.held)
  {
    HeldSplit(s.held, p);
    TagMembers(s.held[p].subscriber, s.held[p].blobs);
  }

  lemma StoredPlace(s: State, x: Item)
    requires x in Stored(s)
    ensures x.entry in Bucket(s.queue, x.subscriber) ||
            exists p :: p in s.held && s.held[p].subscriber == x.subscriber && x.entry in s.held[p].blobs
  {
    PoolMembers(s.queue);
    HeldMembers(s.held);
    if x !in Pool(s.queue) {
      var p :| p in s.held && x in PageItems(s.held[p]);
      TagMembers(s.held[p].subscriber, s.held[p].blobs);
    }
  }

  ghost predicate ConfirmsNamed(s: State, k: Bytes, t: nat) {
    |TicketNamed(s, k, t)| <= 1 && Loses(s, Confirm(s, k, t).0, multiset(TicketNamed(s, k, t))) &&
    (Confirm(s, k, t).1 <==> TicketNamed(s, k, t) != {})
  }

  lemma ConfirmCaseBucket(s: State, k: Bytes, i: nat)
    requires Inv(s) && i < |Bucket(s.queue, k)|
    ensures ConfirmsNamed(s, k, Bucket(s.queue, k)[i].ticket)
  {
    var e := Bucket(s.queue, k)[i];
    TicketPlaces(s, k);
    BucketStored(s, k, e);
    NamedIs(s, Item(k, e));
    ConfirmInBucket(s, k, i);
    ConfirmInBucketLoses(s, k, i);
    assert multiset({Item(k, e)}) == multiset{Item(k, e)};
  }

  lemma ConfirmCasePage(s: State, k: Bytes, p: nat, i: nat)
    requires Inv(s) && p in s.held && s.held[p].subscriber == k && i < |s.held[p].blobs|
    ensures ConfirmsNamed(s, k, s.held[p].blobs[i].ticket)
  {
    var e := s.held[p].blobs[i];
    TicketPlaces(s, k);
    PageStored(s, p, e);
    NamedIs(s, Item(k, e));
    ConfirmInPage(s, k, p, i);
    ConfirmInPageLoses(s, k, p, i);
    assert multiset({Item(k, e)}) == multiset{Item(k, e)};
  }

  lemma ConfirmCaseNowhere(s: State, k: Bytes, t: nat)
    requires t !in Tickets(Bucket(s.queue, k)) && NoOtherPage(s, k, t, None)
    ensures ConfirmsNamed(s, k, t)
  {
    ConfirmNowhere(s, k, t);
    forall x | x in Stored(s) && x.subscriber == k
      ensures x.entry.ticket != t
    {
      StoredPlace(s, x);
    }
    assert TicketNamed(s, k, t) == {};
    assert ItemIds(multiset{}) == {};
  }

  lemma ConfirmCases(s: State, k: Bytes, t: nat)
    requires Inv(s)
    ensures ConfirmsNamed(s, k, t)
  {
    var b := Bucket(s.queue, k);
    if i :| 0 <= i < |b| && b[i].ticket == t {
      ConfirmCaseBucket(s, k, i);
    } else if p, i :| p in s.held && s.held[p].subscriber == k && 0 <= i < |s.held[p].blobs| &&
                      s.held[p].blobs[i].ticket == t {
      ConfirmCasePage(s, k, p, i);
    } else {
      ConfirmCaseNowhere(s, k, t);
    }
  }

  /** Confirming removes the one stored entry the ticket names under the
      subscriber, or nothing when there is none. */
  lemma ConfirmRemovesExactly(s: State, k: Bytes, t: nat)
    requires Inv(s)
    ensures ConfirmsNamed(s, k, t)
    ensures Inv(Confirm(s, k, t).0)
  {
    ConfirmCases(s, k, t);
    LosesKeepsCoherent(s, Confirm(s, k, t).0, multiset(TicketNamed(s, k, t)));
  }

  // -- Expiry -----------------------------------------------------------------

  ghost function OldBuckets(q: Buckets, threshold: real): Buckets {
    map k | k in q :: Old(q[k], threshold)
  }

  lemma AgeItems(k: Bytes, b: seq<Entry>, threshold: real)
    ensures Items(k, b) == Items(k, Young(b, threshold)) + Items(k, Old(b, threshold))
  {
    AgeSplit(b, threshold);
    assert multiset(b) == multiset(Young(b, threshold) + Old(b, threshold));
    ItemsPermuted(k, b, Young(b, threshold) + Old(b, threshold));
    ItemsConcat(k, Young(b, threshold), Old(b, threshold));
  }

  lemma {:induction false} ExpirePool(q: Buckets, threshold: real)
    ensures Pool(q) == Pool(YoungBuckets(q, threshold)) + Pool(OldBuckets(q, threshold))
    decreases q.Keys
  {
    var young, old' := YoungBuckets(q, threshold), OldBuckets(q, threshold);
    if q != map[] {
      var k :| k in q;
      assert young - {k} == YoungBuckets(q - {k}, threshold);
      assert old' - {k} == OldBuckets(q - {k}, threshold);
      assert Bucket(young, k) == Young(q[k], threshold);
      ExpirePool(q - {k}, threshold);
      PoolSplit(q, k);
      PoolBucket(young, k);
      PoolBucket(old', k);
      AgeItems(k, q[k], threshold);
    } else {
      assert young == map[] && old' == map[];
    }
  }

  lemma OldMembers(q: Buckets, threshold: real)
    ensures forall x :: x in Pool(OldBuckets(q, threshold)) <==> x in Pool(q) && x.entry.enqueuedAt < threshold
    ensures ItemIds(Pool(OldBuckets(q, threshold))) == OldIds(q, threshold)
  {
    var gone := Pool(OldBuckets(q, threshold));
    PoolMembers(q);
    PoolMembers(OldBuckets(q, threshold));
    forall k | k in q
      ensures forall e :: e in Old(q[k], threshold) <==> e in q[k] && e.enqueuedAt < threshold
    {
      AgeSplit(q[k], threshold);
    }
    OldMembersIds(q, threshold, gone);
  }

  lemma OldMembersIds(q: Buckets, threshold: real, gone: multiset<Item>)
    requires forall x :: x in gone <==> x in Pool(q) && x.entry.enqueuedAt < threshold
    ensures ItemIds(gone) == OldIds(q, threshold)
  {
    PoolMembers(q);
    forall id | id in OldIds(q, threshold)
      ensures id in ItemIds(gone)
    {
      var k, e :| k in q && e in q[k] && e.enqueuedAt < threshold && e.id == id;
      assert Item(k, e) in gone;
    }
  }

  lemma ExpireStored(s: State, threshold: real)
    ensures Loses(s, Expire(s, threshold), Pool(OldBuckets(s.queue, threshold)))
  {
    ExpirePool(s.queue, threshold);
    OldMembers(s.queue, threshold);
  }

  /** Expiry removes exactly the bucketed entries older than the threshold:
      nothing from a page a pull holds. */
  lemma ExpireLoses(s: State, threshold: real)
    requires Inv(s)
    ensures Loses(s, Expire(s, threshold), Pool(OldBuckets(s.queue, threshold)))
    ensures forall x :: x in Pool(OldBuckets(s.queue, threshold)) <==>
              x in Pool(s.queue) && x.entry.enqueuedAt < threshold
    ensures Inv(Expire(s, threshold))
  {
    OldMembers(s.queue, threshold);
    ExpireStored(s, threshold);
    LosesKeepsCoherent(s, Expire(s, threshold), Pool(OldBuckets(s.queue, threshold)));
  }

  // -- Restart ----------------------------------------------------------------

  lemma {:induction false} RowsOfComplete(rows: map<nat, Row>, ids: seq<nat>, k: Bytes)
    requires forall i :: i in ids ==> i in rows
    requires forall i, j :: 0 <= i < j < |ids| ==> ids[i] < ids[j]
    ensures forall i :: i in RowsOf(rows, ids, k) <==> i in ids && rows[i].subscriber == k
    ensures forall i, j :: 0 <= i < j < |RowsOf(rows, ids, k)| ==> RowsOf(rows, ids, k)[i] < RowsOf(rows, ids, k)[j]
  {
    if ids != [] {
      var init, last := ids[..|ids| - 1], ids[|ids| - 1];
      assert ids == init + [last];
      RowsOfComplete(rows, init, k);
      var r0, r := RowsOf(rows, init, k), RowsOf(rows, ids, k);
      assert forall i :: 0 <= i < |r0| ==> r0[i] in init && r0[i] == r[i];
      assert |r| == |r0| || (|r| == |r0| + 1 && r[|r0|] == last);
    }
  }

  lemma NoRepeats(b: seq<Entry>, e: Entry)
    requires e in b && forall i, j :: 0 <= i < j < |b| ==> b[i] != b[j]
    ensures multiset(b)[e] == 1
  {
    var i :| 0 <= i < |b| && b[i] == e;
    var a, c := b[..i], b[i + 1..];
    assert e !in a && e !in c;
    assert e !in a + c;
    Around(b, i);
    MiddleOut(a, e, c);
  }

  lemma PoolCount(q: Buckets, x: Item)
    ensures Pool(q)[x] == multiset(Bucket(q, x.subscriber))[x.entry]
  {
    PoolBucket(q, x.subscriber);
    PoolMembers(q - {x.subscriber});
    ItemsCount(x.subscriber, Bucket(q, x.subscriber), x.entry);
  }

  /** A loaded bucket read by position: ascending row ids, none twice. */
  lemma LoadedBucket(rows: map<nat, Row>, s: State, k: Bytes)
    requires Loaded(rows, s)
    ensures forall i, j :: 0 <= i < j < |Bucket(s.queue, k)| ==> Bucket(s.queue, k)[i].id < Bucket(s.queue, k)[j].id
    ensures forall e :: e in Bucket(s.queue, k) ==> e.id in rows && rows[e.id] == RowOf(k, e)
    ensures forall id :: id in rows && rows[id].subscriber == k ==> exists e :: e in Bucket(s.queue, k) && e.id == id
  {
    var b := Bucket(s.queue, k);
    var r := RowsOf(rows, Ascending(rows.Keys), k);
    RowsOfComplete(rows, Ascending(rows.Keys), k);
    assert BuiltFrom(b, rows, k, r);
    forall id | id in rows && rows[id].subscriber == k
      ensures exists e :: e in b && e.id == id
    {
      var i :| 0 <= i < |r| && r[i] == id;
      assert b[i] in b && b[i].id == id;
    }
  }

  lemma LoadedOnce(rows: map<nat, Row>, s: State, x: Item)
    requires Loaded(rows, s) && x in Pool(s.queue)
    ensures Pool(s.queue)[x] == 1
  {
    PoolMembers(s.queue);
    LoadedBucket(rows, s, x.subscriber);
    NoRepeats(Bucket(s.queue, x.subscriber), x.entry);
    PoolCount(s.queue, x);
  }

  lemma LoadedSameId(rows: map<nat, Row>, s: State, x: Item, y: Item)
    requires Loaded(rows, s) && x in Pool(s.queue) && y in Pool(s.queue) && x.entry.id == y.entry.id
    ensures x == y
  {
    PoolMembers(s.queue);
    LoadedBucket(rows, s, x.subscriber);
    LoadedBucket(rows, s, y.subscriber);
    var b := Bucket(s.queue, x.subscriber);
    var i :| 0 <= i < |b| && b[i] == x.entry;
    var j :| 0 <= j < |b| && b[j] == y.entry;
  }

  lemma LoadedMirrors(rows: map<nat, Row>, s: State)
    requires Loaded(rows, s)
    ensures Mirrored(Pool(s.queue), rows)
  {
    PoolMembers(s.queue);
    forall x | x in Pool(s.queue)
      ensures x.entry.id in rows && rows[x.entry.id] == RowOf(x.subscriber, x.entry)
    {
      LoadedBucket(rows, s, x.subscriber);
    }
    forall id | id in rows
      ensures exists x :: x in Pool(s.queue) && x.entry.id == id
    {
      var k := rows[id].subscriber;
      LoadedBucket(rows, s, k);
      var e :| e in Bucket(s.queue, k) && e.id == id;
      assert Item(k, e) in Pool(s.queue);
    }
  }

  lemma LoadedEachOnce(rows: map<nat, Row>, s: State)
    requires Loaded(rows, s)
    ensures forall x :: x in Pool(s.queue) ==> Pool(s.queue)[x] == 1
  {
    forall x | x in Pool(s.queue)
      ensures Pool(s.queue)[x] == 1
    {
      LoadedOnce(rows, s, x);
    }
  }

  lemma LoadedIdsName(rows: map<nat, Row>, s: State)
    requires Loaded(rows, s)
    ensures forall x, y :: x in Pool(s.queue) && y in Pool(s.queue) && x.entry.id == y.entry.id ==> x == y
  {
    forall x, y | x in Pool(s.queue) && y in Pool(s.queue) && x.entry.id == y.entry.id
      ensures x == y
    {
      LoadedSameId(rows, s, x, y);
    }
  }

  lemma NamedFrom(m: multiset<Item>, rows: map<nat, Row>, next: nat)
    requires FreshTickets(m, next) && Mirrored(m, rows) && 0 !in rows
    requires forall x :: x in m ==> m[x] == 1
    requires forall x, y :: x in m && y in m && x.entry.id == y.entry.id ==> x == y
    ensures Named(m, next)
  {}

  lemma LoadedNamed(rows: map<nat, Row>, s: State)
    requires Loaded(rows, s) && 0 !in rows
    ensures Named(Pool(s.queue), s.nextTicket)
  {
    LoadedMirrors(rows, s);
    LoadedEachOnce(rows, s);
    LoadedIdsName(rows, s);
    NamedFrom(Pool(s.queue), rows, s.nextTicket);
  }

  /** Whatever the table, what is loaded from it keeps the invariant. */
  lemma LoadedInv(rows: map<nat, Row>, s: State)
    requires Loaded(rows, s) && 0 !in rows
    ensures Inv(s)
  {
    assert Stored(s) == Pool(s.queue);
    LoadedMirrors(rows, s);
    LoadedNamed(rows, s);
  }

  lemma NoRowZero(s: State)
    requires Inv(s)
    ensures 0 !in s.rows
  {}

  lemma LoadedKeepsInv(s: State, s': State)
    requires Inv(s) && Loaded(s.rows, s')
    ensures Inv(s')
  {
    NoRowZero(s);
    LoadedInv(s.rows, s');
  }
}
