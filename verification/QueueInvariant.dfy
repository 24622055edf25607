/** What holds of the deferred queue in every reachable state, and how each
    operation changes the whole of what is stored. */
module QueueInvariant {
  import opened Octets
  import opened Entries
  import opened QueueState

  /** Tickets and row ids name one stored entry each. */
  ghost predicate Named(m: multiset<Item>, nextTicket: nat) {
    (forall x :: x in m ==> m[x] == 1 && 0 < x.entry.ticket < nextTicket && 0 < x.entry.id) &&
    (forall x, y :: x in m && y in m && x.entry.ticket == y.entry.ticket ==> x == y) &&
    (forall x, y :: x in m && y in m && x.entry.id == y.entry.id ==> x == y)
  }

  /** The table holds exactly the stored entries' rows. */
  ghost predicate Mirrored(m: multiset<Item>, rows: map<nat, Row>) {
    (forall x :: x in m ==> x.entry.id in rows && rows[x.entry.id] == RowOf(x.subscriber, x.entry)) &&
    (forall id :: id in rows ==> exists x :: x in m && x.entry.id == id)
  }

  ghost predicate Coherent(m: multiset<Item>, rows: map<nat, Row>, nextTicket: nat) {
    Named(m, nextTicket) && Mirrored(m, rows)
  }

  ghost predicate Inv(s: State) {
    Coherent(Stored(s), s.rows, s.nextTicket) &&
    0 < s.nextPage && 0 < s.nextTicket &&
    (forall p :: p in s.held ==> 0 < p < s.nextPage) &&
    (forall t :: t in s.inFlight ==> t < s.nextTicket)
  }

  ghost function ItemIds(m: multiset<Item>): set<nat> { set x | x in m :: x.entry.id }

  lemma CoherentRemove(m: multiset<Item>, rows: map<nat, Row>, next: nat, gone: multiset<Item>)
    requires Coherent(m, rows, next) && gone <= m
    ensures Coherent(m - gone, rows - ItemIds(gone), next)
  {
    var m', ids := m - gone, ItemIds(gone);
    assert forall x :: x in m' ==> x in m && x !in gone;
    forall id | id in rows - ids
      ensures exists x :: x in m' && x.entry.id == id
    {
      var x :| x in m && x.entry.id == id;
      assert x !in gone;
      assert x in m';
    }
  }

  lemma NamedAdd(m: multiset<Item>, next: nat, x: Item)
    requires Named(m, next) && x.entry.ticket == next > 0 && x.entry.id > 0
    requires forall y :: y in m ==> y.entry.id != x.entry.id
    ensures Named(m + multiset{x}, next + 1)
  {
    var m' := m + multiset{x};
    assert forall y :: y in m' <==> y in m || y == x;
    assert x !in m;
    assert forall y :: y in m ==> m'[y] == m[y];
  }

  lemma MirroredAdd(m: multiset<Item>, rows: map<nat, Row>, x: Item)
    requires Mirrored(m, rows) && x.entry.id !in rows
    ensures Mirrored(m + multiset{x}, rows[x.entry.id := RowOf(x.subscriber, x.entry)])
  {
    var m', rows' := m + multiset{x}, rows[x.entry.id := RowOf(x.subscriber, x.entry)];
    assert forall y :: y in m' <==> y in m || y == x;
    forall id | id in rows'
      ensures exists y :: y in m' && y.entry.id == id
    {
      if id == x.entry.id {
        assert x in m';
      } else {
        var y :| y in m && y.entry.id == id;
        assert y in m';
      }
    }
  }

  lemma CoherentAdd(m: multiset<Item>, rows: map<nat, Row>, next: nat, x: Item)
    requires Coherent(m, rows, next)
    requires x.entry.ticket == next > 0 && AboveEveryRow(rows, x.entry.id)
    ensures Coherent(m + multiset{x}, rows[x.entry.id := RowOf(x.subscriber, x.entry)], next + 1)
  {
    MirroredAdd(m, rows, x);
    NamedAdd(m, next, x);
  }

  // -- The pool of a map of buckets -------------------------------------------

  lemma {:induction false} PoolSplit(q: Buckets, k: Bytes)
    requires k in q
    ensures Pool(q) == Items(k, q[k]) + Pool(q - {k})
    decreases q.Keys
  {
    var j :| j in q && Pool(q) == Items(j, q[j]) + Pool(q - {j});
    if j != k {
      var rest := q - {k} - {j};
      assert q - {j} - {k} == rest;
      PoolSplit(q - {j}, k);
      PoolSplit(q - {k}, j);
      assert Pool(q - {j}) == Items(k, q[k]) + Pool(rest);
      assert Pool(q - {k}) == Items(j, q[j]) + Pool(rest);
    }
  }

  lemma {:induction false} HeldSplit(h: map<nat, HeldPage>, p: nat)
    requires p in h
    ensures HeldPool(h) == PageItems(h[p]) + HeldPool(h - {p})
    decreases h.Keys
  {
    var j :| j in h && HeldPool(h) == PageItems(h[j]) + HeldPool(h - {j});
    if j != p {
      var rest := h - {p} - {j};
      assert h - {j} - {p} == rest;
      HeldSplit(h - {j}, p);
      HeldSplit(h - {p}, j);
      assert HeldPool(h - {j}) == PageItems(h[p]) + HeldPool(rest);
      assert HeldPool(h - {p}) == PageItems(h[j]) + HeldPool(rest);
    }
  }

  lemma PoolBucket(q: Buckets, k: Bytes)
    ensures Pool(q) == Items(k, Bucket(q, k)) + Pool(q - {k})
  {
    if k in q {
      PoolSplit(q, k);
    } else {
      assert q - {k} == q;
    }
  }

  lemma PoolPut(q: Buckets, k: Bytes, b: seq<Entry>)
    ensures Pool(q[k := b]) == Items(k, b) + Pool(q - {k})
  {
    PoolSplit(q[k := b], k);
    assert q[k := b] - {k} == q - {k};
  }

  lemma PoolSet(q: Buckets, k: Bytes, b: seq<Entry>)
    ensures Pool(SetBucket(q, k, b)) == Items(k, b) + Pool(q - {k})
  {
    if b != [] {
      PoolPut(q, k, b);
    }
  }

  lemma HeldPut(h: map<nat, HeldPage>, p: nat, page: HeldPage)
    requires p !in h
    ensures HeldPool(h[p := page]) == PageItems(page) + HeldPool(h)
  {
    HeldSplit(h[p := page], p);
    assert h[p := page] - {p} == h;
  }

  lemma {:induction false} PoolMembers(q: Buckets)
    ensures forall x :: x in Pool(q) <==> x.entry in Bucket(q, x.subscriber)
    decreases q.Keys
  {
    if q != map[] {
      var k :| k in q && Pool(q) == Items(k, q[k]) + Pool(q - {k});
      PoolMembers(q - {k});
      TagMembers(k, q[k]);
    }
  }

  lemma {:induction false} HeldMembers(h: map<nat, HeldPage>)
    ensures forall x :: x in HeldPool(h) <==> exists p :: p in h && x in PageItems(h[p])
    decreases h.Keys
  {
    if h != map[] {
      var k :| k in h && HeldPool(h) == PageItems(h[k]) + HeldPool(h - {k});
      var rest := h - {k};
      HeldMembers(rest);
      forall x
        ensures x in HeldPool(h) <==> exists p :: p in h && x in PageItems(h[p])
      {
        if x in HeldPool(rest) {
          var p :| p in rest && x in PageItems(rest[p]);
          assert p in h && h[p] == rest[p];
        }
        if p :| p in h && x in PageItems(h[p]) {
          assert p == k || (p in rest && rest[p] == h[p]);
        }
      }
    }
  }

  lemma ItemIdsOf(k: Bytes, b: seq<Entry>)
    ensures ItemIds(Items(k, b)) == Ids(b)
  {
    TagMembers(k, b);
    forall id | id in Ids(b)
      ensures id in ItemIds(Items(k, b))
    {
      var e :| e in b && e.id == id;
      assert Item(k, e) in Items(k, b);
    }
  }

  /** Distinct tickets position by position, in any bucket. */
  lemma BucketTicketsDistinct(s: State, k: Bytes)
    requires Inv(s)
    ensures forall i, j :: 0 <= i < j < |Bucket(s.queue, k)| ==>
              Bucket(s.queue, k)[i].ticket != Bucket(s.queue, k)[j].ticket
  {
    PoolBucket(s.queue, k);
    SingleTickets(Stored(s), s.rows, s.nextTicket, k, Bucket(s.queue, k));
  }

  lemma PageTicketsDistinct(s: State, p: nat)
    requires Inv(s) && p in s.held
    ensures forall i, j :: 0 <= i < j < |s.held[p].blobs| ==> s.held[p].blobs[i].ticket != s.held[p].blobs[j].ticket
  {
    HeldSplit(s.held, p);
    SingleTickets(Stored(s), s.rows, s.nextTicket, s.held[p].subscriber, s.held[p].blobs);
  }

  lemma Repeated(t: seq<Item>, i: nat, j: nat)
    requires i < j < |t| && t[i] == t[j]
    ensures multiset(t)[t[i]] >= 2
  {
    assert t == t[..j] + ([t[j]] + t[j + 1..]);
    assert t[i] in t[..j];
  }

  lemma SingleTickets(m: multiset<Item>, rows: map<nat, Row>, next: nat, k: Bytes, b: seq<Entry>)
    requires Coherent(m, rows, next) && Items(k, b) <= m
    ensures forall i, j :: 0 <= i < j < |b| ==> b[i].ticket != b[j].ticket
  {
    TagMembers(k, b);
    forall i, j | 0 <= i < j < |b|
      ensures b[i].ticket != b[j].ticket
    {
      assert Item(k, b[i]) in Items(k, b) && Item(k, b[j]) in Items(k, b);
      if b[i] == b[j] {
        Repeated(Tag(k, b), i, j);
      }
    }
  }
}
