/** Pages a subscriber's pulls took and nobody proved: given back in the
    reverse of the order they were taken, they leave the queue as it was. */
module UnprovedPages {
  import opened Octets
  import opened Entries
  import opened QueueState
  import opened QueueInvariant
  import opened Conservation
  import opened QueueRuns
  import opened QueueSafety

  /** Pages still out, first taken first, and what the subscriber's wanted and
      unwanted entries should come to once they are all back. */
  datatype Track = Track(pages: seq<nat>, wanted: seq<Entry>, unwanted: seq<Entry>)

  /** The blobs of the pages out, in the order they were taken. */
  ghost function Out(h: map<nat, HeldPage>, pages: seq<nat>): seq<Entry> {
    if pages == [] then []
    else Out(h, pages[..|pages| - 1]) +
         if pages[|pages| - 1] in h then h[pages[|pages| - 1]].blobs else []
  }

  ghost predicate OwnPages(h: map<nat, HeldPage>, k: Bytes, pages: seq<nat>) {
    (forall p :: p in pages ==> p in h && h[p].subscriber == k) &&
    forall i, j :: 0 <= i < j < |pages| ==> pages[i] != pages[j]
  }

  ghost predicate Tracks(t: Track, s: State, k: Bytes, w: Wanted) {
    OwnPages(s.held, k, t.pages) &&
    Out(s.held, t.pages) + Select(Bucket(s.queue, k), w) == t.wanted &&
    Select(Bucket(s.queue, k), Not(w)) == t.unwanted && AllWanted(t.wanted, w)
  }

  ghost predicate AllWanted(b: seq<Entry>, w: Wanted) { forall e :: e in b ==> w(e.channel) }

  ghost predicate SameWanted(v: Wanted, w: Wanted) { forall c :: v(c) <==> w(c) }

  /** What may happen meanwhile: pulls of the same kind by this subscriber, the
      last page out coming back unproved; anything that evicts, drains or
      settles only other subscribers' entries; enqueues, flushes, confirms and
      releases for anybody. */
  ghost predicate Permitted(t: Track, s: State, e: Event, k: Bytes, w: Wanted) {
    match e
    case Enqueued(_, _, _, _, _, _, o) => Victim(e.subscriber, o) != Some(k)
    case Took(u, v, _, _, _) => u == k ==> SameWanted(v, w)
    case Settled(p, proved) =>
      (t.pages != [] && p == t.pages[|t.pages| - 1] && !proved) ||
      p !in s.held || (p !in t.pages && (proved || s.held[p].subscriber != k))
    case Drained(u) => u != k
    case DrainedBatch(u, _) => u != k
    case DrainedMatching(u, _, _) => u != k
    case Flushed(_, _) => true
    case Confirmed(_, _) => true
    case Released(_, _) => true
    case ExpiredBefore(threshold) => forall x :: x in Bucket(s.queue, k) ==> x.enqueuedAt >= threshold
    case Restarted => false
  }

  /** How the track is kept: a page taken goes out, one given back comes in; an
      entry enqueued goes behind its kind, one confirmed leaves. */
  ghost function Follow(t: Track, s: State, e: Event, k: Bytes, w: Wanted): Track {
    match e
    case Enqueued(u, c, b, _, now, id, o) =>
      if u != k || o == RefusedGlobalLimit then t
      else
        var x := Entry(c, b, now, id, s.nextTicket);
        if w(c) then t.(wanted := t.wanted + [x]) else t.(unwanted := t.unwanted + [x])
    case Took(u, v, max, budget, cost) =>
      if u == k && TakePage(s, u, v, max, budget, cost).1 != 0 then t.(pages := t.pages + [s.nextPage]) else t
    case Settled(p, _) =>
      if t.pages != [] && p == t.pages[|t.pages| - 1] then t.(pages := t.pages[..|t.pages| - 1]) else t
    case Confirmed(u, ticket) =>
      if u == k then t.(wanted := Without(t.wanted, ticket), unwanted := Without(t.unwanted, ticket)) else t
    case _ => t
  }

  // -- Pages out --------------------------------------------------------------

  lemma {:induction false} OutSame(h: map<nat, HeldPage>, h': map<nat, HeldPage>, pages: seq<nat>)
    requires forall p :: p in pages ==> p in h && p in h' && h'[p] == h[p]
    ensures Out(h', pages) == Out(h, pages)
  {
    if pages != [] {
      assert pages[|pages| - 1] in pages;
      OutSame(h, h', pages[..|pages| - 1]);
    }
  }

  lemma OutMore(h: map<nat, HeldPage>, pages: seq<nat>, p: nat, page: HeldPage)
    requires p !in h && forall q :: q in pages ==> q in h
    ensures Out(h[p := page], pages + [p]) == Out(h, pages) + page.blobs
  {
    OutSame(h, h[p := page], pages);
    assert (pages + [p])[..|pages|] == pages;
  }

  lemma OwnMore(h: map<nat, HeldPage>, k: Bytes, pages: seq<nat>, p: nat, blobs: seq<Entry>)
    requires OwnPages(h, k, pages) && p !in h
    ensures OwnPages(h[p := HeldPage(k, blobs)], k, pages + [p])
  {}

  lemma Assoc(a: seq<Entry>, b: seq<Entry>, c: seq<Entry>)
    ensures (a + b) + c == a + (b + c)
  {}

  lemma OutLess(h: map<nat, HeldPage>, k: Bytes, pages: seq<nat>)
    requires pages != [] && OwnPages(h, k, pages)
    ensures var p := pages[|pages| - 1];
            p in h && OwnPages(h - {p}, k, pages[..|pages| - 1]) &&
            Out(h, pages) == Out(h - {p}, pages[..|pages| - 1]) + h[p].blobs
  {
    var p, rest := pages[|pages| - 1], pages[..|pages| - 1];
    assert p in pages;
    assert forall q :: q in rest ==> q in pages && q != p;
    OutSame(h, h - {p}, rest);
  }

  lemma {:induction false} OutWithout(h: map<nat, HeldPage>, k: Bytes, pages: seq<nat>, ticket: nat)
    requires forall p :: p in pages ==> p in h && h[p].subscriber == k
    ensures Out(HeldWithout(h, k, ticket), pages) == Without(Out(h, pages), ticket)
  {
    if pages != [] {
      var p, rest := pages[|pages| - 1], pages[..|pages| - 1];
      assert p in pages;
      OutWithout(h, k, rest, ticket);
      WithoutConcat(Out(h, rest), h[p].blobs, ticket);
    }
  }

  // -- Each event follows its track -------------------------------------------

  lemma {:induction false} SelectSame(b: seq<Entry>, v: Wanted, w: Wanted)
    requires SameWanted(v, w)
    ensures Select(b, v) == Select(b, w)
    ensures forall n :: DropWanted(b, v, n) == DropWanted(b, w, n)
  {
    if b != [] {
      SelectSame(b[1..], v, w);
    }
  }

  lemma Undisturbed(t: Track, s: State, s': State, k: Bytes, w: Wanted)
    requires Tracks(t, s, k, w) && Bucket(s'.queue, k) == Bucket(s.queue, k)
    requires forall p :: p in t.pages ==> p in s'.held && s'.held[p] == s.held[p]
    ensures Tracks(t, s', k, w)
  {
    OutSame(s.held, s'.held, t.pages);
  }

  lemma AppendSelects(b: seq<Entry>, x: Entry, w: Wanted)
    ensures Select(b + [x], w) == if w(x.channel) then Select(b, w) + [x] else Select(b, w)
    ensures Select(b + [x], Not(w)) == if w(x.channel) then Select(b, Not(w)) else Select(b, Not(w)) + [x]
  {
    SelectConcat(b, [x], w);
    SelectConcat(b, [x], Not(w));
  }

  lemma EnqueuePlaces(s: State, u: Bytes, c: Bytes, b: Bytes, now: real, id: nat, o: Outcome, k: Bytes)
    requires Victim(u, o) != Some(k) && o != RefusedGlobalLimit
    ensures var s' := Enqueue(s, u, c, b, now, id, o);
            s'.held == s.held &&
            Bucket(s'.queue, k) ==
              Bucket(s.queue, k) + if u == k then [Entry(c, b, now, id, s.nextTicket)] else []
  {
    EvictPlaces(s, Victim(u, o), k);
  }

  lemma EvictPlaces(s: State, v: Option<Bytes>, k: Bytes)
    requires v != Some(k)
    ensures Bucket(Evict(s, v).queue, k) == Bucket(s.queue, k)
    ensures Evict(s, v).held == s.held && Evict(s, v).nextTicket == s.nextTicket
  {}

  /** One entry more at the back of the subscriber's bucket. */
  lemma BackFollows(t: Track, s: State, s': State, k: Bytes, w: Wanted, x: Entry)
    requires Tracks(t, s, k, w) && s'.held == s.held && Bucket(s'.queue, k) == Bucket(s.queue, k) + [x]
    ensures Tracks(if w(x.channel) then t.(wanted := t.wanted + [x]) else t.(unwanted := t.unwanted + [x]), s', k, w)
  {
    var b := Bucket(s.queue, k);
    AppendSelects(b, x, w);
    assert Out(s.held, t.pages) + (Select(b, w) + [x]) == t.wanted + [x];
  }

  lemma EnqueueFollows(t: Track, s: State, e: Event, s': State, k: Bytes, w: Wanted)
    requires e.Enqueued? && Tracks(t, s, k, w) && Permitted(t, s, e, k, w) && Step(s, e, s')
    ensures Tracks(Follow(t, s, e, k, w), s', k, w)
  {
    if e.outcome != RefusedGlobalLimit {
      EnqueuePlaces(s, e.subscriber, e.channel, e.blob, e.now, e.id, e.outcome, k);
      if e.subscriber == k {
        BackFollows(t, s, s', k, w, Entry(e.channel, e.blob, e.now, e.id, s.nextTicket));
      } else {
        Undisturbed(t, s, s', k, w);
      }
    }
  }

  /** The bucket's part of it: the first `n` wanted entries taken out. */
  lemma TookSelects(b: seq<Entry>, v: Wanted, w: Wanted, n: nat)
    requires SameWanted(v, w) && n <= |Select(b, v)|
    ensures Select(b, v)[..n] + Select(DropWanted(b, v, n), w) == Select(b, w)
    ensures Select(DropWanted(b, v, n), Not(w)) == Select(b, Not(w))
  {
    SelectSame(b, v, w);
    DropWantedSelects(b, w, n);
  }

  /** And the state's. */
  lemma TookState(s: State, k: Bytes, v: Wanted, max: nat, budget: nat, cost: Cost, n: nat)
    requires n == PageCount(Select(Bucket(s.queue, k), v), max, budget, cost)
    ensures var (s', page, blobs) := TakePage(s, k, v, max, budget, cost);
            blobs == Select(Bucket(s.queue, k), v)[..n] &&
            Bucket(s'.queue, k) == DropWanted(Bucket(s.queue, k), v, n) &&
            (n == 0 ==> s'.held == s.held) &&
            (n != 0 ==> page == s.nextPage && s'.held == s.held[page := HeldPage(k, blobs)])
  {
    BucketSet(s.queue, k, DropWanted(Bucket(s.queue, k), v, n));
  }

  lemma BucketSet(q: Buckets, k: Bytes, b: seq<Entry>)
    ensures Bucket(SetBucket(q, k, b), k) == b
  {}

  lemma TookPlaces(s: State, k: Bytes, v: Wanted, max: nat, budget: nat, cost: Cost, w: Wanted)
    requires SameWanted(v, w)
    ensures var (s', page, blobs) := TakePage(s, k, v, max, budget, cost);
            blobs + Select(Bucket(s'.queue, k), w) == Select(Bucket(s.queue, k), w) &&
            Select(Bucket(s'.queue, k), Not(w)) == Select(Bucket(s.queue, k), Not(w)) &&
            (blobs == [] ==> s'.held == s.held) &&
            (blobs != [] ==> page == s.nextPage && s'.held == s.held[page := HeldPage(k, blobs)])
  {
    var b := Bucket(s.queue, k);
    var n := PageCount(Select(b, v), max, budget, cost);
    TookState(s, k, v, max, budget, cost, n);
    TookSelects(b, v, w, n);
  }

  /** A page more out. */
  lemma PageFollows(t: Track, s: State, s': State, k: Bytes, w: Wanted, page: nat, blobs: seq<Entry>)
    requires Tracks(t, s, k, w) && page !in s.held && s'.held == s.held[page := HeldPage(k, blobs)]
    requires blobs + Select(Bucket(s'.queue, k), w) == Select(Bucket(s.queue, k), w)
    requires Select(Bucket(s'.queue, k), Not(w)) == Select(Bucket(s.queue, k), Not(w))
    ensures Tracks(t.(pages := t.pages + [page]), s', k, w)
  {
    OwnMore(s.held, k, t.pages, page, blobs);
    OutMore(s.held, t.pages, page, HeldPage(k, blobs));
    Assoc(Out(s.held, t.pages), blobs, Select(Bucket(s'.queue, k), w));
  }

  lemma NothingTaken(t: Track, s: State, s': State, k: Bytes, w: Wanted)
    requires Tracks(t, s, k, w) && s'.held == s.held
    requires Select(Bucket(s'.queue, k), w) == Select(Bucket(s.queue, k), w)
    requires Select(Bucket(s'.queue, k), Not(w)) == Select(Bucket(s.queue, k), Not(w))
    ensures Tracks(t, s', k, w)
  {}

  lemma TookFollows(t: Track, s: State, e: Event, s': State, k: Bytes, w: Wanted)
    requires e.Took? && e.subscriber == k && 0 < s.nextPage && s.nextPage !in s.held
    requires Tracks(t, s, k, w) && SameWanted(e.wanted, w) && Step(s, e, s')
    ensures Tracks(Follow(t, s, e, k, w), s', k, w)
  {
    var (_, page, blobs) := TakePage(s, k, e.wanted, e.max, e.budget, e.cost);
    TookPlaces(s, k, e.wanted, e.max, e.budget, e.cost, w);
    if blobs != [] {
      PageFollows(t, s, s', k, w, page, blobs);
    } else {
      assert [] + Select(Bucket(s'.queue, k), w) == Select(Bucket(s'.queue, k), w);
      NothingTaken(t, s, s', k, w);
    }
  }

  lemma SettlePlaces(s: State, p: nat, k: Bytes, w: Wanted)
    requires p in s.held && s.held[p].subscriber == k && forall e :: e in s.held[p].blobs ==> w(e.channel)
    ensures var s' := Settle(s, p, false).0;
            s'.held == s.held - {p} &&
            Select(Bucket(s'.queue, k), w) == s.held[p].blobs + Select(Bucket(s.queue, k), w) &&
            Select(Bucket(s'.queue, k), Not(w)) == Select(Bucket(s.queue, k), Not(w))
  {
    var blobs, b := s.held[p].blobs, Bucket(s.queue, k);
    SelectConcat(blobs, b, w);
    SelectConcat(blobs, b, Not(w));
    SelectAll(blobs, w);
    assert [] + Select(b, Not(w)) == Select(b, Not(w));
  }

  /** A page back at the front. */
  lemma ReturnFollows(t: Track, s: State, s': State, k: Bytes, w: Wanted, p: nat)
    requires t.pages != [] && p == t.pages[|t.pages| - 1] && Tracks(t, s, k, w) && p in s.held
    requires s'.held == s.held - {p}
    requires Select(Bucket(s'.queue, k), w) == s.held[p].blobs + Select(Bucket(s.queue, k), w)
    requires Select(Bucket(s'.queue, k), Not(w)) == Select(Bucket(s.queue, k), Not(w))
    ensures Tracks(t.(pages := t.pages[..|t.pages| - 1]), s', k, w)
  {
    OutLess(s.held, k, t.pages);
    Assoc(Out(s'.held, t.pages[..|t.pages| - 1]), s.held[p].blobs, Select(Bucket(s.queue, k), w));
  }

  lemma LastPageWanted(t: Track, s: State, k: Bytes, w: Wanted)
    requires t.pages != [] && Tracks(t, s, k, w)
    ensures var p := t.pages[|t.pages| - 1]; p in s.held && s.held[p].subscriber == k && AllWanted(s.held[p].blobs, w)
  {
    var p := t.pages[|t.pages| - 1];
    assert p in t.pages;
    OutLess(s.held, k, t.pages);
    assert forall e :: e in s.held[p].blobs ==> e in t.wanted;
  }

  lemma SettledFollows(t: Track, s: State, e: Event, s': State, k: Bytes, w: Wanted)
    requires e.Settled? && t.pages != [] && e.page == t.pages[|t.pages| - 1] && !e.proved
    requires Tracks(t, s, k, w) && Step(s, e, s')
    ensures Tracks(Follow(t, s, e, k, w), s', k, w)
  {
    LastPageWanted(t, s, k, w);
    SettlePlaces(s, e.page, k, w);
    ReturnFollows(t, s, s', k, w, e.page);
  }

  lemma OtherSettled(t: Track, s: State, e: Event, s': State, k: Bytes, w: Wanted)
    requires e.Settled? && Tracks(t, s, k, w) && Step(s, e, s')
    requires e.page !in s.held || (e.page !in t.pages && (e.proved || s.held[e.page].subscriber != k))
    ensures Follow(t, s, e, k, w) == t && Tracks(t, s', k, w)
  {
    assert t.pages != [] ==> t.pages[|t.pages| - 1] in t.pages;
    Undisturbed(t, s, s', k, w);
  }

  lemma ConfirmFollows(t: Track, s: State, e: Event, s': State, k: Bytes, w: Wanted)
    requires e.Confirmed? && Tracks(t, s, k, w) && Step(s, e, s')
    ensures Tracks(Follow(t, s, e, k, w), s', k, w)
  {
    if e.subscriber != k {
      Undisturbed(t, s, s', k, w);
    } else {
      DroppedFollows(t, s, s', k, w, e.ticket);
    }
  }

  /** A ticket's entry gone, wherever it was. */
  lemma DroppedFollows(t: Track, s: State, s': State, k: Bytes, w: Wanted, ticket: nat)
    requires Tracks(t, s, k, w) && s'.held == HeldWithout(s.held, k, ticket)
    requires Bucket(s'.queue, k) == Without(Bucket(s.queue, k), ticket)
    ensures Tracks(t.(wanted := Without(t.wanted, ticket), unwanted := Without(t.unwanted, ticket)), s', k, w)
  {
    var b := Bucket(s.queue, k);
    OutWithout(s.held, k, t.pages, ticket);
    WithoutSelect(b, w, ticket);
    WithoutSelect(b, Not(w), ticket);
    WithoutConcat(Out(s.held, t.pages), Select(b, w), ticket);
    WithoutMembers(t.wanted, ticket);
  }

  lemma {:induction false} AllYoung(b: seq<Entry>, threshold: real)
    requires forall x :: x in b ==> x.enqueuedAt >= threshold
    ensures Young(b, threshold) == b
  {
    if b != [] {
      assert b == [b[0]] + b[1..];
      assert forall x :: x in b[1..] ==> x in b;
      AllYoung(b[1..], threshold);
    }
  }

  lemma OthersFollow(t: Track, s: State, e: Event, s': State, k: Bytes, w: Wanted)
    requires !e.Enqueued? && !e.Took? && !e.Settled? && !e.Confirmed?
    requires Tracks(t, s, k, w) && Permitted(t, s, e, k, w) && Step(s, e, s')
    ensures Follow(t, s, e, k, w) == t && Tracks(t, s', k, w)
  {
    if e.ExpiredBefore? {
      AllYoung(Bucket(s.queue, k), e.threshold);
    }
    Undisturbed(t, s, s', k, w);
  }

  /** Every permitted event is followed. */
  lemma EventFollowed(t: Track, s: State, e: Event, s': State, k: Bytes, w: Wanted)
    requires 0 < s.nextPage && s.nextPage !in s.held
    requires Tracks(t, s, k, w) && Permitted(t, s, e, k, w) && Step(s, e, s')
    ensures Tracks(Follow(t, s, e, k, w), s', k, w)
  {
    if e.Enqueued? {
      EnqueueFollows(t, s, e, s', k, w);
    } else if e.Took? {
      if e.subscriber == k {
        TookFollows(t, s, e, s', k, w);
      } else {
        assert s.nextPage !in t.pages;
        Undisturbed(t, s, s', k, w);
      }
    } else if e.Settled? {
      if t.pages != [] && e.page == t.pages[|t.pages| - 1] {
        assert e.page in t.pages;
        SettledFollows(t, s, e, s', k, w);
      } else {
        OtherSettled(t, s, e, s', k, w);
      }
    } else if e.Confirmed? {
      ConfirmFollows(t, s, e, s', k, w);
    } else {
      OthersFollow(t, s, e, s', k, w);
    }
  }

  // -- Over a run -------------------------------------------------------------

  ghost predicate FollowedAt(ts: seq<Track>, ss: seq<State>, es: seq<Event>, k: Bytes, w: Wanted, i: nat)
    requires |ts| == |ss| == |es| + 1 && i < |es|
  {
    Permitted(ts[i], ss[i], es[i], k, w) && ts[i + 1] == Follow(ts[i], ss[i], es[i], k, w)
  }

  /** A run in which nothing else touches the subscriber's entries, tracked
      from a state with no page out. */
  ghost predicate FollowedRun(ts: seq<Track>, ss: seq<State>, es: seq<Event>, k: Bytes, w: Wanted) {
    |ts| == |ss| == |es| + 1 &&
    ts[0] == Track([], Select(Bucket(ss[0].queue, k), w), Select(Bucket(ss[0].queue, k), Not(w))) &&
    forall i :: 0 <= i < |es| ==> FollowedAt(ts, ss, es, k, w, i)
  }

  ghost predicate TracksAt(ts: seq<Track>, ss: seq<State>, k: Bytes, w: Wanted, n: nat)
    requires n < |ts| == |ss|
  {
    Tracks(ts[n], ss[n], k, w)
  }

  lemma FirstTracks(ts: seq<Track>, ss: seq<State>, es: seq<Event>, k: Bytes, w: Wanted)
    requires FollowedRun(ts, ss, es, k, w)
    ensures TracksAt(ts, ss, k, w, 0)
  {
    SelectMembers(Bucket(ss[0].queue, k), w);
    assert [] + Select(Bucket(ss[0].queue, k), w) == Select(Bucket(ss[0].queue, k), w);
  }

  lemma NextPageFresh(ss: seq<State>, es: seq<Event>, i: nat)
    requires SoundRun(ss, es) && i < |ss|
    ensures 0 < ss[i].nextPage && ss[i].nextPage !in ss[i].held
  {
    assert InvAt(ss, i);
  }

  ghost predicate TracksUpTo(ts: seq<Track>, ss: seq<State>, k: Bytes, w: Wanted, n: nat)
    requires n < |ts| == |ss|
  {
    forall i :: 0 <= i <= n ==> TracksAt(ts, ss, k, w, i)
  }

  lemma NextTracks(ts: seq<Track>, ss: seq<State>, es: seq<Event>, k: Bytes, w: Wanted, n: nat)
    requires SoundRun(ss, es) && FollowedRun(ts, ss, es, k, w) && n < |es| && TracksUpTo(ts, ss, k, w, n)
    ensures TracksUpTo(ts, ss, k, w, n + 1)
  {
    NextPageFresh(ss, es, n);
    StepFrom(ss, es, n);
    assert FollowedAt(ts, ss, es, k, w, n);
    assert TracksAt(ts, ss, k, w, n);
    EventFollowed(ts[n], ss[n], es[n], ss[n + 1], k, w);
    assert TracksAt(ts, ss, k, w, n + 1);
  }

  lemma {:induction false} RunTracks(ts: seq<Track>, ss: seq<State>, es: seq<Event>, k: Bytes, w: Wanted, n: nat)
    requires SoundRun(ss, es) && FollowedRun(ts, ss, es, k, w) && n < |ss|
    ensures TracksUpTo(ts, ss, k, w, n)
  {
    if n == 0 {
      FirstTracks(ts, ss, es, k, w);
    } else {
      RunTracks(ts, ss, es, k, w, n - 1);
      NextTracks(ts, ss, es, k, w, n - 1);
    }
  }

  // -- What the track comes to ------------------------------------------------

  /** `b` without the entries whose tickets are in `gone`. */
  function WithoutAll(b: seq<Entry>, gone: set<nat>): seq<Entry> {
    if b == [] then []
    else if b[0].ticket in gone then WithoutAll(b[1..], gone)
    else [b[0]] + WithoutAll(b[1..], gone)
  }

  /** The tickets confirmed for the subscriber. */
  ghost function ConfirmedFor(es: seq<Event>, k: Bytes): set<nat> {
    if es == [] then {}
    else
      var e := es[|es| - 1];
      ConfirmedFor(es[..|es| - 1], k) + if e.Confirmed? && e.subscriber == k then {e.ticket} else {}
  }

  /** `b` is what is left of `original`, followed by entries ticketed `first`
      or later. */
  ghost predicate LeftThenLater(b: seq<Entry>, original: seq<Entry>, gone: set<nat>, first: nat) {
    var left := WithoutAll(original, gone);
    left <= b && forall x :: x in b[|left|..] ==> x.ticket >= first
  }

  lemma {:induction false} WithoutOneMore(b: seq<Entry>, gone: set<nat>, t: nat)
    ensures WithoutAll(b, gone + {t}) == Without(WithoutAll(b, gone), t)
  {
    if b != [] {
      WithoutOneMore(b[1..], gone, t);
      if b[0].ticket !in gone {
        WithoutCons(b[0], WithoutAll(b[1..], gone), t);
      }
    }
  }

  lemma {:induction false} WithoutNothing(b: seq<Entry>)
    ensures WithoutAll(b, {}) == b
  {
    if b != [] {
      WithoutNothing(b[1..]);
    }
  }

  lemma LaterConfirmed(b: seq<Entry>, original: seq<Entry>, gone: set<nat>, first: nat, t: nat)
    requires LeftThenLater(b, original, gone, first)
    ensures LeftThenLater(Without(b, t), original, gone + {t}, first)
  {
    var left := WithoutAll(original, gone);
    var later := b[|left|..];
    assert b == left + later;
    WithoutConcat(left, later, t);
    WithoutOneMore(original, gone, t);
    WithoutMembers(later, t);
    assert Without(b, t)[|Without(left, t)|..] == Without(later, t);
  }

  lemma LaterArrived(b: seq<Entry>, original: seq<Entry>, gone: set<nat>, first: nat, x: Entry)
    requires LeftThenLater(b, original, gone, first) && x.ticket >= first
    ensures LeftThenLater(b + [x], original, gone, first)
  {
    var n := |WithoutAll(original, gone)|;
    assert (b + [x])[n..] == b[n..] + [x];
  }

  lemma FollowsOn(t: Track, s: State, e: Event, k: Bytes, w: Wanted, original: Track, gone: set<nat>, first: nat)
    requires LeftThenLater(t.wanted, original.wanted, gone, first) &&
             LeftThenLater(t.unwanted, original.unwanted, gone, first)
    requires s.nextTicket >= first
    ensures var t' := Follow(t, s, e, k, w);
            var gone' := gone + if e.Confirmed? && e.subscriber == k then {e.ticket} else {};
            LeftThenLater(t'.wanted, original.wanted, gone', first) &&
            LeftThenLater(t'.unwanted, original.unwanted, gone', first)
  {
    assert gone + {} == gone;
    if e.Enqueued? && e.subscriber == k && e.outcome != RefusedGlobalLimit {
      var x := Entry(e.channel, e.blob, e.now, e.id, s.nextTicket);
      LaterArrived(t.wanted, original.wanted, gone, first, x);
      LaterArrived(t.unwanted, original.unwanted, gone, first, x);
    } else if e.Confirmed? && e.subscriber == k {
      LaterConfirmed(t.wanted, original.wanted, gone, first, e.ticket);
      LaterConfirmed(t.unwanted, original.unwanted, gone, first, e.ticket);
    }
  }

  ghost predicate TrackStands(ts: seq<Track>, ss: seq<State>, es: seq<Event>, k: Bytes, n: nat)
    requires n < |ts| == |ss| == |es| + 1
  {
    LeftThenLater(ts[n].wanted, ts[0].wanted, ConfirmedFor(es[..n], k), ss[0].nextTicket) &&
    LeftThenLater(ts[n].unwanted, ts[0].unwanted, ConfirmedFor(es[..n], k), ss[0].nextTicket)
  }

  lemma {:induction false} NoRestart(ts: seq<Track>, ss: seq<State>, es: seq<Event>, k: Bytes, w: Wanted, n: nat)
    requires FollowedRun(ts, ss, es, k, w) && n <= |es|
    ensures Unbroken(es, 0, n)
  {
    if n > 0 {
      NoRestart(ts, ss, es, k, w, n - 1);
      assert FollowedAt(ts, ss, es, k, w, n - 1);
    }
  }

  lemma NextStands(ts: seq<Track>, ss: seq<State>, es: seq<Event>, k: Bytes, w: Wanted, n: nat)
    requires SoundRun(ss, es) && FollowedRun(ts, ss, es, k, w) && n < |es| && TrackStands(ts, ss, es, k, n)
    ensures TrackStands(ts, ss, es, k, n + 1)
  {
    NoRestart(ts, ss, es, k, w, n);
    StoredBeforeOrNewer(ss, es, 0, n);
    assert FollowedAt(ts, ss, es, k, w, n);
    assert es[..n + 1][..n] == es[..n];
    FollowsOn(ts[n], ss[n], es[n], k, w, ts[0], ConfirmedFor(es[..n], k), ss[0].nextTicket);
  }

  lemma {:induction false} TrackComesTo(ts: seq<Track>, ss: seq<State>, es: seq<Event>, k: Bytes, w: Wanted, n: nat)
    requires SoundRun(ss, es) && FollowedRun(ts, ss, es, k, w) && n < |ss|
    ensures TrackStands(ts, ss, es, k, n)
  {
    if n == 0 {
      WithoutNothing(ts[0].wanted);
      WithoutNothing(ts[0].unwanted);
    } else {
      TrackComesTo(ts, ss, es, k, w, n - 1);
      NextStands(ts, ss, es, k, w, n - 1);
    }
  }

  /** Once every page taken has come back unproved, last taken first, the
      wanted entries stand as they did, less those confirmed meanwhile and
      with later arrivals behind them; the unwanted ones too. */
  lemma UnprovedPagesUndo(ts: seq<Track>, ss: seq<State>, es: seq<Event>, k: Bytes, w: Wanted, n: nat)
    requires SoundRun(ss, es) && FollowedRun(ts, ss, es, k, w) && n < |ss| && ts[n].pages == []
    ensures Select(Bucket(ss[n].queue, k), w) == ts[n].wanted
    ensures Select(Bucket(ss[n].queue, k), Not(w)) == ts[n].unwanted
    ensures LeftThenLater(Select(Bucket(ss[n].queue, k), w), Select(Bucket(ss[0].queue, k), w),
                          ConfirmedFor(es[..n], k), ss[0].nextTicket)
    ensures LeftThenLater(Select(Bucket(ss[n].queue, k), Not(w)), Select(Bucket(ss[0].queue, k), Not(w)),
                          ConfirmedFor(es[..n], k), ss[0].nextTicket)
  {
    RunTracks(ts, ss, es, k, w, n);
    TrackComesTo(ts, ss, es, k, w, n);
    assert TracksAt(ts, ss, k, w, n);
    assert [] + Select(Bucket(ss[n].queue, k), w) == Select(Bucket(ss[n].queue, k), w);
  }

  /** No entry of the subscriber's is enqueued or confirmed at step `i`. */
  ghost predicate Still(es: seq<Event>, k: Bytes, i: nat)
    requires i < |es|
  {
    !((es[i].Enqueued? || es[i].Confirmed?) && es[i].subscriber == k)
  }

  lemma {:induction false} StillTracks(ts: seq<Track>, ss: seq<State>, es: seq<Event>, k: Bytes, w: Wanted, n: nat)
    requires FollowedRun(ts, ss, es, k, w) && n < |ss| && forall i :: 0 <= i < n ==> Still(es, k, i)
    ensures ts[n].wanted == ts[0].wanted && ts[n].unwanted == ts[0].unwanted
  {
    if n > 0 {
      StillTracks(ts, ss, es, k, w, n - 1);
      assert FollowedAt(ts, ss, es, k, w, n - 1) && Still(es, k, n - 1);
    }
  }

  /** With no arrival and no confirm between, pages given back last first
      restore the wanted entries exactly, and the unwanted ones. */
  lemma UnprovedPagesRestore(ts: seq<Track>, ss: seq<State>, es: seq<Event>, k: Bytes, w: Wanted, n: nat)
    requires SoundRun(ss, es) && FollowedRun(ts, ss, es, k, w) && n < |ss| && ts[n].pages == []
    requires forall i :: 0 <= i < n ==> Still(es, k, i)
    ensures Select(Bucket(ss[n].queue, k), w) == Select(Bucket(ss[0].queue, k), w)
    ensures Select(Bucket(ss[n].queue, k), Not(w)) == Select(Bucket(ss[0].queue, k), Not(w))
  {
    UnprovedPagesUndo(ts, ss, es, k, w, n);
    StillTracks(ts, ss, es, k, w, n);
  }

  // -- The order the pages come back in matters -------------------------------

  lemma ReturnFront(s: State, p: nat)
    requires p in s.held
    ensures var s' := Settle(s, p, false).0;
            Bucket(s'.queue, s.held[p].subscriber) == s.held[p].blobs + Bucket(s.queue, s.held[p].subscriber) &&
            s'.held == s.held - {p}
  {}

  lemma Swapped(a: seq<Entry>, b: seq<Entry>, c: seq<Entry>)
    requires a != [] && b != [] && a[0] != b[0]
    ensures a + (b + c) != b + (a + c)
  {
    assert (a + (b + c))[0] == a[0] && (b + (a + c))[0] == b[0];
  }

  /** Two pages of a subscriber come back to different queues in the two
      orders: only with the later one first do the earlier one's blobs stand
      in front again. */
  lemma ReturnOrderMatters(s: State, k: Bytes, p: nat, q: nat)
    requires Inv(s) && p in s.held && q in s.held && p != q
    requires s.held[p].subscriber == k == s.held[q].subscriber && s.held[p].blobs != [] && s.held[q].blobs != []
    ensures var laterFirst := Settle(Settle(s, q, false).0, p, false).0;
            var earlierFirst := Settle(Settle(s, p, false).0, q, false).0;
            Bucket(laterFirst.queue, k) == s.held[p].blobs + (s.held[q].blobs + Bucket(s.queue, k)) &&
            Bucket(earlierFirst.queue, k) == s.held[q].blobs + (s.held[p].blobs + Bucket(s.queue, k)) &&
            Bucket(laterFirst.queue, k) != Bucket(earlierFirst.queue, k)
  {
    var a, b := s.held[p].blobs, s.held[q].blobs;
    PagesApart(s, p, q, a[0], b[0]);
    ReturnFront(s, p);
    ReturnFront(s, q);
    ReturnFront(Settle(s, q, false).0, p);
    ReturnFront(Settle(s, p, false).0, q);
    Swapped(a, b, Bucket(s.queue, k));
  }
}
