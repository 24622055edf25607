/** The announce flush: copies of what a subscriber has queued are sent while
    the entries themselves stay. Which copies a link or an interface takes is
    up to the transport: two parameters. */
module Flush {
  import opened Filters
  import opened Octets
  import opened Entries
  import opened QueueState
  import opened QueueInvariant
  import opened DeferredQueues
  import opened QueueRuns
  import opened QueueTraces

  datatype Flushed = Flushed(byLink: nat, byPacket: nat, oversized: nat, notSent: nat)

  /** What the transport does with a copy. */
  datatype Transport = Transport(linkTakes: Entry -> bool, hasDestination: bool, interfaceTakes: Entry -> bool,
                                 packetMdu: nat)

  datatype Fate = ByLink | ByPacket | Oversized | NotSent

  function FateOf(t: Transport, e: Entry): Fate {
    if t.linkTakes(e) then ByLink
    else if |e.channel| + |e.blob| > t.packetMdu then Oversized
    else if t.hasDestination && t.interfaceTakes(e) then ByPacket
    else NotSent
  }

  /** Whether a route is out that may yet confirm the copy. */
  predicate WentOut(t: Transport, e: Entry) { FateOf(t, e).ByLink? || FateOf(t, e).ByPacket? }

  function Meeting(copies: seq<Entry>, t: Transport, f: Fate): nat {
    if copies == [] then 0
    else Meeting(copies[..|copies| - 1], t, f) + if FateOf(t, copies[|copies| - 1]) == f then 1 else 0
  }

  function Tally(copies: seq<Entry>, t: Transport): Flushed {
    Flushed.Flushed(Meeting(copies, t, ByLink), Meeting(copies, t, ByPacket), Meeting(copies, t, Oversized),
                    Meeting(copies, t, NotSent))
  }

  /** Every copy meets one fate. */
  lemma {:induction false} FatesSum(copies: seq<Entry>, t: Transport)
    ensures Meeting(copies, t, ByLink) + Meeting(copies, t, ByPacket) + Meeting(copies, t, Oversized) +
            Meeting(copies, t, NotSent) == |copies|
  {
    if copies != [] {
      FatesSum(copies[..|copies| - 1], t);
    }
  }

  /** A link is tried first, whatever the size; an interface only with a
      destination and a packet that fits. Each counter is how many copies went
      that way. */
  lemma {:induction false} TallyExact(copies: seq<Entry>, t: Transport)
    ensures var f := Tally(copies, t);
            f.byLink == |Chosen(copies, t.linkTakes)| &&
            f.oversized == |Chosen(copies, (e: Entry) => !t.linkTakes(e) && Size(e) > t.packetMdu)| &&
            f.byPacket == |Chosen(copies, (e: Entry) => !t.linkTakes(e) && ByInterface(t, e))| &&
            f.notSent == |Chosen(copies, (e: Entry) => !t.linkTakes(e) && Size(e) <= t.packetMdu && !ByInterface(t, e))|
    ensures forall e :: WentOut(t, e) <==> t.linkTakes(e) || ByInterface(t, e)
  {
    if copies != [] {
      TallyExact(copies[..|copies| - 1], t);
    }
  }

  function Size(e: Entry): nat { |e.channel| + |e.blob| }

  predicate ByInterface(t: Transport, e: Entry) {
    Size(e) <= t.packetMdu && t.hasDestination && t.interfaceTakes(e)
  }

  ghost function Unsent(copies: seq<Entry>, t: Transport): set<nat> {
    set e | e in copies && !WentOut(t, e) :: e.ticket
  }

  /** One copy tried: whether it stays in flight, and the counters. */
  method SendCopy(t: Transport, e: Entry, f: Flushed) returns (out: bool, f': Flushed)
    ensures out == WentOut(t, e)
    ensures f' == match FateOf(t, e)
                  case ByLink => f.(byLink := f.byLink + 1)
                  case ByPacket => f.(byPacket := f.byPacket + 1)
                  case Oversized => f.(oversized := f.oversized + 1)
                  case NotSent => f.(notSent := f.notSent + 1)
  {
    if t.linkTakes(e) {
      return true, f.(byLink := f.byLink + 1);
    }
    if |e.channel| + |e.blob| > t.packetMdu {
      return false, f.(oversized := f.oversized + 1);
    }
    if !t.hasDestination {
      return false, f.(notSent := f.notSent + 1);
    }
    if t.interfaceTakes(e) {
      return true, f.(byPacket := f.byPacket + 1);
    }
    return false, f.(notSent := f.notSent + 1);
  }

  lemma OneCopyMore(copies: seq<Entry>, i: nat, t: Transport)
    requires i < |copies|
    ensures Unsent(copies[..i + 1], t) ==
            Unsent(copies[..i], t) + if WentOut(t, copies[i]) then {} else {copies[i].ticket}
    ensures forall f :: Meeting(copies[..i + 1], t, f) ==
                        Meeting(copies[..i], t, f) + if FateOf(t, copies[i]) == f then 1 else 0
  {
    assert copies[..i + 1] == copies[..i] + [copies[i]];
    assert copies[..i + 1][..i] == copies[..i];
  }

  predicate Releases(es: seq<Event>, subscriber: Bytes, tickets: seq<nat>) {
    |es| == |tickets| && forall i :: 0 <= i < |es| ==> es[i] == Released(subscriber, tickets[i])
  }

  method ReleaseAll(q: DeferredQueue, subscriber: Bytes, tickets: seq<nat>) returns (ghost es: seq<Event>)
    modifies q
    ensures q.St() == old(q.St()).(inFlight := q.inFlight)
    ensures forall n :: n in q.inFlight <==> n in old(q.inFlight) && n !in tickets
    ensures Leads(old(q.St()), es, q.St()) && Releases(es, subscriber, tickets)
  {
    ghost var s := q.St();
    es := [];
    for i := 0 to |tickets|
      invariant q.St() == s.(inFlight := q.inFlight)
      invariant forall n :: n in q.inFlight <==> n in s.inFlight && n !in tickets[..i]
      invariant Leads(s, es, q.St()) && Releases(es, subscriber, tickets[..i])
    {
      ghost var s1 := q.St();
      var waiting := q.Release(subscriber, tickets[i]);
      LeadsMore(s, es, s1, Released(subscriber, tickets[i]), q.St());
      es := es + [Released(subscriber, tickets[i])];
    }
    assert tickets[..|tickets|] == tickets;
  }

  /** Buckets, pages and rows stand as they were. Each copy has one fate and
      is counted once; those no route took, too large or not sent, leave
      flight at once, and the others stay in it. */
  method FlushQueued(q: DeferredQueue, subscriber: Bytes, w: Wanted, t: Transport)
    returns (f: Flushed, ghost es: seq<Event>)
    requires q.Valid()
    modifies q
    ensures var copies := QueueState.FlushCopies(old(q.St()), subscriber, w).1;
            q.St() == old(q.St()).(inFlight := q.inFlight) && f == Tally(copies, t) &&
            f.byLink + f.byPacket + f.oversized + f.notSent == |copies| &&
            (forall e :: e in copies ==> (e.ticket in q.inFlight <==> WentOut(t, e))) &&
            (forall n :: n !in Tickets(copies) ==> (n in q.inFlight <==> n in old(q.inFlight)))
    ensures Leads(old(q.St()), es, q.St()) && es != [] && es[0] == Event.Flushed(subscriber, w)
    ensures forall i :: 1 <= i < |es| ==> es[i].Released? && es[i].subscriber == subscriber
    ensures q.Valid()
  {
    ghost var s := q.St();
    var copies := q.FlushCopies(subscriber, w);
    ghost var taken := q.St();
    FatesSum(copies, t);
    var unsent;
    f, unsent := SendCopies(t, copies);
    ghost var released := ReleaseAll(q, subscriber, unsent);
    CopiesApart(s, subscriber, w, copies, t);
    LeadsOne(s, Event.Flushed(subscriber, w), taken);
    LeadsOn(s, [Event.Flushed(subscriber, w)], taken, released, q.St());
    es := [Event.Flushed(subscriber, w)] + released;
    LeadsKeepsInv(s, es, q.St());
  }

  method SendCopies(t: Transport, copies: seq<Entry>) returns (f: Flushed, unsent: seq<nat>)
    ensures f == Tally(copies, t) && forall n :: n in unsent <==> n in Unsent(copies, t)
  {
    f, unsent := Flushed.Flushed(0, 0, 0, 0), [];
    for i := 0 to |copies|
      invariant f == Tally(copies[..i], t)
      invariant forall n :: n in unsent <==> n in Unsent(copies[..i], t)
    {
      var out;
      out, f := SendCopy(t, copies[i], f);
      if !out { unsent := unsent + [copies[i].ticket]; }
      OneCopyMore(copies, i, t);
    }
    assert copies[..|copies|] == copies;
  }

  /** Copies have tickets of their own, so one sent is no other unsent. */
  lemma CopiesApart(s: State, k: Bytes, w: Wanted, copies: seq<Entry>, t: Transport)
    requires Inv(s) && copies == QueueState.FlushCopies(s, k, w).1
    ensures forall e :: e in copies ==> (e.ticket in Unsent(copies, t) <==> !WentOut(t, e))
    ensures forall n :: n in Unsent(copies, t) ==> n in Tickets(copies)
  {
    var b := Bucket(s.queue, k);
    IdleMembers(b, w, s.inFlight);
    BucketTicketsDistinct(s, k);
    forall e, x | e in copies && x in copies && e.ticket == x.ticket
      ensures e == x
    {
      var i :| 0 <= i < |b| && b[i] == e;
      var j :| 0 <= j < |b| && b[j] == x;
    }
  }
}
