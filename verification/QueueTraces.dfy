/** What a path that calls the queue more than once does to it: the events it
    makes, in order. */
module QueueTraces {
  import opened Filters
  import opened Octets
  import opened QueueState
  import opened QueueInvariant
  import opened Conservation
  import opened Tallies
  import opened QueueRuns

  ghost predicate Acts(s: State, e: Event, s': State) { Step(s, e, s') && !e.Restarted? }

  ghost predicate ActsLast(m: State, es: seq<Event>, s': State)
    requires es != []
  {
    Acts(m, es[|es| - 1], s')
  }

  /** The events `es`, none of them a restart, lead from `s` to `s'`. */
  ghost predicate Leads(s: State, es: seq<Event>, s': State) {
    if es == [] then s' == s
    else exists m :: ActsLast(m, es, s') && Leads(s, es[..|es| - 1], m)
  }

  lemma BeforeLast(s: State, es: seq<Event>, s': State) returns (m: State)
    requires es != [] && Leads(s, es, s')
    ensures Leads(s, es[..|es| - 1], m) && Acts(m, es[|es| - 1], s')
  {
    m :| ActsLast(m, es, s') && Leads(s, es[..|es| - 1], m);
  }

  lemma LeadsMore(s: State, es: seq<Event>, m: State, e: Event, s': State)
    requires Leads(s, es, m) && Acts(m, e, s')
    ensures Leads(s, es + [e], s')
  {
    assert (es + [e])[..|es|] == es;
    assert ActsLast(m, es + [e], s');
  }

  lemma LeadsOne(s: State, e: Event, s': State)
    requires Acts(s, e, s')
    ensures Leads(s, [e], s')
  {
    LeadsMore(s, [], s, e, s');
    assert [] + [e] == [e];
  }

  lemma Regrouped(es: seq<Event>, fs: seq<Event>)
    requires fs != []
    ensures (es + fs[..|fs| - 1]) + [fs[|fs| - 1]] == es + fs
  {}

  lemma {:induction false} LeadsOn(s: State, es: seq<Event>, m: State, fs: seq<Event>, s': State)
    requires Leads(s, es, m) && Leads(m, fs, s')
    ensures Leads(s, es + fs, s')
    decreases |fs|
  {
    if fs == [] {
      assert es + fs == es;
    } else {
      var init, last := fs[..|fs| - 1], fs[|fs| - 1];
      var n := BeforeLast(m, fs, s');
      LeadsOn(s, es, m, init, n);
      LeadsMore(s, es + init, n, last, s');
      Regrouped(es, fs);
    }
  }

  /** So the invariant is kept. */
  lemma {:induction false} LeadsKeepsInv(s: State, es: seq<Event>, s': State)
    requires Leads(s, es, s') && Inv(s)
    ensures Inv(s')
    decreases |es|
  {
    if es != [] {
      var m := BeforeLast(s, es, s');
      LeadsKeepsInv(s, es[..|es| - 1], m);
      StepKeepsInv(m, es[|es| - 1], s');
    }
  }

  lemma RunGrows(ss: seq<State>, es: seq<Event>, e: Event, s: State)
    requires Run(ss, es) && Step(ss[|es|], e, s)
    ensures Run(ss + [s], es + [e])
  {
    var ss', es' := ss + [s], es + [e];
    forall i | 0 <= i < |es'|
      ensures StepAt(ss', es', i)
    {
      if i < |es| {
        assert StepAt(ss, es, i);
        assert ss'[i] == ss[i] && ss'[i + 1] == ss[i + 1] && es'[i] == es[i];
      }
    }
  }

  /** And all that is proved over runs holds of it. */
  lemma {:induction false} LeadsIsRun(s: State, es: seq<Event>, s': State) returns (ss: seq<State>)
    requires Leads(s, es, s')
    ensures Run(ss, es) && ss[0] == s && ss[|es|] == s'
    decreases |es|
  {
    if es == [] {
      ss := [s];
    } else {
      var init, last := es[..|es| - 1], es[|es| - 1];
      var m := BeforeLast(s, es, s');
      ss := LeadsIsRun(s, init, m);
      RunGrows(ss, init, last, s');
      assert es == init + [last];
      ss := ss + [s'];
    }
  }

  // -- Offers -----------------------------------------------------------------

  /** `e` offers subscriber `k` a blob under the routing hash `c`. */
  predicate IsOffer(e: Event, k: Bytes, c: Bytes, blob: Bytes, limit: nat, now: real) {
    e.Enqueued? && e.subscriber == k && e.channel == c && e.blob == blob && e.limit == limit && e.now == now
  }

  /** One offer a blob, in order, all to `k`. */
  predicate Offers(es: seq<Event>, k: Bytes, blobs: seq<(Bytes, Bytes)>, limit: nat, now: real) {
    |es| == |blobs| && forall i :: 0 <= i < |es| ==> IsOffer(es[i], k, blobs[i].0, blobs[i].1, limit, now)
  }

  /** One offer of `blob` a subscriber, in order, each at its own limit. */
  predicate OffersEach(es: seq<Event>, ks: seq<Bytes>, c: Bytes, blob: Bytes, limitFor: Bytes -> nat, now: real) {
    |es| == |ks| && forall i :: 0 <= i < |es| ==> IsOffer(es[i], ks[i], c, blob, limitFor(ks[i]), now)
  }

  /** The outcomes counted, and how many of them stored the blob. */
  function Tallied(es: seq<Event>): Tally {
    if es == [] then Tally(0, 0, 0, 0)
    else
      var t, e := Tallied(es[..|es| - 1]), es[|es| - 1];
      if e.Enqueued? then Count(t, e.outcome) else t
  }

  function StoredBy(es: seq<Event>): nat { Tallied(es).queued }

  lemma TalliedMore(es: seq<Event>, e: Event)
    ensures Tallied(es + [e]) == if e.Enqueued? then Count(Tallied(es), e.outcome) else Tallied(es)
  {
    assert (es + [e])[..|es|] == es;
  }

  /** Each of the tally's counts is how many of the offers came out so. */
  lemma {:induction false} TalliedExact(es: seq<Event>)
    ensures var t := Tallied(es);
            t.queued == |Chosen(es, (e: Event) => e.Enqueued? && !e.outcome.RefusedGlobalLimit?)| &&
            t.evicted == |Chosen(es, (e: Event) => e.Enqueued? && e.outcome.QueuedEvictingOldest?)| &&
            t.evictedFullest == |Chosen(es, (e: Event) => e.Enqueued? && e.outcome.QueuedEvictingFullest?)| &&
            t.refused == |Chosen(es, (e: Event) => e.Enqueued? && e.outcome.RefusedGlobalLimit?)|
  {
    if es != [] {
      TalliedExact(es[..|es| - 1]);
    }
  }

  // -- What offers bring ------------------------------------------------------

  /** Only offers to these subscribers under these hashes, and drains. */
  ghost predicate OnlyFor(es: seq<Event>, allowed: set<(Bytes, Bytes)>) {
    forall e :: e in es ==> e.DrainedMatching? || (e.Enqueued? && (e.subscriber, e.channel) in allowed)
  }

  lemma StepBrings(s: State, e: Event, s': State, allowed: set<(Bytes, Bytes)>)
    requires Step(s, e, s') && (e.DrainedMatching? || (e.Enqueued? && (e.subscriber, e.channel) in allowed))
    ensures OnlyBrings(s, s', allowed)
  {
    if e.Enqueued? {
      EnqueueBrings(s, e.subscriber, e.channel, e.blob, e.now, e.id, e.outcome);
    } else {
      DrainMatchingLoses(s, e.subscriber, e.wanted, e.max);
    }
  }

  /** Such events bring nothing else into the queue. */
  lemma {:induction false} LeadsBrings(s: State, es: seq<Event>, s': State, allowed: set<(Bytes, Bytes)>)
    requires Leads(s, es, s') && OnlyFor(es, allowed)
    ensures OnlyBrings(s, s', allowed)
    decreases |es|
  {
    if es != [] {
      var init, last := es[..|es| - 1], es[|es| - 1];
      var m := BeforeLast(s, es, s');
      assert last in es && forall e :: e in init ==> e in es;
      LeadsBrings(s, init, m, allowed);
      StepBrings(m, last, s', allowed);
    }
  }

  lemma {:induction false} LeadsStores(s: State, es: seq<Event>, s': State)
    requires Leads(s, es, s') && forall e :: e in es ==> e.Enqueued?
    ensures s'.nextTicket == s.nextTicket + StoredBy(es)
    decreases |es|
  {
    if es != [] {
      var init, last := es[..|es| - 1], es[|es| - 1];
      var m := BeforeLast(s, es, s');
      assert last in es && forall e :: e in init ==> e in es;
      LeadsStores(s, init, m);
      EvictLoses(m, Victim(last.subscriber, last.outcome));
    }
  }

  lemma {:induction false} LeadsTallies(s: State, es: seq<Event>, s': State)
    requires Leads(s, es, s') && forall e :: e in es ==> e.Enqueued?
    ensures var t := Tallied(es);
            t.queued + t.refused == |es| && TotalLen(s') == TotalLen(s) + t.queued - t.evicted - t.evictedFullest &&
            s'.held == s.held && s'.globalLimit == s.globalLimit
    decreases |es|
  {
    if es != [] {
      var init, last := es[..|es| - 1], es[|es| - 1];
      var m := BeforeLast(s, es, s');
      assert last in es && forall e :: e in init ==> e in es;
      LeadsTallies(s, init, m);
      EnqueueLength(m, last.subscriber, last.channel, last.blob, last.limit, last.now, last.id, last.outcome);
      EvictLoses(m, Victim(last.subscriber, last.outcome));
    }
  }

  /** One offer more made: the trace, its tally and its offers grow together. */
  lemma OfferMade(s: State, es: seq<Event>, m: State, e: Event, s': State, k: Bytes, blobs: seq<(Bytes, Bytes)>,
                  limit: nat, now: real)
    requires Leads(s, es, m) && Acts(m, e, s') && |es| < |blobs| && Offers(es, k, blobs[..|es|], limit, now)
    requires IsOffer(e, k, blobs[|es|].0, blobs[|es|].1, limit, now)
    ensures Leads(s, es + [e], s') && Offers(es + [e], k, blobs[..|es| + 1], limit, now)
    ensures Tallied(es + [e]) == Count(Tallied(es), e.outcome)
  {
    LeadsMore(s, es, m, e, s');
    TalliedMore(es, e);
    OffersMore(es, e, k, blobs, limit, now);
  }

  lemma OffersMore(es: seq<Event>, e: Event, k: Bytes, blobs: seq<(Bytes, Bytes)>, limit: nat, now: real)
    requires |es| < |blobs| && Offers(es, k, blobs[..|es|], limit, now)
    requires IsOffer(e, k, blobs[|es|].0, blobs[|es|].1, limit, now)
    ensures Offers(es + [e], k, blobs[..|es| + 1], limit, now)
  {
    forall i | 0 <= i < |es|
      ensures IsOffer(es[i], k, blobs[i].0, blobs[i].1, limit, now)
    {
      assert blobs[..|es|][i] == blobs[i];
    }
  }
}
