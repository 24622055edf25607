/** How the node tells a distro's hash from a channel's, and what each of its
    paths may then store: subscribing, backup pushes, publishing, sync ingest
    and the backup tick. The distro table's lock may be poisoned; a path finds
    out when it judges. */
module Nodes {
  import opened Filters
  import opened Octets
  import opened Entries
  import opened QueueState
  import opened QueueInvariant
  import opened Conservation
  import opened DeferredQueues
  import opened Distro
  import opened HandOff
  import opened QueueRuns
  import opened QueueTraces

  /** A subscription row: the node's own, or backed up for another node. */
  datatype SubRow = SubRow(subscriber: Bytes, channel: Bytes, owner: Option<Bytes>)

  datatype Judgement = Channel | DistroOf(devices: seq<Device>) | Unjudged

  /** Who a blob goes to, decided under the lock and run after it. */
  datatype Plan =
    | ChannelPlan(routing: Bytes, subscribers: seq<Bytes>, expired: seq<Bytes>)
    | DistroPlan(routing: Bytes, devices: seq<Device>)
    | NoPlan(routing: Bytes)

  datatype Subscribed =
    | Accepted
    | BadChannelHash
    | PolicyRefuses
    | DistroTableUnavailable
    | DistroHash
    | DistroSubscriber

  const PENDING_BACKUP_CAP: nat := 1024

  /** Under which subscribers and hashes a plan may store its blob. */
  ghost function Recipients(plan: Plan, env: Surroundings): set<(Bytes, Bytes)> {
    match plan
    case ChannelPlan(routing, subscribers, _) => set s | s in subscribers :: (s, routing)
    case DistroPlan(routing, devices) => Keys(devices, env, routing)
    case NoPlan(_) => {}
  }

  /** A plan judged against the devices registered in `entries`: under a
      distro's hash it reaches that distro's devices and nobody else. */
  ghost predicate Apart(plan: Plan, entries: seq<Device>) {
    (Registered(entries, plan.routing) ==>
       match plan
       case ChannelPlan(_, subscribers, expired) => subscribers == [] && expired == []
       case DistroPlan(routing, devices) => forall d :: d in devices ==> d in entries && d.distro == routing
       case NoPlan(_) => true) &&
    (plan.DistroPlan? ==> Registered(entries, plan.routing))
  }

  /** `x` is for a device of the distro it is routed to, as registered then. */
  ghost predicate ForDevice(k: (Bytes, Bytes), entries: seq<Device>, identityOf: Device -> Option<Bytes>) {
    exists d :: d in entries && d.distro == k.1 && identityOf(d) == Some(k.0)
  }

  lemma RecipientsAreDevices(plan: Plan, entries: seq<Device>, env: Surroundings)
    requires Apart(plan, entries) && Registered(entries, plan.routing)
    ensures forall k :: k in Recipients(plan, env) ==> k.1 == plan.routing && ForDevice(k, entries, env.identityOf)
  {}

  // -- Subscription rows ------------------------------------------------------

  function SubscribersOf(rows: seq<SubRow>, channel: Bytes): seq<Bytes> {
    if rows == [] then []
    else
      var last := rows[|rows| - 1];
      SubscribersOf(rows[..|rows| - 1], channel) + if last.channel == channel then [last.subscriber] else []
  }

  /** A row of the node's own under `channel` that nothing renewed in time. */
  predicate Expires(r: SubRow, channel: Bytes, stale: SubRow -> bool) {
    r.owner.None? && r.channel == channel && stale(r)
  }

  function Unexpired(rows: seq<SubRow>, channel: Bytes, stale: SubRow -> bool): seq<SubRow> {
    if rows == [] then []
    else
      var last := rows[|rows| - 1];
      Unexpired(rows[..|rows| - 1], channel, stale) + if Expires(last, channel, stale) then [] else [last]
  }

  function ExpiredOf(rows: seq<SubRow>, channel: Bytes, stale: SubRow -> bool): seq<Bytes> {
    if rows == [] then []
    else
      var last := rows[|rows| - 1];
      ExpiredOf(rows[..|rows| - 1], channel, stale) + if Expires(last, channel, stale) then [last.subscriber] else []
  }

  /** A plan's subscribers are those of every row under the channel, row by
      row in order; so whoever has one is among them. */
  lemma {:induction false} SubscribersExact(rows: seq<SubRow>, channel: Bytes)
    ensures var under := Chosen(rows, (r: SubRow) => r.channel == channel);
            |SubscribersOf(rows, channel)| == |under| &&
            forall i :: 0 <= i < |under| ==> SubscribersOf(rows, channel)[i] == under[i].subscriber
    ensures forall k :: k in SubscribersOf(rows, channel) <==>
              exists r :: r in rows && r.channel == channel && r.subscriber == k
  {
    if rows != [] {
      var init, last := rows[..|rows| - 1], rows[|rows| - 1];
      assert rows == init + [last];
      SubscribersExact(init, channel);
      forall k
        ensures k in SubscribersOf(rows, channel) <==>
                  exists r :: r in rows && r.channel == channel && r.subscriber == k
      {
        if r :| r in init && r.channel == channel && r.subscriber == k {
          assert r in rows;
        }
        assert last in rows;
      }
    }
  }

  lemma {:induction false} UnexpiredIsChosen(rows: seq<SubRow>, channel: Bytes, stale: SubRow -> bool)
    ensures Unexpired(rows, channel, stale) ==
            Chosen(rows, (r: SubRow) => r.owner.Some? || r.channel != channel || !stale(r))
  {
    if rows != [] {
      UnexpiredIsChosen(rows[..|rows| - 1], channel, stale);
    }
  }

  lemma {:induction false} ExpiredExact(rows: seq<SubRow>, channel: Bytes, stale: SubRow -> bool)
    ensures var gone := Chosen(rows, (r: SubRow) => r.owner.None? && r.channel == channel && stale(r));
            |ExpiredOf(rows, channel, stale)| == |gone| &&
            forall i :: 0 <= i < |gone| ==> ExpiredOf(rows, channel, stale)[i] == gone[i].subscriber
  {
    if rows != [] {
      ExpiredExact(rows[..|rows| - 1], channel, stale);
    }
  }

  /** Whoever has a row under the channel that does not expire is planned for. */
  lemma PlannedFor(rows: seq<SubRow>, channel: Bytes, stale: SubRow -> bool, r: SubRow)
    requires r in rows && r.channel == channel && (r.owner.Some? || !stale(r))
    ensures r.subscriber in SubscribersOf(Unexpired(rows, channel, stale), channel)
  {
    UnexpiredIsChosen(rows, channel, stale);
    ChosenMembers(rows, (r: SubRow) => r.owner.Some? || r.channel != channel || !stale(r));
    SubscribersExact(Unexpired(rows, channel, stale), channel);
  }

  /** What a subscription or a backed-up pair needs: its channel is no distro
      registered here, and its subscriber none. */
  ghost predicate MayStore(subscriber: Bytes, channel: Bytes, entries: seq<Device>, deliveryHashOf: Bytes -> Bytes) {
    !Registered(entries, channel) && !Registered(entries, deliveryHashOf(subscriber))
  }

  /** The subscriber's own row, unless it holds one, backed up or not. */
  ghost function WithOwnRow(rows: seq<SubRow>, subscriber: Bytes, channel: Bytes): seq<SubRow> {
    rows +
      if exists x :: x in rows && x.subscriber == subscriber && x.channel == channel then []
      else [SubRow(subscriber, channel, None)]
  }

  function WithPending(pending: seq<(Bytes, Bytes)>, subscriber: Bytes, channel: Bytes): seq<(Bytes, Bytes)> {
    pending + if |pending| < PENDING_BACKUP_CAP then [(subscriber, channel)] else []
  }

  function WithBackupRow(rows: seq<SubRow>, row: SubRow): seq<SubRow> { rows + if row in rows then [] else [row] }

  /** The rows after a backup push: the storable pairs' rows added in order. */
  ghost function BackedUp(rows: seq<SubRow>, pairs: seq<(Bytes, Bytes)>, owner: Bytes, entries: seq<Device>,
                          deliveryHashOf: Bytes -> Bytes): seq<SubRow> {
    if pairs == [] then rows
    else
      var last := pairs[|pairs| - 1];
      var r := BackedUp(rows, pairs[..|pairs| - 1], owner, entries, deliveryHashOf);
      if MayStore(last.0, last.1, entries, deliveryHashOf)
      then WithBackupRow(r, SubRow(last.0, last.1, Some(owner)))
      else r
  }

  lemma {:induction false} BackedUpExact(rows: seq<SubRow>, pairs: seq<(Bytes, Bytes)>, owner: Bytes,
                                         entries: seq<Device>, deliveryHashOf: Bytes -> Bytes)
    ensures var r := BackedUp(rows, pairs, owner, entries, deliveryHashOf);
            rows <= r && NoDistroRows(rows, r, entries, deliveryHashOf) &&
            (forall p :: p in pairs && MayStore(p.0, p.1, entries, deliveryHashOf) ==>
               SubRow(p.0, p.1, Some(owner)) in r) &&
            forall x :: x in r && x !in rows ==> x.owner == Some(owner) && (x.subscriber, x.channel) in pairs
  {
    if pairs != [] {
      var init, last := pairs[..|pairs| - 1], pairs[|pairs| - 1];
      assert pairs == init + [last];
      BackedUpExact(rows, init, owner, entries, deliveryHashOf);
    }
  }

  ghost predicate NoRowTwice(rows: seq<SubRow>) { forall i, j :: 0 <= i < j < |rows| ==> rows[i] != rows[j] }

  /** However often a pair is pushed its row is stored once. */
  lemma {:induction false} BackedUpOnce(rows: seq<SubRow>, pairs: seq<(Bytes, Bytes)>, owner: Bytes,
                                        entries: seq<Device>, deliveryHashOf: Bytes -> Bytes)
    requires NoRowTwice(rows)
    ensures NoRowTwice(BackedUp(rows, pairs, owner, entries, deliveryHashOf))
  {
    if pairs != [] {
      BackedUpOnce(rows, pairs[..|pairs| - 1], owner, entries, deliveryHashOf);
    }
  }

  /** Whatever rows are new are under no distro registered here, and by none. */
  ghost predicate NoDistroRows(before: seq<SubRow>, after: seq<SubRow>, entries: seq<Device>,
                               deliveryHashOf: Bytes -> Bytes) {
    forall r :: r in after ==>
      r in before || (!Registered(entries, r.channel) && !Registered(entries, deliveryHashOf(r.subscriber)))
  }

  // -- What a plan does to the queue ------------------------------------------

  /** One drain of the channel's entries an expired subscriber, in order. */
  ghost predicate Drops(es: seq<Event>, expired: seq<Bytes>, routing: Bytes) {
    |es| == |expired| &&
    forall i :: 0 <= i < |es| ==>
      es[i].DrainedMatching? && es[i].subscriber == expired[i] && es[i].wanted == Only(routing)
  }

  ghost predicate NoneLeft(s: State, k: Bytes, routing: Bytes) { QueueState.CountMatching(s, k, routing) == 0 }

  /** The expired subscriptions `expired[..i]` dropped. */
  ghost predicate Dropping(s: State, es: seq<Event>, s1: State, expired: seq<Bytes>, i: nat, routing: Bytes)
    requires i <= |expired|
  {
    Leads(s, es, s1) && Drops(es, expired[..i], routing) && forall j :: 0 <= j < i ==> NoneLeft(s1, expired[j], routing)
  }

  lemma DropsAll(s: State, k: Bytes, routing: Bytes)
    ensures var s' := DrainMatching(s, k, Only(routing), QueueState.CountMatching(s, k, routing)).0;
            QueueState.CountMatching(s', k, routing) == 0 && OnlyBrings(s, s', {})
  {
    var n := QueueState.CountMatching(s, k, routing);
    DropWantedSelects(Bucket(s.queue, k), Only(routing), n);
    DrainMatchingLoses(s, k, Only(routing), n);
  }

  lemma DropsOneMore(s: State, es: seq<Event>, s1: State, expired: seq<Bytes>, i: nat, routing: Bytes, e: Event,
                     s2: State)
    requires i < |expired| && Dropping(s, es, s1, expired, i, routing)
    requires e == DrainedMatching(expired[i], Only(routing), QueueState.CountMatching(s1, expired[i], routing)) &&
             Acts(s1, e, s2)
    ensures Dropping(s, es + [e], s2, expired, i + 1, routing)
  {
    LeadsMore(s, es, s1, e, s2);
    DropsMore(es, expired, i, routing, e);
    DropsAll(s1, expired[i], routing);
    forall j | 0 <= j < i + 1
      ensures NoneLeft(s2, expired[j], routing)
    {
      if j < i {
        assert NoneLeft(s1, expired[j], routing);
        MatchingCount(s1, expired[i], Only(routing), e.max, expired[j], routing);
      }
    }
  }

  lemma DropsMore(es: seq<Event>, expired: seq<Bytes>, i: nat, routing: Bytes, e: Event)
    requires i < |expired| && Drops(es, expired[..i], routing)
    requires e.DrainedMatching? && e.subscriber == expired[i] && e.wanted == Only(routing)
    ensures Drops(es + [e], expired[..i + 1], routing)
  {}

  function Unconfirmed(subscribers: seq<Bytes>, confirmed: Bytes -> bool): seq<Bytes> {
    if subscribers == [] then []
    else
      var last := subscribers[|subscribers| - 1];
      Unconfirmed(subscribers[..|subscribers| - 1], confirmed) + if confirmed(last) then [] else [last]
  }

  lemma {:induction false} UnconfirmedIsChosen(subscribers: seq<Bytes>, confirmed: Bytes -> bool)
    ensures Unconfirmed(subscribers, confirmed) == Chosen(subscribers, (k: Bytes) => !confirmed(k))
  {
    if subscribers != [] {
      UnconfirmedIsChosen(subscribers[..|subscribers| - 1], confirmed);
    }
  }

  /** The subscribers `plan.subscribers[..i]` handed off. */
  ghost predicate HandingOver(s: State, es: seq<Event>, s1: State, plan: Plan, blob: Bytes, confirmed: Bytes -> bool,
                              env: Surroundings, i: nat)
    requires plan.ChannelPlan? && i <= |plan.subscribers|
  {
    Leads(s, es, s1) && HandsOver(es, Unconfirmed(plan.subscribers[..i], confirmed), plan.routing, blob, env)
  }

  lemma HandsOneMore(s: State, es: seq<Event>, s1: State, plan: Plan, blob: Bytes, confirmed: Bytes -> bool,
                     env: Surroundings, i: nat, fs: seq<Event>, s2: State)
    requires plan.ChannelPlan? && i < |plan.subscribers| && HandingOver(s, es, s1, plan, blob, confirmed, env, i)
    requires if confirmed(plan.subscribers[i]) then fs == [] && s2 == s1
             else Leads(s1, fs, s2) && HandsOver(fs, [plan.subscribers[i]], plan.routing, blob, env)
    ensures HandingOver(s, es + fs, s2, plan, blob, confirmed, env, i + 1)
  {
    var k := plan.subscribers[i];
    assert plan.subscribers[..i + 1][..i] == plan.subscribers[..i];
    if confirmed(k) {
      assert es + fs == es;
    } else {
      LeadsOn(s, es, s1, fs, s2);
    }
  }

  /** The subscribers a plan's hand-offs queue for, in order. */
  function HandedTo(plan: Plan, confirmed: Bytes -> bool, env: Surroundings): seq<Bytes> {
    match plan
    case ChannelPlan(_, subscribers, _) => Unconfirmed(subscribers, confirmed)
    case DistroPlan(_, devices) => HandedKeys(devices, env)
    case NoPlan(_) => []
  }

  /** The subscriber a later hand-off of the plan's `r`th recipient queues for,
      when its push went unanswered. */
  function LateKey(plan: Plan, r: nat, env: Surroundings): seq<Bytes> {
    match plan
    case ChannelPlan(_, subscribers, _) => if r < |subscribers| then [subscribers[r]] else []
    case DistroPlan(_, devices) =>
      if r < |devices| && env.identityOf(devices[r]).Some? then [env.identityOf(devices[r]).value] else []
    case NoPlan(_) => []
  }

  lemma HandedToExact(plan: Plan, confirmed: Bytes -> bool, env: Surroundings)
    ensures plan.ChannelPlan? ==>
              HandedTo(plan, confirmed, env) == Chosen(plan.subscribers, (k: Bytes) => !confirmed(k))
    ensures plan.DistroPlan? ==>
              var handed := Chosen(plan.devices, (d: Device) => !env.takesLive(d) && env.identityOf(d).Some?);
              |HandedTo(plan, confirmed, env)| == |handed| &&
              forall i :: 0 <= i < |handed| ==> env.identityOf(handed[i]) == Some(HandedTo(plan, confirmed, env)[i])
    ensures plan.NoPlan? ==> HandedTo(plan, confirmed, env) == []
  {
    match plan
    case ChannelPlan(_, subscribers, _) => UnconfirmedIsChosen(subscribers, confirmed);
    case DistroPlan(_, devices) => HandedExact(devices, env);
    case NoPlan(_) =>
  }

  /** First the expired subscriptions' drains, then one offer of the blob to
      each recipient handed off, and nothing else. */
  ghost predicate RunsAs(plan: Plan, blob: Bytes, confirmed: Bytes -> bool, env: Surroundings, dropped: seq<Event>,
                         offered: seq<Event>) {
    (if plan.ChannelPlan? then Drops(dropped, plan.expired, plan.routing) else dropped == []) &&
    HandsOver(offered, HandedTo(plan, confirmed, env), plan.routing, blob, env)
  }

  lemma {:induction false} UnconfirmedAmong(subscribers: seq<Bytes>, confirmed: Bytes -> bool)
    ensures forall k :: k in Unconfirmed(subscribers, confirmed) ==> k in subscribers
  {
    if subscribers != [] {
      UnconfirmedAmong(subscribers[..|subscribers| - 1], confirmed);
    }
  }

  lemma HandedAreRecipients(plan: Plan, confirmed: Bytes -> bool, env: Surroundings)
    ensures forall k :: k in HandedTo(plan, confirmed, env) ==> (k, plan.routing) in Recipients(plan, env)
  {
    match plan
    case ChannelPlan(_, subscribers, _) => UnconfirmedAmong(subscribers, confirmed);
    case DistroPlan(routing, devices) => HandedAreKeys(devices, env, routing);
    case NoPlan(_) =>
  }

  lemma LateIsRecipient(plan: Plan, r: nat, env: Surroundings)
    ensures forall k :: k in LateKey(plan, r, env) ==> (k, plan.routing) in Recipients(plan, env)
  {}

  lemma OffersOnlyFor(es: seq<Event>, ks: seq<Bytes>, c: Bytes, blob: Bytes, env: Surroundings,
                      allowed: set<(Bytes, Bytes)>)
    requires HandsOver(es, ks, c, blob, env) && forall k :: k in ks ==> (k, c) in allowed
    ensures OnlyFor(es, allowed)
  {
    forall e | e in es
      ensures e.Enqueued? && (e.subscriber, e.channel) in allowed
    {
      var i :| 0 <= i < |es| && es[i] == e;
      assert ks[i] in ks;
    }
  }

  lemma RunsOnlyFor(plan: Plan, blob: Bytes, confirmed: Bytes -> bool, env: Surroundings, dropped: seq<Event>,
                    offered: seq<Event>)
    requires RunsAs(plan, blob, confirmed, env, dropped, offered)
    ensures OnlyFor(dropped + offered, Recipients(plan, env))
  {
    HandedAreRecipients(plan, confirmed, env);
    OffersOnlyFor(offered, HandedTo(plan, confirmed, env), plan.routing, blob, env, Recipients(plan, env));
  }

  /** What holds after a trace that offers only to `allowed`. */
  lemma TraceDone(s: State, es: seq<Event>, s': State, allowed: set<(Bytes, Bytes)>)
    requires Leads(s, es, s') && OnlyFor(es, allowed)
    ensures OnlyBrings(s, s', allowed) && (Inv(s) ==> Inv(s'))
  {
    LeadsBrings(s, es, s', allowed);
    if Inv(s) {
      LeadsKeepsInv(s, es, s');
    }
  }

  // -- The backup tick's visits -----------------------------------------------

  /** What the tick finds: owners heard lately, the blobs stored under a hash,
      the limits, the clock. */
  datatype TickView = TickView(heard: Bytes -> bool, blobsUnder: Bytes -> seq<Bytes>, limitFor: Bytes -> nat, now: real)

  /** A row the tick may deliver to: backed up for an owner not heard, under
      no distro registered here. */
  ghost predicate Due(r: SubRow, rows: seq<SubRow>, entries: seq<Device>, view: TickView) {
    r in rows && IsDue(r, entries, view)
  }

  ghost predicate IsDue(r: SubRow, entries: seq<Device>, view: TickView) {
    r.owner.Some? && !view.heard(r.owner.value) && !Registered(entries, r.channel)
  }

  /** How often a row is stored. */
  function Times(rows: seq<SubRow>, r: SubRow): nat {
    if rows == [] then 0 else Times(rows[..|rows| - 1], r) + if rows[|rows| - 1] == r then 1 else 0
  }

  lemma {:induction false} TimesExact(rows: seq<SubRow>, r: SubRow)
    ensures Times(rows, r) == multiset(rows)[r]
    ensures Times(rows, r) > 0 <==> r in rows
  {
    if rows != [] {
      assert rows == rows[..|rows| - 1] + [rows[|rows| - 1]];
      TimesExact(rows[..|rows| - 1], r);
    }
  }

  ghost function DueKeys(rows: seq<SubRow>, entries: seq<Device>, view: TickView): set<(Bytes, Bytes)> {
    set r | r in rows && Due(r, rows, entries, view) :: (r.subscriber, r.channel)
  }

  /** A due row come to: the queue before, and what was done to it. */
  datatype Visit = Visit(row: SubRow, before: State, es: seq<Event>)

  function Under(channel: Bytes, blobs: seq<Bytes>): (r: seq<(Bytes, Bytes)>)
    ensures |r| == |blobs|
  {
    seq(|blobs|, i requires 0 <= i < |blobs| => (channel, blobs[i]))
  }

  predicate Waiting(v: Visit) { Pending(v.before.queue, v.row.subscriber, Any()) }

  /** Every blob under the channel is offered once, unless the subscriber has
      anything waiting, which it collects first. */
  predicate Delivers(v: Visit, view: TickView) {
    if Waiting(v) then v.es == []
    else Offers(v.es, v.row.subscriber, Under(v.row.channel, view.blobsUnder(v.row.channel)),
                view.limitFor(v.row.subscriber), view.now)
  }

  ghost predicate Visited(s: State, vs: seq<Visit>, s': State) {
    if vs == [] then s' == s
    else
      var last := vs[|vs| - 1];
      Visited(s, vs[..|vs| - 1], last.before) && Leads(last.before, last.es, s')
  }

  ghost function AllEvents(vs: seq<Visit>): seq<Event> {
    if vs == [] then [] else AllEvents(vs[..|vs| - 1]) + vs[|vs| - 1].es
  }

  /** And how often it is visited. */
  function Visits(vs: seq<Visit>, r: SubRow): nat {
    if vs == [] then 0 else Visits(vs[..|vs| - 1], r) + if vs[|vs| - 1].row == r then 1 else 0
  }

  lemma {:induction false} VisitOf(vs: seq<Visit>, r: SubRow)
    requires Visits(vs, r) > 0
    ensures exists v :: v in vs && v.row == r
  {
    var init, last := vs[..|vs| - 1], vs[|vs| - 1];
    if last.row == r {
      assert last in vs;
    } else {
      VisitOf(init, r);
      var v :| v in init && v.row == r;
      assert v in vs;
    }
  }

  /** A due row is visited as often as it is stored, any other never. */
  ghost predicate EachVisited(vs: seq<Visit>, rows: seq<SubRow>, entries: seq<Device>, view: TickView) {
    forall r :: Visits(vs, r) == if IsDue(r, entries, view) then Times(rows, r) else 0
  }

  lemma {:induction false} VisitsAreChosen(vs: seq<Visit>, r: SubRow)
    ensures Visits(vs, r) == |Chosen(vs, (v: Visit) => v.row == r)|
  {
    if vs != [] {
      VisitsAreChosen(vs[..|vs| - 1], r);
    }
  }

  /** So the visits of a row of an owner not heard, under no distro, are as many
      as the row stands in the table, and of any other row none. */
  lemma VisitsExact(vs: seq<Visit>, rows: seq<SubRow>, entries: seq<Device>, view: TickView, r: SubRow)
    requires EachVisited(vs, rows, entries, view)
    ensures |Chosen(vs, (v: Visit) => v.row == r)| ==
            if r.owner.Some? && !view.heard(r.owner.value) && !Registered(entries, r.channel)
            then multiset(rows)[r] else 0
  {
    VisitsAreChosen(vs, r);
    TimesExact(rows, r);
    assert Visits(vs, r) == if IsDue(r, entries, view) then Times(rows, r) else 0;
  }

  /** The rows of these owners visited, and no others. */
  ghost predicate OwnersVisited(vs: seq<Visit>, rows: seq<SubRow>, entries: seq<Device>, view: TickView,
                                owners: set<Bytes>) {
    forall r :: Visits(vs, r) == if IsDue(r, entries, view) && r.owner.value in owners then Times(rows, r) else 0
  }

  /** The rows of one owner more. */
  ghost predicate OwnerVisited(vs: seq<Visit>, vs': seq<Visit>, rows: seq<SubRow>, entries: seq<Device>, view: TickView,
                               owner: Bytes)
  {
    forall r :: Visits(vs', r) ==
                Visits(vs, r) + if IsDue(r, entries, view) && r.owner == Some(owner) then Times(rows, r) else 0
  }

  lemma RowVisited(vs: seq<Visit>, vs1: seq<Visit>, vs2: seq<Visit>, rows: seq<SubRow>, i: nat, entries: seq<Device>,
                   view: TickView, owner: Bytes)
    requires i < |rows| && OwnerVisited(vs, vs1, rows[..i], entries, view, owner)
    requires if IsDue(rows[i], entries, view) && rows[i].owner == Some(owner)
             then |vs2| == |vs1| + 1 && vs2[..|vs1|] == vs1 && vs2[|vs1|].row == rows[i] else vs2 == vs1
    ensures OwnerVisited(vs, vs2, rows[..i + 1], entries, view, owner)
  {
    assert rows[..i + 1][..i] == rows[..i];
    forall r
      ensures Visits(vs2, r) ==
              Visits(vs, r) + if IsDue(r, entries, view) && r.owner == Some(owner) then Times(rows[..i + 1], r) else 0
    {
      assert Times(rows[..i + 1], r) == Times(rows[..i], r) + if rows[i] == r then 1 else 0;
      assert Visits(vs2, r) == Visits(vs1, r) + if vs2 != vs1 && rows[i] == r then 1 else 0;
    }
  }

  lemma OwnerDone(vs: seq<Visit>, vs': seq<Visit>, rows: seq<SubRow>, entries: seq<Device>, view: TickView,
                  owners: set<Bytes>, owner: Bytes)
    requires OwnersVisited(vs, rows, entries, view, owners) && owner !in owners
    requires if view.heard(owner) then vs' == vs else OwnerVisited(vs, vs', rows, entries, view, owner)
    ensures OwnersVisited(vs', rows, entries, view, owners + {owner})
  {}

  lemma AllVisited(vs: seq<Visit>, rows: seq<SubRow>, entries: seq<Device>, view: TickView, owners: set<Bytes>)
    requires OwnersVisited(vs, rows, entries, view, owners)
    requires forall r :: Due(r, rows, entries, view) ==> r.owner.value in owners
    ensures EachVisited(vs, rows, entries, view)
    ensures forall r :: r in rows && r.owner.Some? && !view.heard(r.owner.value) &&
                        !Registered(entries, r.channel) ==>
              exists v :: v in vs && v.row == r
  {
    forall r
      ensures Visits(vs, r) == if IsDue(r, entries, view) then Times(rows, r) else 0
      ensures r in rows && r.owner.Some? && !view.heard(r.owner.value) && !Registered(entries, r.channel) ==>
                exists v :: v in vs && v.row == r
    {
      TimesExact(rows, r);
      if Due(r, rows, entries, view) {
        VisitOf(vs, r);
      }
    }
  }

  /** A visit that delivers offers every blob under the row's channel to its
      subscriber, once and in order; one that does not found something there
      for the subscriber already. */
  lemma DeliversExact(v: Visit, view: TickView)
    requires Delivers(v, view)
    ensures var waits, blobs := Bucket(v.before.queue, v.row.subscriber) != [], view.blobsUnder(v.row.channel);
            |v.es| == (if waits then 0 else |blobs|) &&
            forall i :: 0 <= i < |v.es| ==>
              v.es[i].Enqueued? && v.es[i].subscriber == v.row.subscriber && v.es[i].channel == v.row.channel &&
              v.es[i].blob == blobs[i] && v.es[i].limit == view.limitFor(v.row.subscriber) && v.es[i].now == view.now
  {
    WaitingExact(v);
  }

  lemma WaitingExact(v: Visit)
    ensures Waiting(v) <==> Bucket(v.before.queue, v.row.subscriber) != []
  {
    var b := Bucket(v.before.queue, v.row.subscriber);
    DropWantedPrefix(b, 0);
  }

  /** The rows taken as adopted: those with blobs to deliver or to wait for. */
  function AdoptedOf(vs: seq<Visit>, view: TickView): seq<SubRow> {
    if vs == [] then []
    else
      var last := vs[|vs| - 1];
      AdoptedOf(vs[..|vs| - 1], view) +
      if Waiting(last) || view.blobsUnder(last.row.channel) != [] then [last.row] else []
  }

  /** Adopted are the rows of the visits that found something waiting or a blob
      to deliver, one a visit and in order. */
  lemma {:induction false} AdoptedExact(vs: seq<Visit>, view: TickView)
    ensures var took := Chosen(vs, (v: Visit) =>
              Bucket(v.before.queue, v.row.subscriber) != [] || view.blobsUnder(v.row.channel) != []);
            |AdoptedOf(vs, view)| == |took| && forall i :: 0 <= i < |took| ==> AdoptedOf(vs, view)[i] == took[i].row
  {
    if vs != [] {
      AdoptedExact(vs[..|vs| - 1], view);
      WaitingExact(vs[|vs| - 1]);
    }
  }

  lemma {:induction false} VisitedLeads(s: State, vs: seq<Visit>, s': State)
    requires Visited(s, vs, s')
    ensures Leads(s, AllEvents(vs), s')
  {
    if vs != [] {
      var last := vs[|vs| - 1];
      VisitedLeads(s, vs[..|vs| - 1], last.before);
      LeadsOn(s, AllEvents(vs[..|vs| - 1]), last.before, last.es, s');
    }
  }

  /** The tick under way. */
  ghost predicate Ticked(s: State, vs: seq<Visit>, s1: State, adopted: seq<SubRow>, rows: seq<SubRow>,
                         entries: seq<Device>, view: TickView)
  {
    Visited(s, vs, s1) && adopted == AdoptedOf(vs, view) &&
    forall v :: v in vs ==> Due(v.row, rows, entries, view) && Delivers(v, view)
  }

  lemma TickedMore(s: State, vs: seq<Visit>, s1: State, adopted: seq<SubRow>, rows: seq<SubRow>, entries: seq<Device>,
                   view: TickView, v: Visit, s2: State)
    requires Ticked(s, vs, s1, adopted, rows, entries, view) && v.before == s1 && Leads(s1, v.es, s2)
    requires Due(v.row, rows, entries, view) && Delivers(v, view)
    ensures Ticked(s, vs + [v], s2,
                   adopted + (if Waiting(v) || view.blobsUnder(v.row.channel) != [] then [v.row] else []),
                   rows, entries, view)
  {
    assert (vs + [v])[..|vs|] == vs;
  }

  lemma {:induction false} VisitsOnlyFor(vs: seq<Visit>, rows: seq<SubRow>, entries: seq<Device>, view: TickView)
    requires forall v :: v in vs ==> Due(v.row, rows, entries, view) && Delivers(v, view)
    ensures OnlyFor(AllEvents(vs), DueKeys(rows, entries, view))
  {
    if vs != [] {
      var init, v := vs[..|vs| - 1], vs[|vs| - 1];
      assert v in vs && forall x :: x in init ==> x in vs;
      VisitsOnlyFor(init, rows, entries, view);
      assert (v.row.subscriber, v.row.channel) in DueKeys(rows, entries, view);
    }
  }

  class Node {
    const distros: DistroTable
    const queue: DeferredQueue
    const deliveryHashOf: Bytes -> Bytes
    const allowSubscription: Bytes -> bool
    const trustedPeers: set<Bytes>

    var rows: seq<SubRow>
    var pendingBackup: seq<(Bytes, Bytes)>

    /** The plans made so far, and the devices each was judged against. */
    var plans: seq<Plan>
    ghost var judgedAgainst: seq<seq<Device>>

    constructor (table: DistroTable, q: DeferredQueue, found: seq<SubRow>, hashOf: Bytes -> Bytes,
                 allow: Bytes -> bool, trusted: set<Bytes>)
      ensures Valid() && distros == table && queue == q
      ensures rows == found && pendingBackup == [] && plans == [] && judgedAgainst == []
      ensures deliveryHashOf == hashOf && allowSubscription == allow && trustedPeers == trusted
    {
      distros, queue, deliveryHashOf, allowSubscription, trustedPeers := table, q, hashOf, allow, trusted;
      rows, pendingBackup, plans, judgedAgainst := found, [], [], [];
    }

    ghost predicate Valid()
      reads this
    {
      |plans| == |judgedAgainst| && forall i :: 0 <= i < |plans| ==> Apart(plans[i], judgedAgainst[i])
    }

    // -- Judging --------------------------------------------------------------

    method Judge(routing: Bytes, poisoned: bool) returns (j: Judgement)
      ensures poisoned ==> j == Unjudged
      ensures !poisoned && Registered(distros.entries, routing) ==> j == DistroOf(DevicesOf(distros.entries, routing))
      ensures !poisoned && !Registered(distros.entries, routing) ==> j == Channel
    {
      if poisoned { return Unjudged; }
      var registered := distros.IsDistro(routing);
      if registered {
        var devices := distros.DevicesSnapshot(routing);
        return DistroOf(devices);
      }
      return Channel;
    }

    /** Expire the channel's own stale rows, and plan for those that stay. */
    method ChannelRowsPlan(routing: Bytes, stale: SubRow -> bool) returns (plan: Plan)
      modifies this`rows
      ensures rows == Unexpired(old(rows), routing, stale)
      ensures plan == ChannelPlan(routing, SubscribersOf(rows, routing), ExpiredOf(old(rows), routing, stale))
    {
      var kept: seq<SubRow>, expired: seq<Bytes> := [], [];
      for i := 0 to |rows|
        invariant rows == old(rows)
        invariant kept == Unexpired(rows[..i], routing, stale) && expired == ExpiredOf(rows[..i], routing, stale)
      {
        assert rows[..i + 1][..i] == rows[..i];
        if Expires(rows[i], routing, stale) {
          expired := expired + [rows[i].subscriber];
        } else {
          kept := kept + [rows[i]];
        }
      }
      assert rows[..|rows|] == rows;
      rows := kept;
      var subscribers: seq<Bytes> := [];
      for i := 0 to |rows|
        invariant rows == kept && subscribers == SubscribersOf(rows[..i], routing)
      {
        assert rows[..i + 1][..i] == rows[..i];
        if rows[i].channel == routing { subscribers := subscribers + [rows[i].subscriber]; }
      }
      assert rows[..|rows|] == rows;
      plan := ChannelPlan(routing, subscribers, expired);
    }

    method Keep(plan: Plan)
      requires Valid() && Apart(plan, distros.entries)
      modifies this`plans, this`judgedAgainst
      ensures Valid() && plans == old(plans) + [plan] && judgedAgainst == old(judgedAgainst) + [distros.entries]
    {
      plans := plans + [plan];
      judgedAgainst := judgedAgainst + [distros.entries];
    }

    /** A publish: a channel's subscribers, or nobody at all under a distro's
        hash or when the table cannot be read. */
    method PlanChannelFanout(routing: Bytes, poisoned: bool, stale: SubRow -> bool) returns (plan: Plan)
      requires Valid()
      modifies this`rows, this`plans, this`judgedAgainst
      ensures Valid() && plans == old(plans) + [plan] && judgedAgainst == old(judgedAgainst) + [distros.entries]
      ensures Apart(plan, distros.entries) && plan.ChannelPlan? && plan.routing == routing
      ensures if poisoned || Registered(distros.entries, routing)
              then plan == ChannelPlan(routing, [], []) && rows == old(rows)
              else rows == Unexpired(old(rows), routing, stale) &&
                   plan == ChannelPlan(routing, SubscribersOf(rows, routing), ExpiredOf(old(rows), routing, stale))
      ensures !poisoned && !Registered(distros.entries, routing) ==>
                forall k :: k in plan.subscribers <==>
                  exists x :: x in rows && x.channel == routing && x.subscriber == k
    {
      var j := Judge(routing, poisoned);
      if j.Channel? {
        plan := ChannelRowsPlan(routing, stale);
        SubscribersExact(rows, routing);
      } else {
        plan := ChannelPlan(routing, [], []);
      }
      Keep(plan);
    }

    /** Sync ingest: the distro's devices, or the channel's subscribers, never
        both; neither when the table cannot be read. */
    method PlanSyncDispatch(routing: Bytes, poisoned: bool, stale: SubRow -> bool) returns (plan: Plan)
      requires Valid()
      modifies this`rows, this`plans, this`judgedAgainst
      ensures Valid() && plans == old(plans) + [plan] && judgedAgainst == old(judgedAgainst) + [distros.entries]
      ensures Apart(plan, distros.entries) && plan.routing == routing
      ensures if poisoned then plan == NoPlan(routing) && rows == old(rows)
              else if Registered(distros.entries, routing)
              then plan == DistroPlan(routing, DevicesOf(distros.entries, routing)) && rows == old(rows)
              else rows == Unexpired(old(rows), routing, stale) &&
                   plan == ChannelPlan(routing, SubscribersOf(rows, routing), ExpiredOf(old(rows), routing, stale))
      ensures plan.ChannelPlan? ==>
                forall k :: k in plan.subscribers <==>
                  exists x :: x in rows && x.channel == routing && x.subscriber == k
    {
      var j := Judge(routing, poisoned);
      match j {
        case Channel =>
          plan := ChannelRowsPlan(routing, stale);
          SubscribersExact(rows, routing);
        case DistroOf(devices) =>
          DevicesOfExact(distros.entries, routing);
          plan := DistroPlan(routing, devices);
        case Unjudged => plan := NoPlan(routing);
      }
      Keep(plan);
    }

    // -- Running a plan, at any later time ------------------------------------

    /** Nobody is left to pull what an expired subscription had queued: its
        entries on the channel go, and no others. */
    method DropExpired(routing: Bytes, expired: seq<Bytes>) returns (ghost es: seq<Event>)
      modifies queue
      ensures Leads(old(queue.St()), es, queue.St()) && Drops(es, expired, routing)
      ensures OnlyBrings(old(queue.St()), queue.St(), {})
      ensures forall s :: s in expired ==> NoneLeft(queue.St(), s, routing)
    {
      ghost var s := queue.St();
      es := [];
      for i := 0 to |expired|
        invariant Dropping(s, es, queue.St(), expired, i, routing)
      {
        ghost var s1 := queue.St();
        var count := queue.CountMatching(expired[i], routing);
        var dropped := queue.DrainChannelBatch(expired[i], routing, count);
        ghost var e := DrainedMatching(expired[i], Only(routing), count);
        DropsOneMore(s, es, s1, expired, i, routing, e, queue.St());
        es := es + [e];
      }
      assert expired[..|expired|] == expired;
      LeadsBrings(s, es, queue.St(), {});
    }

    /** The hand-offs of a channel's subscribers whose delivery is not
        confirmed; the transport says which. */
    method QueueForSubscribers(plan: Plan, blob: Bytes, confirmed: Bytes -> bool, env: Surroundings)
      returns (ghost es: seq<Event>)
      requires plan.ChannelPlan?
      modifies queue
      ensures Leads(old(queue.St()), es, queue.St())
      ensures HandsOver(es, Unconfirmed(plan.subscribers, confirmed), plan.routing, blob, env)
    {
      ghost var s := queue.St();
      es := [];
      for i := 0 to |plan.subscribers|
        invariant HandingOver(s, es, queue.St(), plan, blob, confirmed, env, i)
      {
        var k := plan.subscribers[i];
        ghost var s1 := queue.St();
        ghost var fs: seq<Event> := [];
        if !confirmed(k) {
          fs := QueueFor(plan.routing, k, blob, env);
        }
        HandsOneMore(s, es, s1, plan, blob, confirmed, env, i, fs, queue.St());
        es := es + fs;
      }
      assert plan.subscribers[..|plan.subscribers|] == plan.subscribers;
    }

    method QueueFor(routing: Bytes, k: Bytes, blob: Bytes, env: Surroundings) returns (ghost es: seq<Event>)
      modifies queue
      ensures Leads(old(queue.St()), es, queue.St()) && HandsOver(es, [k], routing, blob, env)
    {
      ghost var s := queue.St();
      var h;
      ghost var o, id;
      h, o, id := QueueThenWake(queue, k, routing, blob, env.limitFor(k), env.now, env.poisoned, 0);
      es := [];
      if !env.poisoned {
        ghost var e := Enqueued(k, routing, blob, env.limitFor(k), env.now, id, o);
        LeadsOne(s, e, queue.St());
        es := [e];
      }
    }

    /** Running a plan drops what the expired subscriptions had queued, then
        offers the blob once to each recipient handed off, and does nothing
        else to the queue. Under a hash that was a registered distro's when the
        plan was judged, the recipients are devices registered to it then. */
    method RunPlan(i: nat, blob: Bytes, confirmed: Bytes -> bool, env: Surroundings)
      returns (ghost dropped: seq<Event>, ghost offered: seq<Event>)
      requires Valid() && i < |plans|
      modifies queue
      ensures Leads(old(queue.St()), dropped + offered, queue.St()) &&
              RunsAs(plans[i], blob, confirmed, env, dropped, offered)
      ensures OnlyFor(dropped + offered, Recipients(plans[i], env))
      ensures OnlyBrings(old(queue.St()), queue.St(), Recipients(plans[i], env))
      ensures Registered(judgedAgainst[i], plans[i].routing) ==>
                forall k :: k in Recipients(plans[i], env) ==>
                  k.1 == plans[i].routing && ForDevice(k, judgedAgainst[i], env.identityOf)
      ensures old(queue.Valid()) ==> queue.Valid()
    {
      var plan := plans[i];
      ghost var s := queue.St();
      dropped, offered := ActOn(plan, blob, confirmed, env);
      if Registered(judgedAgainst[i], plan.routing) {
        RecipientsAreDevices(plan, judgedAgainst[i], env);
      }
      RunsOnlyFor(plan, blob, confirmed, env, dropped, offered);
      TraceDone(s, dropped + offered, queue.St(), Recipients(plan, env));
    }

    method ActOn(plan: Plan, blob: Bytes, confirmed: Bytes -> bool, env: Surroundings)
      returns (ghost dropped: seq<Event>, ghost offered: seq<Event>)
      modifies queue
      ensures Leads(old(queue.St()), dropped + offered, queue.St()) &&
              RunsAs(plan, blob, confirmed, env, dropped, offered)
    {
      match plan
      case ChannelPlan(_, _, _) =>
        dropped, offered := ActOnChannel(plan, blob, confirmed, env);
      case DistroPlan(routing, devices) =>
        dropped := [];
        offered := ActOnDistro(routing, devices, blob, env);
        assert dropped + offered == offered;
      case NoPlan(_) =>
        dropped, offered := [], [];
    }

    method ActOnDistro(routing: Bytes, devices: seq<Device>, blob: Bytes, env: Surroundings)
      returns (ghost offered: seq<Event>)
      modifies queue
      ensures Leads(old(queue.St()), offered, queue.St())
      ensures HandsOver(offered, HandedKeys(devices, env), routing, blob, env)
    {
      var f;
      f, offered := FanOut(queue, routing, blob, devices, Push, env);
    }

    method ActOnChannel(plan: Plan, blob: Bytes, confirmed: Bytes -> bool, env: Surroundings)
      returns (ghost dropped: seq<Event>, ghost offered: seq<Event>)
      requires plan.ChannelPlan?
      modifies queue
      ensures Leads(old(queue.St()), dropped + offered, queue.St())
      ensures Drops(dropped, plan.expired, plan.routing)
      ensures HandsOver(offered, Unconfirmed(plan.subscribers, confirmed), plan.routing, blob, env)
    {
      ghost var s := queue.St();
      dropped := DropExpired(plan.routing, plan.expired);
      ghost var s1 := queue.St();
      offered := QueueForSubscribers(plan, blob, confirmed, env);
      LeadsOn(s, dropped, s1, offered, queue.St());
    }

    /** Later, when a recipient's live push went unanswered or unproved, its
        own hand-off: one offer more, to a recipient of the same plan. */
    method HandOffLater(i: nat, r: nat, blob: Bytes, env: Surroundings) returns (ghost es: seq<Event>)
      requires Valid() && i < |plans|
      modifies queue
      ensures Leads(old(queue.St()), es, queue.St()) &&
              HandsOver(es, LateKey(plans[i], r, env), plans[i].routing, blob, env)
      ensures OnlyFor(es, Recipients(plans[i], env))
      ensures Registered(judgedAgainst[i], plans[i].routing) ==>
                forall k :: k in Recipients(plans[i], env) ==>
                  k.1 == plans[i].routing && ForDevice(k, judgedAgainst[i], env.identityOf)
      ensures old(queue.Valid()) ==> queue.Valid()
    {
      var plan := plans[i];
      ghost var s := queue.St();
      es := [];
      if plan.ChannelPlan? && r < |plan.subscribers| {
        es := QueueFor(plan.routing, plan.subscribers[r], blob, env);
      } else if plan.DistroPlan? && r < |plan.devices| && env.identityOf(plan.devices[r]).Some? {
        var queued, woken;
        queued, woken, es := HandOffTo(queue, plan.routing, blob, plan.devices[r], Push, env);
      }
      if Registered(judgedAgainst[i], plan.routing) {
        RecipientsAreDevices(plan, judgedAgainst[i], env);
      }
      LateIsRecipient(plan, r, env);
      OffersOnlyFor(es, LateKey(plan, r, env), plan.routing, blob, env, Recipients(plan, env));
      TraceDone(s, es, queue.St(), Recipients(plan, env));
    }

    // -- Storing rows ---------------------------------------------------------

    method HoldsRow(subscriber: Bytes, channel: Bytes) returns (r: bool)
      ensures r <==> exists x :: x in rows && x.subscriber == subscriber && x.channel == channel
    {
      for i := 0 to |rows|
        invariant forall j :: 0 <= j < i ==> !(rows[j].subscriber == subscriber && rows[j].channel == channel)
      {
        if rows[i].subscriber == subscriber && rows[i].channel == channel {
          assert rows[i] in rows;
          return true;
        }
      }
      return false;
    }

    /** A signed subscription. Accepted only for a 16-byte hash, where policy
        allows it, under no distro and by none; a row is added unless the
        subscriber already holds one, backed up or not. */
    method Subscribe(channel: Bytes, subscriber: Bytes, poisoned: bool) returns (r: Subscribed)
      requires Valid()
      modifies this`rows, this`pendingBackup
      ensures Valid() && NoDistroRows(old(rows), rows, distros.entries, deliveryHashOf)
      ensures r == Accepted <==>
                |channel| == 16 && allowSubscription(subscriber) && !poisoned &&
                !Registered(distros.entries, channel) && !Registered(distros.entries, deliveryHashOf(subscriber))
      ensures r == DistroHash <==>
                |channel| == 16 && allowSubscription(subscriber) && !poisoned && Registered(distros.entries, channel)
      ensures r == BadChannelHash <==> |channel| != 16
      ensures r == PolicyRefuses <==> |channel| == 16 && !allowSubscription(subscriber)
      ensures r == DistroTableUnavailable <==> |channel| == 16 && allowSubscription(subscriber) && poisoned
      ensures r != Accepted ==> rows == old(rows) && pendingBackup == old(pendingBackup)
      ensures r == Accepted ==>
                rows == WithOwnRow(old(rows), subscriber, channel) &&
                pendingBackup == WithPending(old(pendingBackup), subscriber, channel)
      ensures r == Accepted ==> exists x :: x in rows && x.subscriber == subscriber && x.channel == channel
      ensures r == Accepted ==>
                if exists x :: x in old(rows) && x.subscriber == subscriber && x.channel == channel
                then rows == old(rows) else rows == old(rows) + [SubRow(subscriber, channel, None)]
      ensures r == Accepted ==>
                pendingBackup ==
                  old(pendingBackup) + if |old(pendingBackup)| < 1024 then [(subscriber, channel)] else []
    {
      if |channel| != 16 { return BadChannelHash; }
      if !allowSubscription(subscriber) { return PolicyRefuses; }
      if poisoned { return DistroTableUnavailable; }
      var isDistro := distros.IsDistro(channel);
      var byDistro := distros.IsDistro(deliveryHashOf(subscriber));
      if isDistro { return DistroHash; }
      if byDistro { return DistroSubscriber; }
      var held := HoldsRow(subscriber, channel);
      if !held { rows := rows + [SubRow(subscriber, channel, None)]; }
      if |pendingBackup| < PENDING_BACKUP_CAP { pendingBackup := pendingBackup + [(subscriber, channel)]; }
      return Accepted;
    }

    method SubscribeBackup(subscriber: Bytes, channel: Bytes, owner: Bytes)
      modifies this`rows
      ensures rows == WithBackupRow(old(rows), SubRow(subscriber, channel, Some(owner)))
    {
      var row := SubRow(subscriber, channel, Some(owner));
      if row !in rows { rows := rows + [row]; }
    }

    /** A backup push: the storable pairs get rows under their owner, the rest
        of the batch is passed over, nothing already stored changes. */
    method BackupPush(pairs: seq<(Bytes, Bytes)>, owner: Bytes, poisoned: bool) returns (accepted: bool)
      requires Valid()
      modifies this`rows
      ensures Valid() && old(rows) <= rows && NoDistroRows(old(rows), rows, distros.entries, deliveryHashOf)
      ensures accepted <==> (trustedPeers == {} || owner in trustedPeers) && !poisoned
      ensures !accepted ==> rows == old(rows)
      ensures accepted ==> rows == BackedUp(old(rows), pairs, owner, distros.entries, deliveryHashOf)
      ensures accepted ==>
                forall p :: p in pairs && !Registered(distros.entries, p.1) &&
                            !Registered(distros.entries, deliveryHashOf(p.0)) ==>
                  SubRow(p.0, p.1, Some(owner)) in rows
      ensures forall r :: r in rows && r !in old(rows) ==> r.owner == Some(owner) && (r.subscriber, r.channel) in pairs
    {
      if trustedPeers != {} && owner !in trustedPeers { return false; }
      if poisoned { return false; }
      var hashes := distros.RegisteredDistroHashes();
      for i := 0 to |pairs|
        invariant rows == BackedUp(old(rows), pairs[..i], owner, distros.entries, deliveryHashOf)
      {
        var (subscriber, channel) := pairs[i];
        assert pairs[..i + 1][..i] == pairs[..i];
        if channel !in hashes && deliveryHashOf(subscriber) !in hashes {
          SubscribeBackup(subscriber, channel, owner);
        }
      }
      assert pairs[..|pairs|] == pairs;
      BackedUpExact(old(rows), pairs, owner, distros.entries, deliveryHashOf);
      return true;
    }

    // -- The backup tick ------------------------------------------------------

    /** Every due row is visited once, and no other; a visit offers every blob
        stored under the row's channel, unless the subscriber has anything
        waiting. Adopted are the rows visited with blobs to deliver or to wait
        for. */
    method BackupTick(poisoned: bool, view: TickView) returns (adopted: seq<SubRow>, ghost vs: seq<Visit>)
      requires Valid()
      modifies queue
      ensures if poisoned then vs == [] else EachVisited(vs, rows, distros.entries, view)
      ensures !poisoned ==>
                forall r: SubRow | r in rows && r.owner.Some? ::
                  !view.heard(r.owner.value) && !Registered(distros.entries, r.channel) ==>
                    exists v :: v in vs && v.row == r
      ensures forall v :: v in vs ==> Due(v.row, rows, distros.entries, view) && Delivers(v, view)
      ensures Visited(old(queue.St()), vs, queue.St()) && adopted == AdoptedOf(vs, view)
      ensures Leads(old(queue.St()), AllEvents(vs), queue.St())
      ensures OnlyFor(AllEvents(vs), DueKeys(rows, distros.entries, view))
      ensures OnlyBrings(old(queue.St()), queue.St(), DueKeys(rows, distros.entries, view))
      ensures old(queue.Valid()) ==> queue.Valid()
    {
      ghost var s := queue.St();
      adopted, vs := [], [];
      if !poisoned {
        var hashes := distros.RegisteredDistroHashes();
        adopted, vs := TickOwners(hashes, view);
      }
      VisitedLeads(s, vs, queue.St());
      VisitsOnlyFor(vs, rows, distros.entries, view);
      TraceDone(s, AllEvents(vs), queue.St(), DueKeys(rows, distros.entries, view));
    }

    /** Owner by owner, in no particular order. */
    method TickOwners(hashes: set<Bytes>, view: TickView) returns (adopted: seq<SubRow>, ghost vs: seq<Visit>)
      requires forall h :: h in hashes <==> Registered(distros.entries, h)
      modifies queue
      ensures Ticked(old(queue.St()), vs, queue.St(), adopted, rows, distros.entries, view)
      ensures EachVisited(vs, rows, distros.entries, view)
      ensures forall r ::
                r in rows && r.owner.Some? && !view.heard(r.owner.value) && !Registered(distros.entries, r.channel) ==>
                  exists v :: v in vs && v.row == r
    {
      adopted, vs := [], [];
      var owners := set r | r in rows && r.owner.Some? && r.channel !in hashes :: r.owner.value;
      ghost var s := queue.St();
      ghost var all, done: set<Bytes> := owners, {};
      while owners != {}
        invariant Ticked(s, vs, queue.St(), adopted, rows, distros.entries, view)
        invariant owners + done == all && owners !! done
        invariant OwnersVisited(vs, rows, distros.entries, view, done)
        decreases owners
      {
        var owner :| owner in owners;
        owners := owners - {owner};
        ghost var before := vs;
        if !view.heard(owner) {
          adopted, vs := TickOwner(owner, hashes, view, adopted, s, vs);
        }
        OwnerDone(before, vs, rows, distros.entries, view, done, owner);
        done := done + {owner};
      }
      assert done == all;
      AllVisited(vs, rows, distros.entries, view, done);
    }

    /** The rows of one owner, in table order. */
    method TickOwner(owner: Bytes, hashes: set<Bytes>, view: TickView, adopted: seq<SubRow>, ghost s: State,
                     ghost vs: seq<Visit>)
      returns (adopted': seq<SubRow>, ghost vs': seq<Visit>)
      requires !view.heard(owner) && forall h :: h in hashes <==> Registered(distros.entries, h)
      requires Ticked(s, vs, queue.St(), adopted, rows, distros.entries, view)
      modifies queue
      ensures Ticked(s, vs', queue.St(), adopted', rows, distros.entries, view)
      ensures OwnerVisited(vs, vs', rows, distros.entries, view, owner)
    {
      adopted', vs' := adopted, vs;
      for i := 0 to |rows|
        invariant Ticked(s, vs', queue.St(), adopted', rows, distros.entries, view)
        invariant OwnerVisited(vs, vs', rows[..i], distros.entries, view, owner)
      {
        ghost var before := vs';
        if rows[i].owner == Some(owner) && rows[i].channel !in hashes {
          adopted', vs' := TickRow(rows[i], view, adopted', s, vs');
        }
        RowVisited(vs, before, vs', rows, i, distros.entries, view, owner);
      }
      assert rows[..|rows|] == rows;
    }

    method TickRow(row: SubRow, view: TickView, adopted: seq<SubRow>, ghost s: State, ghost vs: seq<Visit>)
      returns (adopted': seq<SubRow>, ghost vs': seq<Visit>)
      requires Due(row, rows, distros.entries, view) && Ticked(s, vs, queue.St(), adopted, rows, distros.entries, view)
      modifies queue
      ensures Ticked(s, vs', queue.St(), adopted', rows, distros.entries, view)
      ensures |vs'| == |vs| + 1 && vs'[..|vs|] == vs && vs'[|vs|].row == row
    {
      ghost var before := queue.St();
      var done;
      ghost var es;
      done, es := Deliver(row, view);
      ghost var v := Visit(row, before, es);
      TickedMore(s, vs, before, adopted, rows, distros.entries, view, v, queue.St());
      vs' := vs + [v];
      adopted' := adopted + if done then [row] else [];
    }

    /** One due row: nothing more is queued for a subscriber with anything
        waiting; else every blob is offered. */
    method Deliver(row: SubRow, view: TickView) returns (done: bool, ghost es: seq<Event>)
      modifies queue
      ensures Leads(old(queue.St()), es, queue.St()) && Delivers(Visit(row, old(queue.St()), es), view)
      ensures done <==> Waiting(Visit(row, old(queue.St()), es)) || view.blobsUnder(row.channel) != []
    {
      es := [];
      var pending := queue.HasPendingMatching(row.subscriber, Any());
      if pending { return true, []; }
      var blobs := view.blobsUnder(row.channel);
      if blobs == [] { return false, []; }
      var tally;
      tally, es := queue.EnqueueAll(row.subscriber, Under(row.channel, blobs), view.limitFor(row.subscriber), view.now);
      done := true;
    }
  }

  // -- The chain of custody ---------------------------------------------------

  /** The adopted pairs pushed on to this node's own backup: all but those it
      was itself the owner of. */
  function ChainPairs(adopted: seq<(Bytes, Bytes, Bytes)>, backup: Bytes): seq<(Bytes, Bytes)> {
    if adopted == [] then []
    else
      (if adopted[0].2 == backup then [] else [(adopted[0].0, adopted[0].1)]) + ChainPairs(adopted[1..], backup)
  }

  /** One pair a row adopted, in order. */
  lemma {:induction false} ChainPairsAreChosen(adopted: seq<(Bytes, Bytes, Bytes)>, backup: Bytes)
    ensures var onward := Chosen(adopted, (t: (Bytes, Bytes, Bytes)) => t.2 != backup);
            |ChainPairs(adopted, backup)| == |onward| &&
            forall i :: 0 <= i < |onward| ==> ChainPairs(adopted, backup)[i] == (onward[i].0, onward[i].1)
  {
    if adopted != [] {
      ChainPairsAreChosen(adopted[1..], backup);
      ChosenCons(adopted[0], adopted[1..], (t: (Bytes, Bytes, Bytes)) => t.2 != backup);
      assert adopted == [adopted[0]] + adopted[1..];
    }
  }

  lemma {:induction false} ChainPairsExact(adopted: seq<(Bytes, Bytes, Bytes)>, backup: Bytes)
    ensures forall p :: p in ChainPairs(adopted, backup) <==>
              exists t :: t in adopted && (t.0, t.1) == p && t.2 != backup
  {
    if adopted != [] {
      ChainPairsExact(adopted[1..], backup);
      assert adopted == [adopted[0]] + adopted[1..];
    }
  }
}
