/** Any interleaving of the node's paths: devices come and go, rows are stored,
    blobs are judged, and plans judged before are run or handed off later. */
module NodeRuns {
  import opened Filters
  import opened Octets
  import opened QueueState
  import opened Conservation
  import opened DeferredQueues
  import opened Distro
  import opened Nodes
  import opened QueueRuns
  import opened QueueTraces

  datatype NodeCall =
    | RegisterDevice(distro: Bytes, device: Bytes, key: Bytes)
    | UnregisterDevice(distro: Bytes, device: Bytes)
    | SubscribeTo(channel: Bytes, subscriber: Bytes, poisoned: bool)
    | PushBackups(pairs: seq<(Bytes, Bytes)>, owner: Bytes, poisoned: bool)
    | Publish(routing: Bytes, poisoned: bool, stale: SubRow -> bool)
    | SyncIngest(routing: Bytes, poisoned: bool, stale: SubRow -> bool)
    | Run(plan: nat, blob: Bytes, confirmed: Bytes -> bool, env: Surroundings)
    | HandOffLate(plan: nat, recipient: nat, blob: Bytes, env: Surroundings)
    | Tick(poisoned: bool, view: TickView)

  /** What the node never changes. */
  datatype Policy = Policy(deliveryHashOf: Bytes -> Bytes, allow: Bytes -> bool, trusted: set<Bytes>)

  /** Registered devices, subscription rows, the queue; the plans made, and the
      devices registered when each was. */
  datatype NodeState = NodeState(
    table: seq<Device>,
    rows: seq<SubRow>,
    pending: seq<(Bytes, Bytes)>,
    plans: seq<Plan>,
    judged: seq<seq<Device>>,
    queue: State)

  /** What one call did: the node before, the events it made, the node after. */
  datatype NodeStep = NodeStep(before: NodeState, es: seq<Event>, after: NodeState)

  // -- What each call does ----------------------------------------------------

  ghost function AfterTableCall(s: NodeState, c: NodeCall): NodeState
    requires c.RegisterDevice? || c.UnregisterDevice?
  {
    match c
    case RegisterDevice(distro, device, key) => s.(table := Enrolled(s.table, distro, device, key))
    case UnregisterDevice(distro, device) => s.(table := Unregistered(s.table, distro, device))
  }

  ghost function AfterRowCall(p: Policy, s: NodeState, c: NodeCall): NodeState
    requires c.SubscribeTo? || c.PushBackups?
  {
    match c
    case SubscribeTo(channel, subscriber, poisoned) =>
      if |channel| == 16 && p.allow(subscriber) && !poisoned && MayStore(subscriber, channel, s.table, p.deliveryHashOf)
      then s.(rows := WithOwnRow(s.rows, subscriber, channel), pending := WithPending(s.pending, subscriber, channel))
      else s
    case PushBackups(pairs, owner, poisoned) =>
      if (p.trusted == {} || owner in p.trusted) && !poisoned
      then s.(rows := BackedUp(s.rows, pairs, owner, s.table, p.deliveryHashOf))
      else s
  }

  ghost predicate ToChannel(s: NodeState, c: NodeCall)
    requires c.Publish? || c.SyncIngest?
  {
    !c.poisoned && !Registered(s.table, c.routing)
  }

  /** The plan a publish or a sync ingest makes. */
  ghost function PlanBy(s: NodeState, c: NodeCall): Plan
    requires c.Publish? || c.SyncIngest?
  {
    if ToChannel(s, c) then
      ChannelPlan(c.routing, SubscribersOf(Unexpired(s.rows, c.routing, c.stale), c.routing),
                  ExpiredOf(s.rows, c.routing, c.stale))
    else if c.Publish? then ChannelPlan(c.routing, [], [])
    else if c.poisoned then NoPlan(c.routing)
    else DistroPlan(c.routing, DevicesOf(s.table, c.routing))
  }

  ghost function AfterPlanCall(s: NodeState, c: NodeCall): NodeState
    requires c.Publish? || c.SyncIngest?
  {
    s.(rows := if ToChannel(s, c) then Unexpired(s.rows, c.routing, c.stale) else s.rows,
       plans := s.plans + [PlanBy(s, c)],
       judged := s.judged + [s.table])
  }

  /** A plan made at any earlier time; a number that names none does nothing. */
  ghost predicate RunsPlan(s: NodeState, c: NodeCall, es: seq<Event>)
    requires c.Run? || c.HandOffLate?
  {
    if c.plan >= |s.plans| then es == []
    else
      match c
      case Run(i, blob, confirmed, env) =>
        var n := |DroppedBy(s.plans[i])|;
        n <= |es| && RunsAs(s.plans[i], blob, confirmed, env, es[..n], es[n..])
      case HandOffLate(i, r, blob, env) =>
        HandsOver(es, LateKey(s.plans[i], r, env), s.plans[i].routing, blob, env)
  }

  function DroppedBy(plan: Plan): seq<Bytes> { if plan.ChannelPlan? then plan.expired else [] }

  ghost predicate Ticks(s: NodeState, c: NodeCall, vs: seq<Visit>, es: seq<Event>, q: State)
    requires c.Tick?
  {
    Visited(s.queue, vs, q) && es == AllEvents(vs) &&
    (if c.poisoned then vs == [] else EachVisited(vs, s.rows, s.table, c.view)) &&
    forall v :: v in vs ==> Due(v.row, s.rows, s.table, c.view) && Delivers(v, c.view)
  }

  /** Only a plan's run, a later hand-off and a tick touch the queue, and they
      touch nothing else. */
  ghost predicate Does(p: Policy, c: NodeCall, st: NodeStep) {
    if c.RegisterDevice? || c.UnregisterDevice? then st.es == [] && st.after == AfterTableCall(st.before, c)
    else if c.SubscribeTo? || c.PushBackups? then st.es == [] && st.after == AfterRowCall(p, st.before, c)
    else if c.Publish? || c.SyncIngest? then st.es == [] && st.after == AfterPlanCall(st.before, c)
    else
      st.after == st.before.(queue := st.after.queue) && Leads(st.before.queue, st.es, st.after.queue) &&
      if c.Tick? then exists vs :: Ticks(st.before, c, vs, st.es, st.after.queue) else RunsPlan(st.before, c, st.es)
  }

  // -- The node does it -------------------------------------------------------

  ghost function PolicyOf(node: Node): Policy { Policy(node.deliveryHashOf, node.allowSubscription, node.trustedPeers) }

  ghost function StateOf(node: Node): NodeState
    reads node, node.distros, node.queue
  {
    NodeState(node.distros.entries, node.rows, node.pendingBackup, node.plans, node.judgedAgainst, node.queue.St())
  }

  method TableCall(node: Node, c: NodeCall)
    requires (c.RegisterDevice? || c.UnregisterDevice?) && node.distros.Valid()
    modifies node.distros
    ensures node.distros.Valid() && StateOf(node) == AfterTableCall(old(StateOf(node)), c)
  {
    match c
    case RegisterDevice(distro, device, key) => node.distros.Register(distro, device, key);
    case UnregisterDevice(distro, device) => node.distros.Unregister(distro, device);
  }

  method RowCall(node: Node, c: NodeCall)
    requires node.Valid() && (c.SubscribeTo? || c.PushBackups?)
    modifies node
    ensures node.Valid() && StateOf(node) == AfterRowCall(PolicyOf(node), old(StateOf(node)), c)
  {
    match c
    case SubscribeTo(channel, subscriber, poisoned) => var r := node.Subscribe(channel, subscriber, poisoned);
    case PushBackups(pairs, owner, poisoned) => var accepted := node.BackupPush(pairs, owner, poisoned);
  }

  method PlanCall(node: Node, c: NodeCall)
    requires node.Valid() && (c.Publish? || c.SyncIngest?)
    modifies node
    ensures node.Valid() && StateOf(node) == AfterPlanCall(old(StateOf(node)), c)
  {
    var plan;
    match c
    case Publish(routing, poisoned, stale) => plan := node.PlanChannelFanout(routing, poisoned, stale);
    case SyncIngest(routing, poisoned, stale) => plan := node.PlanSyncDispatch(routing, poisoned, stale);
  }

  method PlanRun(node: Node, c: NodeCall) returns (ghost es: seq<Event>)
    requires node.Valid() && node.queue.Valid() && (c.Run? || c.HandOffLate?)
    modifies node.queue
    ensures node.queue.Valid() && Leads(old(node.queue.St()), es, node.queue.St())
    ensures RunsPlan(old(StateOf(node)), c, es)
  {
    ghost var s := StateOf(node);
    es := [];
    if c.plan < |node.plans| {
      match c
      case Run(i, blob, confirmed, env) =>
        ghost var dropped, offered;
        dropped, offered := node.RunPlan(i, blob, confirmed, env);
        RunsInOrder(s, c, dropped, offered);
        es := dropped + offered;
      case HandOffLate(i, r, blob, env) =>
        es := node.HandOffLater(i, r, blob, env);
    }
  }

  lemma RunsInOrder(s: NodeState, c: NodeCall, dropped: seq<Event>, offered: seq<Event>)
    requires c.Run? && c.plan < |s.plans| && RunsAs(s.plans[c.plan], c.blob, c.confirmed, c.env, dropped, offered)
    ensures RunsPlan(s, c, dropped + offered)
  {
    var es, n := dropped + offered, |DroppedBy(s.plans[c.plan])|;
    assert es[..n] == dropped && es[n..] == offered;
  }

  method TickCall(node: Node, c: NodeCall) returns (ghost es: seq<Event>, ghost vs: seq<Visit>)
    requires node.Valid() && node.queue.Valid() && c.Tick?
    modifies node.queue
    ensures node.queue.Valid() && Leads(old(node.queue.St()), es, node.queue.St())
    ensures Ticks(old(StateOf(node)), c, vs, es, node.queue.St())
  {
    var adopted;
    adopted, vs := node.BackupTick(c.poisoned, c.view);
    es := AllEvents(vs);
  }

  /** Any call, from any valid node, does to it and to its queue exactly what
      the call's own rule says. */
  method Perform(node: Node, c: NodeCall) returns (ghost st: NodeStep)
    requires node.Valid() && node.queue.Valid() && node.distros.Valid()
    modifies node, node.queue, node.distros
    ensures node.Valid() && node.queue.Valid() && node.distros.Valid()
    ensures st.before == old(StateOf(node)) && st.after == StateOf(node) && Does(PolicyOf(node), c, st)
  {
    ghost var s := StateOf(node);
    ghost var es: seq<Event> := [];
    if c.RegisterDevice? || c.UnregisterDevice? {
      TableCall(node, c);
    } else if c.SubscribeTo? || c.PushBackups? {
      RowCall(node, c);
    } else if c.Publish? || c.SyncIngest? {
      PlanCall(node, c);
    } else if c.Run? || c.HandOffLate? {
      es := PlanRun(node, c);
    } else {
      ghost var vs;
      es, vs := TickCall(node, c);
    }
    st := NodeStep(s, es, StateOf(node));
  }

  // -- Distro and channel stay apart ------------------------------------------

  /** Every plan was judged, and by the devices then registered keeps to them. */
  ghost predicate PlansApart(s: NodeState) {
    |s.plans| == |s.judged| && forall i :: 0 <= i < |s.plans| ==> Apart(s.plans[i], s.judged[i])
  }

  /** The devices registered when what the call enqueues was judged: for a
      plan's run those of its judging, for any other call now. */
  ghost function JudgedBy(s: NodeState, c: NodeCall): seq<Device>
    requires |s.plans| == |s.judged|
  {
    if (c.Run? || c.HandOffLate?) && c.plan < |s.plans| then s.judged[c.plan] else s.table
  }

  function IdentityIn(c: NodeCall): Device -> Option<Bytes> {
    if c.Run? || c.HandOffLate? then c.env.identityOf else (d: Device) => None
  }

  /** Whatever is offered under a hash that was a registered distro's when
      judged is for a device then registered to it; whatever row is new is
      under no distro registered now, and by none. */
  ghost predicate KeptApart(p: Policy, c: NodeCall, st: NodeStep)
    requires |st.before.plans| == |st.before.judged|
  {
    OffersApart(st.es, JudgedBy(st.before, c), IdentityIn(c)) &&
    NoDistroRows(st.before.rows, st.after.rows, st.before.table, p.deliveryHashOf)
  }

  ghost predicate OffersApart(es: seq<Event>, judged: seq<Device>, identityOf: Device -> Option<Bytes>) {
    forall e :: e in es && e.Enqueued? && Registered(judged, e.channel) ==>
      ForDevice((e.subscriber, e.channel), judged, identityOf)
  }

  lemma {:induction false} UnexpiredAmong(rows: seq<SubRow>, channel: Bytes, stale: SubRow -> bool)
    ensures forall r :: r in Unexpired(rows, channel, stale) ==> r in rows
  {
    if rows != [] {
      UnexpiredAmong(rows[..|rows| - 1], channel, stale);
    }
  }

  lemma OffersForDevices(plan: Plan, judged: seq<Device>, env: Surroundings, es: seq<Event>)
    requires Apart(plan, judged) && OnlyFor(es, Recipients(plan, env))
    ensures OffersApart(es, judged, env.identityOf)
  {
    forall e | e in es && e.Enqueued? && Registered(judged, e.channel)
      ensures ForDevice((e.subscriber, e.channel), judged, env.identityOf)
    {
      var k := (e.subscriber, e.channel);
      assert k in Recipients(plan, env) && k.1 == plan.routing;
      RecipientsAreDevices(plan, judged, env);
    }
  }

  lemma TicksApart(s: NodeState, c: NodeCall, vs: seq<Visit>, es: seq<Event>, q: State)
    requires c.Tick? && Ticks(s, c, vs, es, q)
    ensures OffersApart(es, s.table, IdentityIn(c))
  {
    VisitsOnlyFor(vs, s.rows, s.table, c.view);
    forall e | e in es && e.Enqueued?
      ensures !Registered(s.table, e.channel)
    {
      assert (e.subscriber, e.channel) in DueKeys(s.rows, s.table, c.view);
    }
  }

  lemma RunsApart(s: NodeState, c: NodeCall, es: seq<Event>)
    requires (c.Run? || c.HandOffLate?) && PlansApart(s) && RunsPlan(s, c, es)
    ensures OffersApart(es, JudgedBy(s, c), IdentityIn(c))
  {
    if c.plan < |s.plans| {
      var plan, judged := s.plans[c.plan], s.judged[c.plan];
      if c.Run? {
        var n := |DroppedBy(plan)|;
        RunsOnlyFor(plan, c.blob, c.confirmed, c.env, es[..n], es[n..]);
        assert es[..n] + es[n..] == es;
      } else {
        LateIsRecipient(plan, c.recipient, c.env);
        OffersOnlyFor(es, LateKey(plan, c.recipient, c.env), plan.routing, c.blob, c.env, Recipients(plan, c.env));
      }
      OffersForDevices(plan, judged, c.env, es);
    }
  }

  lemma PlanIsApart(s: NodeState, c: NodeCall)
    requires c.Publish? || c.SyncIngest?
    ensures Apart(PlanBy(s, c), s.table)
  {
    DevicesOfExact(s.table, c.routing);
  }

  lemma RowsApart(p: Policy, s: NodeState, c: NodeCall)
    requires c.SubscribeTo? || c.PushBackups?
    ensures NoDistroRows(s.rows, AfterRowCall(p, s, c).rows, s.table, p.deliveryHashOf)
  {
    if c.PushBackups? {
      BackedUpExact(s.rows, c.pairs, c.owner, s.table, p.deliveryHashOf);
    }
  }

  /** Any call keeps them apart, and makes only plans that do. */
  lemma DoesKeepsApart(p: Policy, c: NodeCall, st: NodeStep)
    requires PlansApart(st.before) && Does(p, c, st)
    ensures KeptApart(p, c, st) && PlansApart(st.after) && Leads(st.before.queue, st.es, st.after.queue)
  {
    if c.SubscribeTo? || c.PushBackups? {
      RowsApart(p, st.before, c);
    } else if c.Publish? || c.SyncIngest? {
      PlanIsApart(st.before, c);
      UnexpiredAmong(st.before.rows, c.routing, c.stale);
    } else if c.Run? || c.HandOffLate? {
      RunsApart(st.before, c, st.es);
    } else if c.Tick? {
      var vs :| Ticks(st.before, c, vs, st.es, st.after.queue);
      TicksApart(st.before, c, vs, st.es, st.after.queue);
    }
  }

  // -- Any life of the node ---------------------------------------------------

  ghost function EventsOf(sts: seq<NodeStep>): seq<Event> {
    if sts == [] then [] else EventsOf(sts[..|sts| - 1]) + sts[|sts| - 1].es
  }

  lemma EventsOneMore(sts: seq<NodeStep>, n: nat)
    requires n < |sts|
    ensures EventsOf(sts[..n + 1]) == EventsOf(sts[..n]) + sts[n].es
  {
    assert sts[..n + 1][..n] == sts[..n];
  }

  /** The node after `n` of the steps. */
  ghost function At(first: NodeState, sts: seq<NodeStep>, n: nat): NodeState
    requires n <= |sts|
  {
    if n == 0 then first else sts[n - 1].after
  }

  /** Step `n` does what call `n` does, from where the step before it ended. */
  ghost predicate StepOfLife(p: Policy, calls: seq<NodeCall>, first: NodeState, sts: seq<NodeStep>, n: nat)
    requires n < |sts| <= |calls|
  {
    sts[n].before == At(first, sts, n) && Does(p, calls[n], sts[n])
  }

  ghost predicate Lived(p: Policy, calls: seq<NodeCall>, first: NodeState, sts: seq<NodeStep>) {
    |sts| <= |calls| && forall n :: 0 <= n < |sts| ==> StepOfLife(p, calls, first, sts, n)
  }

  lemma LivesOn(p: Policy, calls: seq<NodeCall>, first: NodeState, sts: seq<NodeStep>, st: NodeStep)
    requires Lived(p, calls, first, sts) && |sts| < |calls|
    requires st.before == At(first, sts, |sts|) && Does(p, calls[|sts|], st)
    ensures Lived(p, calls, first, sts + [st]) && At(first, sts + [st], |sts| + 1) == st.after
  {
    var more := sts + [st];
    forall n | 0 <= n < |more|
      ensures StepOfLife(p, calls, first, more, n)
    {
      if n < |sts| {
        StillLived(p, calls, first, sts, st, n);
      } else {
        assert At(first, more, n) == At(first, sts, n);
      }
    }
  }

  lemma StillLived(p: Policy, calls: seq<NodeCall>, first: NodeState, sts: seq<NodeStep>, st: NodeStep, n: nat)
    requires n < |sts| < |calls| && StepOfLife(p, calls, first, sts, n)
    ensures StepOfLife(p, calls, first, sts + [st], n)
  {
    var more := sts + [st];
    assert more[n] == sts[n] && At(first, more, n) == At(first, sts, n);
  }

  ghost predicate StepApart(p: Policy, calls: seq<NodeCall>, sts: seq<NodeStep>, n: nat)
    requires n < |sts| <= |calls|
  {
    PlansApart(sts[n].before) && KeptApart(p, calls[n], sts[n])
  }

  ghost predicate ApartUpTo(p: Policy, calls: seq<NodeCall>, sts: seq<NodeStep>, n: nat)
    requires n <= |sts| <= |calls|
  {
    forall j :: 0 <= j < n ==> StepApart(p, calls, sts, j)
  }

  lemma StepKeepsApart(p: Policy, calls: seq<NodeCall>, first: NodeState, sts: seq<NodeStep>, n: nat)
    requires n < |sts| <= |calls| && StepOfLife(p, calls, first, sts, n) && PlansApart(At(first, sts, n))
    ensures StepApart(p, calls, sts, n) && PlansApart(At(first, sts, n + 1))
    ensures Leads(At(first, sts, n).queue, sts[n].es, At(first, sts, n + 1).queue)
  {
    DoesKeepsApart(p, calls[n], sts[n]);
  }

  lemma ApartOneMore(p: Policy, calls: seq<NodeCall>, sts: seq<NodeStep>, n: nat)
    requires n < |sts| <= |calls| && ApartUpTo(p, calls, sts, n) && StepApart(p, calls, sts, n)
    ensures ApartUpTo(p, calls, sts, n + 1)
  {}

  /** Over any life every call keeps distros and channels apart. */
  lemma {:induction false} LifeApart(p: Policy, calls: seq<NodeCall>, first: NodeState, sts: seq<NodeStep>, n: nat)
    requires Lived(p, calls, first, sts) && PlansApart(first) && n <= |sts|
    ensures ApartUpTo(p, calls, sts, n) && PlansApart(At(first, sts, n))
  {
    if n > 0 {
      LifeApart(p, calls, first, sts, n - 1);
      StepKeepsApart(p, calls, first, sts, n - 1);
      ApartOneMore(p, calls, sts, n - 1);
    }
  }

  /** And what its queue went through is the steps' events. */
  lemma {:induction false} LifeLeads(p: Policy, calls: seq<NodeCall>, first: NodeState, sts: seq<NodeStep>, n: nat)
    requires Lived(p, calls, first, sts) && PlansApart(first) && n <= |sts|
    ensures Leads(first.queue, EventsOf(sts[..n]), At(first, sts, n).queue)
  {
    if n > 0 {
      LifeLeads(p, calls, first, sts, n - 1);
      LifeApart(p, calls, first, sts, n - 1);
      StepKeepsApart(p, calls, first, sts, n - 1);
      EventsOneMore(sts, n - 1);
      LeadsOn(first.queue, EventsOf(sts[..n - 1]), At(first, sts, n - 1).queue, sts[n - 1].es, At(first, sts, n).queue);
    }
  }

  /** Plan `i` of `s` was made at step `m`, by the devices registered then. */
  ghost predicate MadeAt(calls: seq<NodeCall>, sts: seq<NodeStep>, m: nat, s: NodeState, i: nat)
    requires m < |sts| <= |calls| && i < |s.plans| == |s.judged|
  {
    (calls[m].Publish? || calls[m].SyncIngest?) && |sts[m].before.plans| == i &&
    s.plans[i] == PlanBy(sts[m].before, calls[m]) && s.judged[i] == sts[m].before.table
  }

  ghost predicate Made(calls: seq<NodeCall>, sts: seq<NodeStep>, n: nat, s: NodeState, i: nat)
    requires n <= |sts| <= |calls| && i < |s.plans| == |s.judged|
  {
    exists m :: 0 <= m < n && MadeAt(calls, sts, m, s, i)
  }

  lemma StillMade(calls: seq<NodeCall>, sts: seq<NodeStep>, n: nat, s: NodeState, s': NodeState, i: nat)
    requires n < |sts| <= |calls| && i < |s.plans| == |s.judged| && i < |s'.plans| == |s'.judged|
    requires s'.plans[i] == s.plans[i] && s'.judged[i] == s.judged[i] && Made(calls, sts, n, s, i)
    ensures Made(calls, sts, n + 1, s', i)
  {
    var m :| 0 <= m < n && MadeAt(calls, sts, m, s, i);
    assert MadeAt(calls, sts, m, s', i);
  }

  ghost predicate AllMade(calls: seq<NodeCall>, sts: seq<NodeStep>, n: nat, s: NodeState)
    requires n <= |sts| <= |calls|
  {
    |s.plans| == |s.judged| && forall i :: 0 <= i < |s.plans| ==> Made(calls, sts, n, s, i)
  }

  /** Whatever plan a step may run was made at an earlier step. */
  ghost predicate MadeBefore(calls: seq<NodeCall>, sts: seq<NodeStep>)
    requires |sts| <= |calls|
  {
    forall n :: 0 <= n < |sts| ==> AllMade(calls, sts, n, sts[n].before)
  }

  /** The devices a plan is run by are those of the step that made it. */
  lemma {:induction false} JudgedWhenMade(p: Policy, calls: seq<NodeCall>, first: NodeState, sts: seq<NodeStep>, n: nat)
    requires Lived(p, calls, first, sts) && first.plans == [] && first.judged == [] && n <= |sts|
    ensures AllMade(calls, sts, n, At(first, sts, n))
  {
    if n > 0 {
      JudgedWhenMade(p, calls, first, sts, n - 1);
      assert StepOfLife(p, calls, first, sts, n - 1);
      var s, c, s' := sts[n - 1].before, calls[n - 1], sts[n - 1].after;
      forall i | 0 <= i < |s'.plans|
        ensures Made(calls, sts, n, s', i)
      {
        if i < |s.plans| {
          StillMade(calls, sts, n - 1, s, s', i);
        } else {
          assert MadeAt(calls, sts, n - 1, s', i);
        }
      }
    }
  }

  /** So a run of a plan, however late, offers under a distro's hash only to
      devices registered to it at the step that made the plan. */
  lemma OffersFollowJudging(p: Policy, calls: seq<NodeCall>, first: NodeState, sts: seq<NodeStep>, n: nat)
    requires Lived(p, calls, first, sts) && first.plans == [] && first.judged == [] && n < |sts|
    requires (calls[n].Run? || calls[n].HandOffLate?) && calls[n].plan < |sts[n].before.plans|
    ensures |sts[n].before.plans| == |sts[n].before.judged|
    ensures exists m :: 0 <= m < n && MadeAt(calls, sts, m, sts[n].before, calls[n].plan) &&
                        OffersApart(sts[n].es, sts[m].before.table, IdentityIn(calls[n]))
  {
    assert StepOfLife(p, calls, first, sts, n);
    JudgedWhenMade(p, calls, first, sts, n);
    LifeApart(p, calls, first, sts, |sts|);
    assert StepApart(p, calls, sts, n);
    assert Made(calls, sts, n, sts[n].before, calls[n].plan);
  }

  // -- What is owed is offered ------------------------------------------------

  /** The blob was offered to the subscriber under the hash. */
  ghost predicate Offered(es: seq<Event>, subscriber: Bytes, channel: Bytes, blob: Bytes) {
    exists e :: e in es && e.Enqueued? && e.subscriber == subscriber && e.channel == channel && e.blob == blob
  }

  lemma EachOffered(es: seq<Event>, ks: seq<Bytes>, channel: Bytes, blob: Bytes, env: Surroundings, k: Bytes)
    requires HandsOver(es, ks, channel, blob, env) && !env.poisoned && k in ks
    ensures Offered(es, k, channel, blob)
  {
    var i :| 0 <= i < |ks| && ks[i] == k;
    assert es[i] in es;
  }

  lemma OfferedAmong(es: seq<Event>, n: nat, k: Bytes, channel: Bytes, blob: Bytes)
    requires n <= |es| && Offered(es[n..], k, channel, blob)
    ensures Offered(es, k, channel, blob)
  {
    var e :| e in es[n..] && e.Enqueued? && e.subscriber == k && e.channel == channel && e.blob == blob;
    assert e in es;
  }

  lemma RunOffers(s: NodeState, c: NodeCall, es: seq<Event>, k: Bytes)
    requires c.Run? && c.plan < |s.plans| && RunsPlan(s, c, es) && !c.env.poisoned
    requires k in HandedTo(s.plans[c.plan], c.confirmed, c.env)
    ensures Offered(es, k, s.plans[c.plan].routing, c.blob)
  {
    var plan := s.plans[c.plan];
    var n := |DroppedBy(plan)|;
    EachOffered(es[n..], HandedTo(plan, c.confirmed, c.env), plan.routing, c.blob, c.env, k);
    OfferedAmong(es, n, k, plan.routing, c.blob);
  }

  /** Step `n` runs, its queue's lock sound, the plan made at step `m`, for
      which the hash was not registered, or was. */
  ghost predicate RunsMade(p: Policy, calls: seq<NodeCall>, first: NodeState, sts: seq<NodeStep>, m: nat, n: nat) {
    Lived(p, calls, first, sts) && m < |sts| && n < |sts| && StepOfLife(p, calls, first, sts, n) &&
    calls[n].Run? && !calls[n].env.poisoned &&
    calls[n].plan < |sts[n].before.plans| == |sts[n].before.judged| &&
    MadeAt(calls, sts, m, sts[n].before, calls[n].plan) && !calls[m].poisoned
  }

  /** Whoever had a row under a channel when a blob for it was judged, one not
      expired then, is offered the blob when the plan runs, however late,
      unless its delivery is confirmed. */
  lemma ChannelReached(p: Policy, calls: seq<NodeCall>, first: NodeState, sts: seq<NodeStep>, m: nat, n: nat, r: SubRow)
    requires RunsMade(p, calls, first, sts, m, n) && !Registered(sts[m].before.table, calls[m].routing)
    requires r in sts[m].before.rows && r.channel == calls[m].routing && (r.owner.Some? || !calls[m].stale(r))
    requires !calls[n].confirmed(r.subscriber)
    ensures Offered(sts[n].es, r.subscriber, r.channel, calls[n].blob)
  {
    var plan := PlanBy(sts[m].before, calls[m]);
    PlannedFor(sts[m].before.rows, r.channel, calls[m].stale, r);
    UnconfirmedIsChosen(plan.subscribers, calls[n].confirmed);
    ChosenMembers(plan.subscribers, (k: Bytes) => !calls[n].confirmed(k));
    RunOffers(sts[n].before, calls[n], sts[n].es, r.subscriber);
  }

  /** And every device then registered for a distro is offered what sync
      ingested for it, unless a live session takes the blob or its key is
      corrupt. */
  lemma DistroReached(p: Policy, calls: seq<NodeCall>, first: NodeState, sts: seq<NodeStep>, m: nat, n: nat, d: Device)
    requires RunsMade(p, calls, first, sts, m, n) && calls[m].SyncIngest?
    requires d in sts[m].before.table && d.distro == calls[m].routing
    requires !calls[n].env.takesLive(d) && calls[n].env.identityOf(d).Some?
    ensures Offered(sts[n].es, calls[n].env.identityOf(d).value, d.distro, calls[n].blob)
  {
    var plan := PlanBy(sts[m].before, calls[m]);
    assert Registered(sts[m].before.table, d.distro);
    DevicesOfExact(sts[m].before.table, d.distro);
    HandedFound(plan.devices, calls[n].env, d);
    RunOffers(sts[n].before, calls[n], sts[n].es, calls[n].env.identityOf(d).value);
  }

  /** Any recipient of a plan may be handed the blob later, for itself. */
  lemma LateReached(s: NodeState, c: NodeCall, es: seq<Event>)
    requires c.HandOffLate? && c.plan < |s.plans| && RunsPlan(s, c, es) && !c.env.poisoned
    ensures |es| <= 1
    ensures var plan := s.plans[c.plan];
            (plan.ChannelPlan? && c.recipient < |plan.subscribers| ==>
               Offered(es, plan.subscribers[c.recipient], plan.routing, c.blob)) &&
            (plan.DistroPlan? && c.recipient < |plan.devices| && c.env.identityOf(plan.devices[c.recipient]).Some? ==>
               Offered(es, c.env.identityOf(plan.devices[c.recipient]).value, plan.routing, c.blob))
  {
    var plan := s.plans[c.plan];
    var ks := LateKey(plan, c.recipient, c.env);
    if ks != [] {
      EachOffered(es, ks, plan.routing, c.blob, c.env, ks[0]);
    }
  }

  /** All that holds of a life from a node with no plans yet. */
  lemma LifeHolds(p: Policy, calls: seq<NodeCall>, first: NodeState, sts: seq<NodeStep>)
    requires Lived(p, calls, first, sts) && first.plans == [] && first.judged == []
    ensures ApartUpTo(p, calls, sts, |sts|) && MadeBefore(calls, sts)
    ensures Leads(first.queue, EventsOf(sts), At(first, sts, |sts|).queue)
  {
    LifeApart(p, calls, first, sts, |sts|);
    LifeLeads(p, calls, first, sts, |sts|);
    assert sts[..|sts|] == sts;
    forall n | 0 <= n < |sts|
      ensures AllMade(calls, sts, n, sts[n].before)
    {
      JudgedWhenMade(p, calls, first, sts, n);
      assert StepOfLife(p, calls, first, sts, n);
    }
  }

  /** Over any calls in any order, whatever rows, devices and blobs the node
      starts from: each call does what its rule says, from where the last one
      ended. So everything enqueued under a hash that was a registered distro's
      when judged is for a device then registered to it, and no row is added
      under, or by, a distro then registered. A plan's judging is the publish
      or sync ingest that made it. What the queue went through is a run. */
  method Live(table: map<nat, Row>, devices: seq<Device>, rows: seq<SubRow>, p: Policy, calls: seq<NodeCall>)
    returns (node: Node, ghost s: State, ghost sts: seq<NodeStep>)
    requires 0 !in table && OnePerPair(devices)
    ensures node.Valid() && node.queue.Valid() && node.distros.Valid() && Loaded(table, s)
    ensures var first := NodeState(devices, rows, [], [], [], s);
            |sts| == |calls| && Lived(p, calls, first, sts) && StateOf(node) == At(first, sts, |sts|) &&
            ApartUpTo(p, calls, sts, |sts|) && MadeBefore(calls, sts) && Leads(s, EventsOf(sts), node.queue.St())
  {
    var q := new DeferredQueue.Load(table);
    LoadedInv(table, q.St());
    var distros := new DistroTable.Load(devices);
    node := new Node(distros, q, rows, p.deliveryHashOf, p.allow, p.trusted);
    s := q.St();
    sts := [];
    ghost var first := StateOf(node);
    for n := 0 to |calls|
      invariant fresh(node) && fresh(node.queue) && fresh(node.distros) && PolicyOf(node) == p
      invariant node.Valid() && node.queue.Valid() && node.distros.Valid()
      invariant |sts| == n && Lived(p, calls, first, sts) && StateOf(node) == At(first, sts, n)
    {
      ghost var st := Perform(node, calls[n]);
      LivesOn(p, calls, first, sts, st);
      sts := sts + [st];
    }
    LifeHolds(p, calls, first, sts);
  }
}
