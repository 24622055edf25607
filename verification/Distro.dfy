/** The node's table of distro devices, kept in step with its database rows,
    and the fan-out of one blob to a distro's devices. */
module Distro {
  import opened Filters
  import opened Octets
  import opened QueueState
  import opened Conservation
  import opened DeferredQueues
  import opened HandOff
  import opened QueueInvariant
  import opened Tallies
  import opened QueueRuns
  import opened QueueTraces

  /** `key` is the device's public key as registered. */
  datatype Device = Device(distro: Bytes, device: Bytes, key: Bytes)

  ghost predicate Registered(entries: seq<Device>, distro: Bytes) {
    exists e :: e in entries && e.distro == distro
  }

  function DevicesOf(entries: seq<Device>, distro: Bytes): seq<Device> {
    if entries == [] then []
    else
      var init, last := entries[..|entries| - 1], entries[|entries| - 1];
      DevicesOf(init, distro) + if last.distro == distro then [last] else []
  }

  lemma {:induction false} DevicesOfExact(entries: seq<Device>, distro: Bytes)
    ensures forall e :: e in DevicesOf(entries, distro) <==> e in entries && e.distro == distro
    ensures DevicesOf(entries, distro) != [] <==> Registered(entries, distro)
  {
    if entries != [] {
      var init, last := entries[..|entries| - 1], entries[|entries| - 1];
      assert entries == init + [last];
      DevicesOfExact(init, distro);
      assert last.distro == distro ==> Registered(entries, distro);
      if Registered(entries, distro) && last.distro != distro {
        var e :| e in entries && e.distro == distro;
        assert e in init;
      }
    }
  }

  function Unregistered(entries: seq<Device>, distro: Bytes, device: Bytes): seq<Device> {
    if entries == [] then []
    else
      var init, last := entries[..|entries| - 1], entries[|entries| - 1];
      Unregistered(init, distro, device) + if last.distro == distro && last.device == device then [] else [last]
  }

  lemma {:induction false} UnregisteredExact(entries: seq<Device>, distro: Bytes, device: Bytes)
    ensures forall e :: e in Unregistered(entries, distro, device) <==>
              e in entries && !(e.distro == distro && e.device == device)
    ensures |Unregistered(entries, distro, device)| <= |entries|
    ensures |Unregistered(entries, distro, device)| == |entries| <==>
              forall e :: e in entries ==> !(e.distro == distro && e.device == device)
  {
    if entries != [] {
      var init, last := entries[..|entries| - 1], entries[|entries| - 1];
      assert entries == init + [last];
      UnregisteredExact(init, distro, device);
    }
  }

  lemma {:induction false} DevicesAreChosen(entries: seq<Device>, distro: Bytes)
    ensures DevicesOf(entries, distro) == Chosen(entries, (e: Device) => e.distro == distro)
  {
    if entries != [] {
      DevicesAreChosen(entries[..|entries| - 1], distro);
    }
  }

  lemma {:induction false} UnregisteredIsChosen(entries: seq<Device>, distro: Bytes, device: Bytes)
    ensures Unregistered(entries, distro, device) ==
            Chosen(entries, (e: Device) => e.distro != distro || e.device != device)
  {
    if entries != [] {
      UnregisteredIsChosen(entries[..|entries| - 1], distro, device);
    }
  }

  /** A device more, at the end, unless its pair is there already. */
  ghost function Enrolled(entries: seq<Device>, distro: Bytes, device: Bytes, key: Bytes): seq<Device> {
    entries +
      if exists e :: e in entries && e.distro == distro && e.device == device then [] else [Device(distro, device, key)]
  }

  // -- The table --------------------------------------------------------------

  /** The database holds the entries' rows, keyed by the pair. */
  ghost predicate RowsMatch(entries: seq<Device>, rows: map<(Bytes, Bytes), Bytes>) {
    (forall e :: e in entries ==> (e.distro, e.device) in rows && rows[(e.distro, e.device)] == e.key) &&
    (forall k :: k in rows ==> Device(k.0, k.1, rows[k]) in entries)
  }

  ghost predicate OnePerPair(entries: seq<Device>) {
    forall d, e :: d in entries && e in entries && d.distro == e.distro && d.device == e.device ==> d == e
  }

  class DistroTable {
    var entries: seq<Device>
    var rows: map<(Bytes, Bytes), Bytes>

    ghost predicate Valid()
      reads this
    {
      RowsMatch(entries, rows)
    }

    /** The rows found, in their order; no two have the same pair. */
    constructor Load(found: seq<Device>)
      requires OnePerPair(found)
      ensures Valid() && entries == found
    {
      entries := found;
      rows := map e | e in found :: (e.distro, e.device) := e.key;
    }

    method Holds(distro: Bytes, device: Bytes) returns (r: bool)
      ensures r <==> exists e :: e in entries && e.distro == distro && e.device == device
    {
      for i := 0 to |entries|
        invariant forall j :: 0 <= j < i ==> !(entries[j].distro == distro && entries[j].device == device)
      {
        if entries[i].distro == distro && entries[i].device == device {
          assert entries[i] in entries;
          return true;
        }
      }
      return false;
    }

    /** Registering is idempotent: a pair already there keeps its key. */
    method Register(distro: Bytes, device: Bytes, key: Bytes)
      requires Valid()
      modifies this
      ensures Valid() && Registered(entries, distro)
      ensures entries == Enrolled(old(entries), distro, device, key) && old(entries) <= entries
      ensures exists e :: e in entries && e.distro == distro && e.device == device
      ensures if exists e :: e in old(entries) && e.distro == distro && e.device == device
              then entries == old(entries) else entries == old(entries) + [Device(distro, device, key)]
    {
      var already := Holds(distro, device);
      if !already {
        entries := entries + [Device(distro, device, key)];
        rows := rows[(distro, device) := key];
        assert Device(distro, device, key) in entries;
      }
    }

    method Unregister(distro: Bytes, device: Bytes)
      requires Valid()
      modifies this
      ensures Valid() && entries == Unregistered(old(entries), distro, device)
      ensures forall e :: e in entries ==> !(e.distro == distro && e.device == device)
    {
      var kept: seq<Device> := [];
      for i := 0 to |entries|
        invariant kept == Unregistered(entries[..i], distro, device)
        invariant entries == old(entries) && rows == old(rows)
      {
        assert entries[..i + 1][..i] == entries[..i];
        if !(entries[i].distro == distro && entries[i].device == device) { kept := kept + [entries[i]]; }
      }
      assert entries[..|entries|] == entries;
      UnregisteredExact(entries, distro, device);
      var before := |entries|;
      entries := kept;
      if |entries| != before {
        rows := rows - {(distro, device)};
      }
    }

    method IsDistro(distro: Bytes) returns (r: bool)
      ensures r <==> Registered(entries, distro)
    {
      for i := 0 to |entries|
        invariant forall j :: 0 <= j < i ==> entries[j].distro != distro
      {
        if entries[i].distro == distro {
          assert entries[i] in entries;
          return true;
        }
      }
      return false;
    }

    method DevicesSnapshot(distro: Bytes) returns (devices: seq<Device>)
      ensures devices == DevicesOf(entries, distro)
    {
      devices := [];
      for i := 0 to |entries|
        invariant devices == DevicesOf(entries[..i], distro)
      {
        assert entries[..i + 1][..i] == entries[..i];
        if entries[i].distro == distro { devices := devices + [entries[i]]; }
      }
      assert entries[..|entries|] == entries;
    }

    method RegisteredDistroHashes() returns (hashes: set<Bytes>)
      ensures forall h :: h in hashes <==> Registered(entries, h)
    {
      hashes := {};
      for i := 0 to |entries|
        invariant forall h :: h in hashes <==> Registered(entries[..i], h)
      {
        RegisteredMore(entries, i);
        hashes := hashes + {entries[i].distro};
      }
      assert entries[..|entries|] == entries;
    }
  }

  lemma RegisteredMore(entries: seq<Device>, i: nat)
    requires i < |entries|
    ensures forall h :: Registered(entries[..i + 1], h) <==> Registered(entries[..i], h) || h == entries[i].distro
  {
    assert entries[..i + 1] == entries[..i] + [entries[i]];
    forall h
      ensures Registered(entries[..i + 1], h) <==> Registered(entries[..i], h) || h == entries[i].distro
    {
      if Registered(entries[..i + 1], h) && h != entries[i].distro {
        var e :| e in entries[..i + 1] && e.distro == h;
        assert e in entries[..i];
      }
      if Registered(entries[..i], h) {
        var e :| e in entries[..i] && e.distro == h;
        assert e in entries[..i + 1];
      }
      assert entries[i] in entries[..i + 1];
    }
  }

  // -- The fan-out to a distro's devices --------------------------------------

  datatype DistroFanout = DistroFanout(devices: nat, pushedLive: nat, handedOff: nat, queued: nat, woken: nat,
                                       unkeyed: nat)

  /** What the fan-out finds out of the node: the identity hash of a device's
      key, none for a corrupt one; which devices a live session takes the blob
      for; the limits, and what each hand-off's wake comes to. */
  datatype Surroundings = Surroundings(
    identityOf: Device -> Option<Bytes>,
    takesLive: Device -> bool,
    limitFor: Bytes -> nat,
    now: real,
    poisoned: bool,
    wakesSent: Device -> nat)

  datatype Treatment = Live | HandedOff | Unkeyed

  function TreatmentOf(env: Surroundings, d: Device): Treatment {
    if env.takesLive(d) then Live else if env.identityOf(d).Some? then HandedOff else Unkeyed
  }

  function Treated(ds: seq<Device>, env: Surroundings, t: Treatment): nat {
    if ds == [] then 0
    else Treated(ds[..|ds| - 1], env, t) + if TreatmentOf(env, ds[|ds| - 1]) == t then 1 else 0
  }

  /** Under which subscriber and hash a device's blob may be queued. */
  ghost function Keys(ds: seq<Device>, env: Surroundings, distro: Bytes): set<(Bytes, Bytes)> {
    set d | d in ds && env.identityOf(d).Some? :: (env.identityOf(d).value, distro)
  }

  ghost predicate Counts(f: DistroFanout, ds: seq<Device>, env: Surroundings) {
    f.pushedLive == Treated(ds, env, Live) && f.handedOff == Treated(ds, env, HandedOff) &&
    f.unkeyed == Treated(ds, env, Unkeyed) && f.pushedLive + f.handedOff + f.unkeyed == |ds| &&
    f.queued <= f.handedOff
  }

  /** The devices handed off that a push, if tried, wakes. */
  function Reachable(ds: seq<Device>, env: Surroundings): nat {
    if ds == [] then 0
    else
      var d := ds[|ds| - 1];
      Reachable(ds[..|ds| - 1], env) + if TreatmentOf(env, d) == HandedOff && env.wakesSent(d) > 0 then 1 else 0
  }

  /** A wake counted is a wake that left; a fan-out that pushes by kind leaves
      no reachable device unwoken. */
  ghost predicate Wakes(f: DistroFanout, ds: seq<Device>, env: Surroundings, wake: Wake) {
    f.woken <= Reachable(ds, env) <= f.handedOff && (wake == Push ==> f.woken == Reachable(ds, env))
  }

  /** `f'` is `f` with device `d` counted in. */
  ghost predicate CountedIn(f: DistroFanout, d: Device, env: Surroundings, wake: Wake, f': DistroFanout) {
    match TreatmentOf(env, d)
    case Live => f' == f.(pushedLive := f.pushedLive + 1)
    case Unkeyed => f' == f.(unkeyed := f.unkeyed + 1)
    case HandedOff =>
      f' == f.(handedOff := f.handedOff + 1, queued := f'.queued, woken := f'.woken) &&
      f.queued <= f'.queued <= f.queued + 1 &&
      f.woken <= f'.woken <= f.woken + (if env.wakesSent(d) > 0 then 1 else 0) &&
      (wake == Push && env.wakesSent(d) > 0 ==> f'.woken == f.woken + 1)
  }

  lemma CountsMore(f: DistroFanout, ds: seq<Device>, i: nat, env: Surroundings, wake: Wake, f': DistroFanout)
    requires i < |ds| && Counts(f, ds[..i], env) && Wakes(f, ds[..i], env, wake) && CountedIn(f, ds[i], env, wake, f')
    ensures Counts(f', ds[..i + 1], env) && Wakes(f', ds[..i + 1], env, wake)
  {
    assert ds[..i + 1][..i] == ds[..i];
  }

  /** The subscribers the hand-offs queue for: the devices no live session
      takes the blob for, by their keys' identity hashes, in order. */
  function HandedKeys(ds: seq<Device>, env: Surroundings): seq<Bytes> {
    if ds == [] then []
    else
      var d := ds[|ds| - 1];
      HandedKeys(ds[..|ds| - 1], env) + if TreatmentOf(env, d) == HandedOff then [env.identityOf(d).value] else []
  }

  /** Handed off are the devices no live session takes the blob for and whose
      key is sound, each once and in order, by its key's identity hash. */
  lemma {:induction false} HandedExact(ds: seq<Device>, env: Surroundings)
    ensures var handed := Chosen(ds, (d: Device) => !env.takesLive(d) && env.identityOf(d).Some?);
            |HandedKeys(ds, env)| == |handed| == Treated(ds, env, HandedOff) &&
            forall i :: 0 <= i < |handed| ==> env.identityOf(handed[i]) == Some(HandedKeys(ds, env)[i])
    ensures Treated(ds, env, Live) == |Chosen(ds, env.takesLive)|
    ensures Treated(ds, env, Unkeyed) == |Chosen(ds, (d: Device) => !env.takesLive(d) && env.identityOf(d).None?)|
  {
    if ds != [] {
      HandedExact(ds[..|ds| - 1], env);
    }
  }

  /** So each of them has its key among those handed off. */
  lemma HandedFound(ds: seq<Device>, env: Surroundings, d: Device)
    requires d in ds && !env.takesLive(d) && env.identityOf(d).Some?
    ensures env.identityOf(d).value in HandedKeys(ds, env)
  {
    var p := (d: Device) => !env.takesLive(d) && env.identityOf(d).Some?;
    HandedExact(ds, env);
    ChosenMembers(ds, p);
    var i :| 0 <= i < |Chosen(ds, p)| && Chosen(ds, p)[i] == d;
  }

  lemma {:induction false} ReachableExact(ds: seq<Device>, env: Surroundings)
    ensures Reachable(ds, env) ==
            |Chosen(ds, (d: Device) => !env.takesLive(d) && env.identityOf(d).Some? && env.wakesSent(d) > 0)|
  {
    if ds != [] {
      ReachableExact(ds[..|ds| - 1], env);
    }
  }

  lemma {:induction false} HandedAreKeys(ds: seq<Device>, env: Surroundings, distro: Bytes)
    ensures forall k :: k in HandedKeys(ds, env) ==> (k, distro) in Keys(ds, env, distro)
  {
    if ds != [] {
      var init, d := ds[..|ds| - 1], ds[|ds| - 1];
      HandedAreKeys(init, env, distro);
      assert d in ds && forall x :: x in init ==> x in ds;
      assert Keys(init, env, distro) <= Keys(ds, env, distro);
    }
  }

  /** What the hand-offs come to in the queue: one offer each, in order, or
      nothing when its lock is poisoned. */
  predicate HandsOver(es: seq<Event>, ks: seq<Bytes>, distro: Bytes, blob: Bytes, env: Surroundings) {
    if env.poisoned then es == [] else OffersEach(es, ks, distro, blob, env.limitFor, env.now)
  }

  lemma HandsOverOnlyKeys(es: seq<Event>, ds: seq<Device>, distro: Bytes, blob: Bytes, env: Surroundings)
    requires HandsOver(es, HandedKeys(ds, env), distro, blob, env)
    ensures OnlyFor(es, Keys(ds, env, distro)) && forall e :: e in es ==> e.Enqueued?
  {
    HandedAreKeys(ds, env, distro);
    var ks := HandedKeys(ds, env);
    forall e | e in es
      ensures e.Enqueued? && (e.subscriber, e.channel) in Keys(ds, env, distro)
    {
      var i :| 0 <= i < |es| && es[i] == e;
      assert ks[i] in ks;
    }
  }

  /** The fan-out under way: devices `ds[..i]` dealt with by `es`. */
  ghost predicate FannedOut(s: State, es: seq<Event>, s1: State, f: DistroFanout, ds: seq<Device>, i: nat,
                            distro: Bytes, blob: Bytes, wake: Wake, env: Surroundings)
    requires i <= |ds|
  {
    Leads(s, es, s1) && HandsOver(es, HandedKeys(ds[..i], env), distro, blob, env) &&
    f.devices == |ds| && f.queued == StoredBy(es) && Counts(f, ds[..i], env) && Wakes(f, ds[..i], env, wake)
  }

  lemma FansOn(s: State, es: seq<Event>, s1: State, f: DistroFanout, ds: seq<Device>, i: nat, distro: Bytes,
               blob: Bytes, wake: Wake, env: Surroundings, fs: seq<Event>, s2: State, f': DistroFanout)
    requires i < |ds| && FannedOut(s, es, s1, f, ds, i, distro, blob, wake, env)
    requires Leads(s1, fs, s2) && CountedIn(f, ds[i], env, wake, f') && f'.queued == f.queued + StoredBy(fs)
    requires HandsOver(fs, HandedKeys([ds[i]], env), distro, blob, env)
    ensures FannedOut(s, es + fs, s2, f', ds, i + 1, distro, blob, wake, env)
  {
    CountsMore(f, ds, i, env, wake, f');
    LeadsOn(s, es, s1, fs, s2);
    HandsOn(es, fs, ds, i, distro, blob, env);
  }

  lemma HandsOn(es: seq<Event>, fs: seq<Event>, ds: seq<Device>, i: nat, distro: Bytes, blob: Bytes, env: Surroundings)
    requires i < |ds| && HandsOver(es, HandedKeys(ds[..i], env), distro, blob, env)
    requires HandsOver(fs, HandedKeys([ds[i]], env), distro, blob, env)
    ensures HandsOver(es + fs, HandedKeys(ds[..i + 1], env), distro, blob, env)
    ensures StoredBy(es + fs) == StoredBy(es) + StoredBy(fs)
  {
    assert ds[..i + 1][..i] == ds[..i] && [ds[i]][..0] == [];
    assert HandedKeys(ds[..i + 1], env) == HandedKeys(ds[..i], env) + HandedKeys([ds[i]], env);
    if fs == [] {
      assert es + fs == es;
    } else {
      assert |fs| == 1 && fs == [fs[0]] && fs[..0] == [];
      TalliedMore(es, fs[0]);
      assert Tallied(fs) == Count(Tallied([]), fs[0].outcome);
    }
  }

  lemma OneOffer(s: State, e: Event, s': State)
    requires Acts(s, e, s') && e.Enqueued?
    ensures Leads(s, [e], s') && StoredBy([e]) == if e.outcome == RefusedGlobalLimit then 0 else 1
  {
    LeadsOne(s, e, s');
    TalliedMore([], e);
    assert [] + [e] == [e];
  }

  /** One device's hand-off: at once for a device with no live session, later
      for one whose live push no proof answered. */
  method HandOffTo(q: DeferredQueue, distro: Bytes, blob: Bytes, d: Device, wake: Wake, env: Surroundings)
    returns (queued: bool, woken: bool, ghost es: seq<Event>)
    requires env.identityOf(d).Some?
    modifies q
    ensures Leads(old(q.St()), es, q.St()) && HandsOver(es, [env.identityOf(d).value], distro, blob, env)
    ensures StoredBy(es) == if queued then 1 else 0
    ensures (woken ==> env.wakesSent(d) > 0) && (wake == Push && env.wakesSent(d) > 0 ==> woken)
  {
    var device := env.identityOf(d).value;
    ghost var s := q.St();
    var h;
    ghost var o, id;
    h, o, id := DistroHandOff(q, device, distro, blob, env.limitFor(device), env.now, wake, env.poisoned,
                              env.wakesSent(d));
    queued, woken, es := h.queued, h.woken, [];
    if !env.poisoned {
      ghost var e := Enqueued(device, distro, blob, env.limitFor(device), env.now, id, o);
      OneOffer(s, e, q.St());
      es := [e];
    }
  }

  method FanOutOne(q: DeferredQueue, distro: Bytes, blob: Bytes, d: Device, wake: Wake, env: Surroundings,
                   f: DistroFanout)
    returns (f': DistroFanout, ghost es: seq<Event>)
    modifies q
    ensures Leads(old(q.St()), es, q.St()) && HandsOver(es, HandedKeys([d], env), distro, blob, env)
    ensures CountedIn(f, d, env, wake, f') && f'.queued == f.queued + StoredBy(es)
  {
    assert [d][..0] == [];
    es := [];
    if env.takesLive(d) {
      return f.(pushedLive := f.pushedLive + 1), [];
    }
    if env.identityOf(d).None? {
      return f.(unkeyed := f.unkeyed + 1), [];
    }
    var queued, woken;
    queued, woken, es := HandOffTo(q, distro, blob, d, wake, env);
    f' := f.(handedOff := f.handedOff + 1,
             queued := f.queued + if queued then 1 else 0,
             woken := f.woken + if woken then 1 else 0);
  }

  lemma FanOutDone(s: State, es: seq<Event>, s': State, ds: seq<Device>, distro: Bytes, blob: Bytes, env: Surroundings)
    requires Leads(s, es, s') && HandsOver(es, HandedKeys(ds, env), distro, blob, env)
    ensures s'.nextTicket == s.nextTicket + StoredBy(es) && OnlyBrings(s, s', Keys(ds, env, distro))
    ensures Inv(s) ==> Inv(s')
  {
    HandsOverOnlyKeys(es, ds, distro, blob, env);
    LeadsStores(s, es, s');
    LeadsBrings(s, es, s', Keys(ds, env, distro));
    if Inv(s) {
      LeadsKeepsInv(s, es, s');
    }
  }

  /** Each device is counted once, by what was done with it. Every device
      handed off gets one offer of the blob, in order, and the queue gets
      nothing else; queued is how many of the offers stored it. */
  method FanOut(q: DeferredQueue, distro: Bytes, blob: Bytes, ds: seq<Device>, wake: Wake, env: Surroundings)
    returns (f: DistroFanout, ghost es: seq<Event>)
    modifies q
    ensures Leads(old(q.St()), es, q.St()) && HandsOver(es, HandedKeys(ds, env), distro, blob, env)
    ensures f.devices == |ds| && f.queued == StoredBy(es) && Counts(f, ds, env) && Wakes(f, ds, env, wake)
    ensures q.nextTicket == old(q.nextTicket) + f.queued
    ensures OnlyBrings(old(q.St()), q.St(), Keys(ds, env, distro))
    ensures old(q.Valid()) ==> q.Valid()
  {
    f, es := DistroFanout(|ds|, 0, 0, 0, 0, 0), [];
    ghost var s := q.St();
    for i := 0 to |ds|
      invariant FannedOut(s, es, q.St(), f, ds, i, distro, blob, wake, env)
    {
      ghost var s1, before := q.St(), f;
      ghost var fs;
      f, fs := FanOutOne(q, distro, blob, ds[i], wake, env, f);
      FansOn(s, es, s1, before, ds, i, distro, blob, wake, env, fs, q.St(), f);
      es := es + fs;
    }
    assert ds[..|ds|] == ds;
    FanOutDone(s, es, q.St(), ds, distro, blob, env);
  }
}
