/** What a crash and a reload bring back, told by a ledger of the whole run: a
    serial number for each entry ever enqueued, and which of them are gone. */
module Restart {
  import opened Octets
  import opened Entries
  import opened QueueState
  import opened QueueInvariant
  import opened Conservation
  import opened QueueRuns

  /** `born` lists every entry enqueued, in order; `live` gives a stored row's
      place in it; `gone` holds the places of the entries drained, confirmed,
      proved, evicted or expired. */
  datatype Ledger = Ledger(born: seq<Row>, live: map<nat, nat>, gone: set<nat>)

  ghost function Retire(l: Ledger, ids: set<nat>): Ledger {
    Ledger(l.born, l.live - ids, l.gone + set id | id in ids && id in l.live :: l.live[id])
  }

  ghost function Note(l: Ledger, s: State, e: Event): Ledger {
    var left := Retire(l, ItemIds(Gone(s, e)));
    if e.Enqueued? && e.outcome != RefusedGlobalLimit
    then Born(left, e.id, Row(e.subscriber, e.channel, e.blob, e.now))
    else left
  }

  /** The ledger opened on a table: its rows, in id order, nothing gone. */
  ghost function Opening(rows: map<nat, Row>, ids: seq<nat>): Ledger
    requires forall i :: i in ids ==> i in rows
  {
    if ids == [] then Ledger([], map[], {})
    else
      var last := ids[|ids| - 1];
      var l := Opening(rows, ids[..|ids| - 1]);
      Born(l, last, rows[last])
  }

  ghost predicate NotedAt(ls: seq<Ledger>, ss: seq<State>, es: seq<Event>, i: nat)
    requires |ls| == |ss| == |es| + 1 && i < |es|
  {
    ls[i + 1] == Note(ls[i], ss[i], es[i])
  }

  /** The ledger of a run, state by state. */
  ghost predicate Kept(ls: seq<Ledger>, ss: seq<State>, es: seq<Event>) {
    |ls| == |ss| == |es| + 1 && ls[0] == Opening(ss[0].rows, Ascending(ss[0].rows.Keys)) &&
    forall i :: 0 <= i < |es| ==> NotedAt(ls, ss, es, i)
  }

  lemma NoteTo(ls: seq<Ledger>, ss: seq<State>, es: seq<Event>) returns (l: Ledger)
    requires 0 < |ls| <= |es| < |ss|
    ensures l == Note(ls[|ls| - 1], ss[|ls| - 1], es[|ls| - 1])
  {
    l := Note(ls[|ls| - 1], ss[|ls| - 1], es[|ls| - 1]);
  }

  /** Every run has one. */
  lemma LedgerKept(ss: seq<State>, es: seq<Event>) returns (ls: seq<Ledger>)
    requires |ss| == |es| + 1
    ensures Kept(ls, ss, es)
  {
    ls := [Opening(ss[0].rows, Ascending(ss[0].rows.Keys))];
    while |ls| < |ss|
      invariant 0 < |ls| <= |ss| && ls[0] == Opening(ss[0].rows, Ascending(ss[0].rows.Keys))
      invariant forall i :: 0 <= i < |ls| - 1 ==> ls[i + 1] == Note(ls[i], ss[i], es[i])
    {
      var l := NoteTo(ls, ss, es);
      ls := ls + [l];
    }
  }

  /** The subscriber's entries not gone, in the order they were enqueued. */
  ghost function Survivors(born: seq<Row>, gone: set<nat>, k: Bytes): seq<nat> {
    if born == [] then []
    else
      var n := |born| - 1;
      Survivors(born[..n], gone, k) + if n !in gone && born[n].subscriber == k then [n] else []
  }

  /** Each survivor once, in order. */
  lemma {:induction false} SurvivorsExact(born: seq<Row>, gone: set<nat>, k: Bytes)
    ensures forall n: nat :: n in Survivors(born, gone, k) <==> n < |born| && n !in gone && born[n].subscriber == k
    ensures forall i, j :: 0 <= i < j < |Survivors(born, gone, k)| ==>
              Survivors(born, gone, k)[i] < Survivors(born, gone, k)[j]
  {
    if born != [] {
      var n := |born| - 1;
      SurvivorsExact(born[..n], gone, k);
      var r0, r := Survivors(born[..n], gone, k), Survivors(born, gone, k);
      assert forall i :: 0 <= i < |r0| ==> r0[i] in r0 && r[i] == r0[i];
      assert forall i: nat :: i in r <==> i in r0 || (i == n && n !in gone && born[n].subscriber == k);
      assert forall i :: 0 <= i < n ==> born[..n][i] == born[i];
    }
  }

  // -- The ledger and the table agree -----------------------------------------

  /** Each stored row has its own serial, not gone, under which it was born. */
  ghost predicate Entered(l: Ledger, rows: map<nat, Row>) {
    l.live.Keys == rows.Keys &&
    forall id :: id in rows ==> l.live[id] < |l.born| && l.live[id] !in l.gone && l.born[l.live[id]] == rows[id]
  }

  /** Row ids rise in the order of birth. */
  ghost predicate Rising(live: map<nat, nat>) {
    forall i, j :: i in live && j in live && i < j ==> live[i] < live[j]
  }

  ghost predicate Placed(live: map<nat, nat>, n: nat) { exists id :: id in live && live[id] == n }

  /** Every serial is gone or some row's. */
  ghost predicate Complete(l: Ledger) {
    forall n: nat :: n < |l.born| && n !in l.gone ==> Placed(l.live, n)
  }

  ghost predicate Agrees(l: Ledger, rows: map<nat, Row>) {
    Entered(l, rows) && Rising(l.live) && Complete(l)
  }

  lemma OneToOne(live: map<nat, nat>, i: nat, j: nat)
    requires Rising(live) && i in live && j in live && live[i] == live[j]
    ensures i == j
  {}

  lemma RetireEntered(l: Ledger, rows: map<nat, Row>, ids: set<nat>)
    requires Entered(l, rows) && Rising(l.live)
    ensures Entered(Retire(l, ids), rows - ids)
  {
    var l' := Retire(l, ids);
    forall id | id in rows - ids
      ensures l'.live[id] !in l'.gone
    {
      forall j | j in ids && j in l.live
        ensures l.live[j] != l.live[id]
      {
        if l.live[j] == l.live[id] { OneToOne(l.live, j, id); }
      }
    }
  }

  lemma RetireComplete(l: Ledger, ids: set<nat>)
    requires Complete(l)
    ensures Complete(Retire(l, ids))
  {
    var l' := Retire(l, ids);
    forall n: nat | n < |l'.born| && n !in l'.gone
      ensures Placed(l'.live, n)
    {
      assert Placed(l.live, n);
      var id :| id in l.live && l.live[id] == n;
      assert id in l'.live;
    }
  }

  lemma RetireAgrees(l: Ledger, rows: map<nat, Row>, ids: set<nat>)
    requires Agrees(l, rows)
    ensures Agrees(Retire(l, ids), rows - ids)
  {
    RetireEntered(l, rows, ids);
    RetireComplete(l, ids);
  }

  ghost function Born(l: Ledger, id: nat, row: Row): Ledger {
    Ledger(l.born + [row], l.live[id := |l.born|], l.gone)
  }

  lemma BirthComplete(l: Ledger, id: nat, row: Row)
    requires Complete(l) && id !in l.live
    ensures Complete(Born(l, id, row))
  {
    var l' := Born(l, id, row);
    forall n: nat | n < |l'.born| && n !in l'.gone
      ensures Placed(l'.live, n)
    {
      if n < |l.born| {
        assert Placed(l.live, n);
        var i :| i in l.live && l.live[i] == n;
        assert i in l'.live && l'.live[i] == n;
      } else {
        assert id in l'.live && l'.live[id] == n;
      }
    }
  }

  lemma BirthAgrees(l: Ledger, rows: map<nat, Row>, id: nat, row: Row)
    requires Agrees(l, rows) && AboveEveryRow(rows, id) && |l.born| !in l.gone
    ensures Agrees(Born(l, id, row), rows[id := row])
  {
    BirthComplete(l, id, row);
    BirthEntered(l, rows, id, row);
    BirthRises(l, rows, id, row);
  }

  lemma BirthEntered(l: Ledger, rows: map<nat, Row>, id: nat, row: Row)
    requires Entered(l, rows) && |l.born| !in l.gone
    ensures Entered(Born(l, id, row), rows[id := row])
  {}

  lemma BirthRises(l: Ledger, rows: map<nat, Row>, id: nat, row: Row)
    requires Entered(l, rows) && Rising(l.live) && AboveEveryRow(rows, id)
    ensures Rising(Born(l, id, row).live)
  {}

  /** No serial is retired before it is given out. */
  ghost predicate Bounded(l: Ledger) { forall n :: n in l.gone ==> n < |l.born| }

  ghost function Among(rows: map<nat, Row>, ids: seq<nat>): map<nat, Row> {
    map i | i in ids && i in rows :: rows[i]
  }

  lemma AmongLast(rows: map<nat, Row>, ids: seq<nat>, last: nat)
    requires last in rows && forall i :: i in ids ==> i < last
    ensures Among(rows, ids + [last]) == Among(rows, ids)[last := rows[last]]
    ensures last > 0 ==> AboveEveryRow(Among(rows, ids), last)
  {}

  ghost predicate Increasing(ids: seq<nat>) { forall i, j :: 0 <= i < j < |ids| ==> ids[i] < ids[j] }

  lemma RisingLast(rows: map<nat, Row>, ids: seq<nat>, init: seq<nat>, last: nat)
    requires (forall i :: i in ids ==> i in rows) && 0 !in rows && Increasing(ids) && ids == init + [last]
    ensures Increasing(init) && (forall i :: i in init ==> i in rows && i < last) && last > 0
  {
    forall i, j | 0 <= i < j < |init|
      ensures init[i] < init[j]
    {
      assert ids[i] == init[i] && ids[j] == init[j];
    }
    assert ids[|init|] == last;
    forall i | i in init
      ensures i in rows && i < last
    {
      var n :| 0 <= n < |init| && init[n] == i;
      assert ids[n] == i;
    }
  }

  ghost predicate OpensWell(rows: map<nat, Row>, ids: seq<nat>)
    requires forall i :: i in ids ==> i in rows
  {
    var l := Opening(rows, ids);
    Agrees(l, Among(rows, ids)) && l.gone == {}
  }

  lemma OpensEmpty(rows: map<nat, Row>)
    ensures OpensWell(rows, [])
  {}

  lemma OpensOneMore(rows: map<nat, Row>, ids: seq<nat>, init: seq<nat>, last: nat)
    requires (forall i :: i in ids ==> i in rows) && ids == init + [last] && last > 0
    requires forall i :: i in init ==> i in rows && i < last
    requires OpensWell(rows, init)
    ensures OpensWell(rows, ids)
  {
    assert ids[..|ids| - 1] == init;
    AmongLast(rows, init, last);
    BirthAgrees(Opening(rows, init), Among(rows, init), last, rows[last]);
  }

  lemma {:induction false} OpeningAgrees(rows: map<nat, Row>, ids: seq<nat>)
    requires (forall i :: i in ids ==> i in rows) && 0 !in rows && Increasing(ids)
    ensures OpensWell(rows, ids)
  {
    if ids != [] {
      var init, last := ids[..|ids| - 1], ids[|ids| - 1];
      assert ids == init + [last];
      RisingLast(rows, ids, init, last);
      OpeningAgrees(rows, init);
      OpensOneMore(rows, ids, init, last);
    } else {
      OpensEmpty(rows);
    }
  }

  lemma NoteAgrees(l: Ledger, s: State, e: Event, s': State)
    requires Agrees(l, s.rows) && Bounded(l) && s'.rows == RowsAfter(s, e)
    requires e.Enqueued? && e.outcome != RefusedGlobalLimit ==> AboveEveryRow(s.rows - ItemIds(Gone(s, e)), e.id)
    ensures Agrees(Note(l, s, e), s'.rows) && Bounded(Note(l, s, e))
  {
    var ids := ItemIds(Gone(s, e));
    RetireAgrees(l, s.rows, ids);
    if e.Enqueued? && e.outcome != RefusedGlobalLimit {
      BirthAgrees(Retire(l, ids), s.rows - ids, e.id, Row(e.subscriber, e.channel, e.blob, e.now));
    }
  }

  lemma RestartNotes(s: State, e: Event, s': State)
    requires e.Restarted? && Step(s, e, s')
    ensures s'.rows == RowsAfter(s, e)
  {
    assert ItemIds(multiset{}) == {};
  }

  lemma EnqueueInsertsAbove(s: State, e: Event, s': State)
    requires Step(s, e, s') && e.Enqueued? && e.outcome != RefusedGlobalLimit
    ensures AboveEveryRow(s.rows - ItemIds(Gone(s, e)), e.id)
  {
    EvictLoses(s, Victim(e.subscriber, e.outcome));
  }

  /** Step `n` leaves the rows it should and inserts above all of them. */
  ghost predicate RowsStep(ss: seq<State>, es: seq<Event>, n: nat)
    requires |ss| == |es| + 1 && n < |es|
  {
    ss[n + 1].rows == RowsAfter(ss[n], es[n]) &&
    (es[n].Enqueued? && es[n].outcome != RefusedGlobalLimit ==>
       AboveEveryRow(ss[n].rows - ItemIds(Gone(ss[n], es[n])), es[n].id))
  }

  lemma StepRows(ss: seq<State>, es: seq<Event>, n: nat)
    requires SoundRun(ss, es) && n < |es|
    ensures RowsStep(ss, es, n)
  {
    StepFrom(ss, es, n);
    if es[n].Restarted? {
      RestartNotes(ss[n], es[n], ss[n + 1]);
    } else {
      RunAccounts(ss, es, n);
      if es[n].Enqueued? && es[n].outcome != RefusedGlobalLimit {
        EnqueueInsertsAbove(ss[n], es[n], ss[n + 1]);
      }
    }
  }

  lemma FirstAgrees(rows: map<nat, Row>)
    requires 0 !in rows
    ensures Agrees(Opening(rows, Ascending(rows.Keys)), rows)
    ensures Bounded(Opening(rows, Ascending(rows.Keys)))
  {
    var ids := Ascending(rows.Keys);
    OpeningAgrees(rows, ids);
    AmongAll(rows, ids);
  }

  lemma AmongAll(rows: map<nat, Row>, ids: seq<nat>)
    requires forall i :: i in ids <==> i in rows
    ensures Among(rows, ids) == rows
  {}

  ghost predicate AgreesAt(ls: seq<Ledger>, ss: seq<State>, n: nat)
    requires n < |ls| == |ss|
  {
    Agrees(ls[n], ss[n].rows) && Bounded(ls[n])
  }

  lemma NotedAgrees(ls: seq<Ledger>, ss: seq<State>, es: seq<Event>, i: nat)
    requires |ls| == |ss| == |es| + 1 && i < |es| && NotedAt(ls, ss, es, i) && AgreesAt(ls, ss, i)
    requires RowsStep(ss, es, i)
    ensures AgreesAt(ls, ss, i + 1)
  {
    NoteAgrees(ls[i], ss[i], es[i], ss[i + 1]);
  }

  lemma FirstAgreesAt(ls: seq<Ledger>, ss: seq<State>, es: seq<Event>)
    requires SoundRun(ss, es) && Kept(ls, ss, es)
    ensures AgreesAt(ls, ss, 0)
  {
    assert InvAt(ss, 0);
    NoRowZero(ss[0]);
    FirstAgrees(ss[0].rows);
  }

  lemma StepAgrees(ls: seq<Ledger>, ss: seq<State>, es: seq<Event>, i: nat)
    requires SoundRun(ss, es) && Kept(ls, ss, es) && i < |es| && AgreesAt(ls, ss, i)
    ensures AgreesAt(ls, ss, i + 1)
  {
    StepRows(ss, es, i);
    assert NotedAt(ls, ss, es, i);
    NotedAgrees(ls, ss, es, i);
  }

  /** At every step of every run the table holds exactly the rows of the
      ledger's survivors, ids rising as they were enqueued. */
  lemma {:induction false} LedgerAgrees(ls: seq<Ledger>, ss: seq<State>, es: seq<Event>, n: nat)
    requires SoundRun(ss, es) && Kept(ls, ss, es) && n < |ss|
    ensures AgreesAt(ls, ss, n)
  {
    if n == 0 {
      FirstAgreesAt(ls, ss, es);
    } else {
      LedgerAgrees(ls, ss, es, n - 1);
      StepAgrees(ls, ss, es, n - 1);
    }
  }

  // -- Reading the table back -------------------------------------------------

  ghost function Serials(l: Ledger, ids: seq<nat>): seq<nat>
    requires forall i :: i in ids ==> i in l.live
  {
    seq(|ids|, i requires 0 <= i < |ids| => l.live[ids[i]])
  }

  ghost predicate StrictlyRising(a: seq<nat>) { forall i, j :: 0 <= i < j < |a| ==> a[i] < a[j] }

  ghost function MembersOf(a: seq<nat>): set<nat> { set x | x in a }

  lemma HasMembers(a: seq<nat>)
    ensures a == [] <==> MembersOf(a) == {}
  {
    if a != [] {
      assert a[0] in MembersOf(a);
    }
  }

  lemma WithoutLast(a: seq<nat>)
    requires a != [] && StrictlyRising(a)
    ensures MembersOf(a[..|a| - 1]) == MembersOf(a) - {a[|a| - 1]}
    ensures a[|a| - 1] in MembersOf(a) && forall x :: x in MembersOf(a) ==> x <= a[|a| - 1]
  {}

  /** Rising sequences with the same members are the same. */
  lemma {:induction false} SameRising(a: seq<nat>, b: seq<nat>)
    requires StrictlyRising(a) && StrictlyRising(b) && MembersOf(a) == MembersOf(b)
    ensures a == b
  {
    if a == [] || b == [] {
      HasMembers(a);
      HasMembers(b);
    } else {
      WithoutLast(a);
      WithoutLast(b);
      SameRising(a[..|a| - 1], b[..|b| - 1]);
      assert a == a[..|a| - 1] + [a[|a| - 1]] && b == b[..|b| - 1] + [b[|b| - 1]];
    }
  }

  lemma SerialsRise(l: Ledger, ids: seq<nat>)
    requires Rising(l.live) && StrictlyRising(ids) && forall i :: i in ids ==> i in l.live
    ensures StrictlyRising(Serials(l, ids))
  {
    forall i, j | 0 <= i < j < |ids|
      ensures l.live[ids[i]] < l.live[ids[j]]
    {
      assert ids[i] in ids && ids[j] in ids;
    }
  }

  lemma SerialsMembers(l: Ledger, ids: seq<nat>)
    requires forall i :: i in ids ==> i in l.live
    ensures forall n :: n in Serials(l, ids) <==> exists id :: id in ids && l.live[id] == n
  {
    forall n | exists id :: id in ids && l.live[id] == n
      ensures n in Serials(l, ids)
    {
      var id :| id in ids && l.live[id] == n;
      var i :| 0 <= i < |ids| && ids[i] == id;
      assert Serials(l, ids)[i] == n;
    }
  }

  /** The serials of a subscriber's rows are its survivors. */
  lemma SerialsSurvive(l: Ledger, rows: map<nat, Row>, mine: seq<nat>, k: Bytes)
    requires Entered(l, rows) && Complete(l)
    requires forall i :: i in mine <==> i in rows && rows[i].subscriber == k
    ensures forall n: nat :: n in Serials(l, mine) <==> n < |l.born| && n !in l.gone && l.born[n].subscriber == k
  {
    SerialsMembers(l, mine);
    forall n: nat | n < |l.born| && n !in l.gone && l.born[n].subscriber == k
      ensures exists id :: id in mine && l.live[id] == n
    {
      assert Placed(l.live, n);
    }
  }

  /** The bucket a reload gives a subscriber: the ledger's survivors of that
      subscriber, once each, in the order they were enqueued. */
  ghost predicate HoldsSurvivors(b: seq<Entry>, l: Ledger, k: Bytes) {
    var r := Survivors(l.born, l.gone, k);
    |b| == |r| && forall i :: 0 <= i < |b| ==> r[i] < |l.born| && RowOf(k, b[i]) == l.born[r[i]]
  }

  lemma AllRead(l: Ledger, rows: map<nat, Row>, mine: seq<nat>, k: Bytes)
    requires Agrees(l, rows) && StrictlyRising(mine)
    requires forall i :: i in mine <==> i in rows && rows[i].subscriber == k
    ensures Serials(l, mine) == Survivors(l.born, l.gone, k)
  {
    SerialsRise(l, mine);
    SerialsSurvive(l, rows, mine, k);
    SurvivorsExact(l.born, l.gone, k);
    assert MembersOf(Serials(l, mine)) == MembersOf(Survivors(l.born, l.gone, k));
    SameRising(Serials(l, mine), Survivors(l.born, l.gone, k));
  }

  lemma BuiltHoldsSurvivors(l: Ledger, rows: map<nat, Row>, b: seq<Entry>, k: Bytes, mine: seq<nat>)
    requires Entered(l, rows) && (forall i :: i in mine ==> i in rows) && BuiltFrom(b, rows, k, mine)
    requires Serials(l, mine) == Survivors(l.born, l.gone, k)
    ensures HoldsSurvivors(b, l, k)
  {
    forall i | 0 <= i < |mine|
      ensures l.live[mine[i]] < |l.born| && l.born[l.live[mine[i]]] == rows[mine[i]]
    {
      assert mine[i] in mine;
    }
  }

  lemma LoadReadsSurvivors(l: Ledger, rows: map<nat, Row>, s: State, k: Bytes)
    requires Agrees(l, rows) && Loaded(rows, s)
    ensures HoldsSurvivors(Bucket(s.queue, k), l, k)
  {
    var ids := Ascending(rows.Keys);
    RowsOfComplete(rows, ids, k);
    AllRead(l, rows, RowsOf(rows, ids, k), k);
    BuiltHoldsSurvivors(l, rows, Bucket(s.queue, k), k, RowsOf(rows, ids, k));
  }

  /** Crash after any number of steps of any run: the reload gives every
      subscriber exactly its entries not drained, confirmed, proved, evicted
      or expired, once each, in the order they were enqueued. */
  lemma ReloadGivesSurvivors(ls: seq<Ledger>, ss: seq<State>, es: seq<Event>, n: nat, s': State, k: Bytes)
    requires SoundRun(ss, es) && Kept(ls, ss, es) && n < |ss| && Loaded(ss[n].rows, s')
    ensures HoldsSurvivors(Bucket(s'.queue, k), ls[n], k)
  {
    LedgerAgrees(ls, ss, es, n);
    LoadReadsSurvivors(ls[n], ss[n].rows, s', k);
  }

  lemma NoteGrows(l: Ledger, s: State, e: Event)
    ensures l.gone <= Note(l, s, e).gone && l.born <= Note(l, s, e).born
  {}

  lemma NotedGrows(ls: seq<Ledger>, ss: seq<State>, es: seq<Event>, i: nat)
    requires Kept(ls, ss, es) && i < |es|
    ensures ls[i].gone <= ls[i + 1].gone && ls[i].born <= ls[i + 1].born
  {
    assert NotedAt(ls, ss, es, i);
    NoteGrows(ls[i], ss[i], es[i]);
  }

  /** Once gone, gone from every reload after. */
  lemma {:induction false} GoneStaysGone(ls: seq<Ledger>, ss: seq<State>, es: seq<Event>, i: nat, j: nat)
    requires Kept(ls, ss, es) && i <= j < |ss|
    ensures ls[i].gone <= ls[j].gone && ls[i].born <= ls[j].born
    decreases j
  {
    if i < j {
      GoneStaysGone(ls, ss, es, i, j - 1);
      NotedGrows(ls, ss, es, j - 1);
    }
  }

  lemma NoteRetires(l: Ledger, s: State, e: Event, x: Item)
    requires Entered(l, s.rows) && Inv(s) && x in Gone(s, e) && Gone(s, e) <= Stored(s)
    ensures x.entry.id in l.live && l.live[x.entry.id] in Note(l, s, e).gone
    ensures l.live[x.entry.id] < |l.born| && l.born[l.live[x.entry.id]] == RowOf(x.subscriber, x.entry)
  {
    assert x in Stored(s);
    assert x.entry.id in ItemIds(Gone(s, e));
  }

  lemma RetiredAt(ls: seq<Ledger>, ss: seq<State>, es: seq<Event>, i: nat, x: Item)
    requires |ls| == |ss| == |es| + 1 && i < |es| && NotedAt(ls, ss, es, i) && Entered(ls[i], ss[i].rows)
    requires GoneStored(ss, es, i) && x in Gone(ss[i], es[i])
    ensures Retired(ls, i, i + 1, x)
  {
    NoteRetires(ls[i], ss[i], es[i], x);
    assert BornAs(ls[i], ls[i].live[x.entry.id], x);
  }

  /** `x` had the serial of its own birth at `i`, and it is gone by `j`. */
  ghost predicate Retired(ls: seq<Ledger>, i: nat, j: nat, x: Item)
    requires i < |ls| && j < |ls|
  {
    exists n :: BornAs(ls[i], n, x) && n in ls[j].gone
  }

  ghost predicate BornAs(l: Ledger, n: nat, x: Item) {
    x.entry.id in l.live && l.live[x.entry.id] == n && n < |l.born| && l.born[n] == RowOf(x.subscriber, x.entry)
  }

  ghost predicate GoneStored(ss: seq<State>, es: seq<Event>, i: nat)
    requires |ss| == |es| + 1 && i < |es|
  {
    Inv(ss[i]) && Gone(ss[i], es[i]) <= Stored(ss[i])
  }

  lemma GoneAt(ss: seq<State>, es: seq<Event>, i: nat)
    requires SoundRun(ss, es) && i < |es| && !es[i].Restarted?
    ensures GoneStored(ss, es, i)
  {
    assert InvAt(ss, i);
    RunAccounts(ss, es, i);
  }

  lemma EnteredAt(ls: seq<Ledger>, ss: seq<State>, es: seq<Event>, i: nat)
    requires SoundRun(ss, es) && Kept(ls, ss, es) && i < |es|
    ensures Entered(ls[i], ss[i].rows) && NotedAt(ls, ss, es, i)
  {
    LedgerAgrees(ls, ss, es, i);
  }

  lemma RetiredNext(ls: seq<Ledger>, ss: seq<State>, es: seq<Event>, i: nat, x: Item)
    requires SoundRun(ss, es) && Kept(ls, ss, es) && i < |es| && !es[i].Restarted?
    requires x in Gone(ss[i], es[i])
    ensures Retired(ls, i, i + 1, x)
  {
    EnteredAt(ls, ss, es, i);
    GoneAt(ss, es, i);
    RetiredAt(ls, ss, es, i, x);
  }

  lemma StaysRetired(ls: seq<Ledger>, ss: seq<State>, es: seq<Event>, i: nat, j: nat, n: nat, x: Item)
    requires Kept(ls, ss, es) && i < |ls| && j <= n < |ls| && Retired(ls, i, j, x)
    ensures Retired(ls, i, n, x)
  {
    GoneStaysGone(ls, ss, es, j, n);
  }

  /** An entry an event removes has the serial of its own birth, and that
      serial is gone from then on, through every restart. */
  lemma RemovedIsGone(ls: seq<Ledger>, ss: seq<State>, es: seq<Event>, i: nat, j: nat, x: Item)
    requires SoundRun(ss, es) && Kept(ls, ss, es) && i < j < |ss| && !es[i].Restarted?
    requires x in Gone(ss[i], es[i])
    ensures Retired(ls, i, j, x)
  {
    RetiredNext(ls, ss, es, i, x);
    StaysRetired(ls, ss, es, i, i + 1, j, x);
  }
}
