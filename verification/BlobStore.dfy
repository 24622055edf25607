/** The blob store: an index and a byte counter in memory over a directory of
    files. The clock readings and the times the file system stamps are
    parameters; file operations are taken to succeed, and may be cut off by a
    crash at any of them. */
module BlobStores {
  import opened Octets
  import opened BlobDisk

  const BLOB_TTL_SECS: real := 30.0 * 24.0 * 3600.0
  const EVICT_CHECK_INTERVAL_SECS: real := 3600.0

  datatype StoreResult = Stored | IdCollision | LimitReached

  // -- What the methods rest on -----------------------------------------------

  lemma BackOut(index: Index, id: Bytes, m: BlobMeta)
    requires id !in index
    ensures index[id := m] - {id} == index && index - {id} == index
  {}

  lemma StillThere(was: Index, index: Index, order: seq<Bytes>, n: nat)
    requires AgeOrdered(order, was) && n < |order| && index == Dropped(was, order, n)
    ensures order[n] in index && index[order[n]] == was[order[n]]
  {}

  lemma GoneThen(was: Index, kept: Index, first: seq<Bytes>, second: seq<Bytes>)
    requires kept == was - Ids(first)
    ensures kept - Ids(second) == was - Ids(first + second)
  {
    forall x
      ensures x in Ids(first + second) <==> x in Ids(first) || x in Ids(second)
    {
      if i :| 0 <= i < |first| && first[i] == x {
        assert (first + second)[i] == x;
      }
      if i :| 0 <= i < |second| && second[i] == x {
        assert (first + second)[|first| + i] == x;
      }
    }
  }

  lemma EvictedThen(was: Index, kept: Index, index: Index, before: seq<FileOp>, mid: seq<FileOp>, ops: seq<FileOp>,
                    first: seq<Bytes>, order: seq<Bytes>, n: nat, needed: nat, limit: nat)
    requires RemovedInOrder(before, mid, was, first) && kept == was - Ids(first)
    requires MinimalEviction(kept, index, order, n, needed, limit) && RemovedInOrder(mid, ops, kept, order[..n])
    ensures RemovedInOrder(before, ops, was, first + order[..n]) && index == was - Ids(first + order[..n])
  {
    RemovedThen(before, mid, ops, was, first, kept, order[..n]);
    GoneThen(was, kept, first, order[..n]);
  }

  lemma RoomLeft(disk: Disk, index: Index, was: Index, needed: nat, limit: nat)
    requires RoomMade(was, index, needed, limit) && InIndex(disk, index)
    ensures Sizes(index) + needed <= limit <==> needed <= limit
    ensures needed > limit ==> index == map[] && disk == map[]
  {
    if Sizes(index) + needed > limit || needed > limit {
      assert index == map[];
      NothingLeft(disk, index);
    }
  }

  lemma NothingLeft(disk: Disk, index: Index)
    requires InIndex(disk, index) && index == map[]
    ensures disk == map[]
  {
    assert forall p :: p in disk ==> IsIndexed(index, p);
  }

  /** The blob's file and its entry are both there. */
  ghost predicate HoldsBlob(disk: Disk, index: Index, dest: Bytes, id: Bytes, blob: Bytes, received: real) {
    id in index && index[id] == BlobMeta(dest, received, |blob|) &&
    Path(dest, Final(id)) in disk && disk[Path(dest, Final(id))].bytes == blob
  }

  function SaturatingSub(a: nat, b: nat): nat { if a >= b then a - b else 0 }

  predicate Stale(m: BlobMeta, cutoff: real) { m.received > 0.0 && m.received < cutoff }

  function StaleIds(index: Index, cutoff: real): set<Bytes> {
    set id | id in index && Stale(index[id], cutoff)
  }

  /** What the hourly look leaves: 30 days' worth. */
  function Unexpired(index: Index, lastEviction: real, t: real): Index {
    if t - lastEviction > EVICT_CHECK_INTERVAL_SECS then index - StaleIds(index, t - BLOB_TTL_SECS) else index
  }

  /** Once an hour the blobs received more than 30 days ago go; those of
      unknown age do not. */
  lemma UnexpiredExact(index: Index, lastEviction: real, t: real)
    ensures var kept := Unexpired(index, lastEviction, t);
            (forall id :: id in kept <==>
               id in index && !(t - lastEviction > 3600.0 && 0.0 < index[id].received < t - 2592000.0)) &&
            forall id :: id in kept ==> kept[id] == index[id]
  {}

  /** The index's ids in age order, those of equal age in any order. */
  method ByAge(index: Index) returns (order: seq<Bytes>)
    ensures AgeOrdered(order, index) && Ids(order) == index.Keys
    ensures forall i, j :: 0 <= i < j < |order| ==> order[i] in index && order[j] in index && order[i] != order[j]
    ensures forall i, j :: 0 <= i < j < |order| && index[order[j]].received != 0.0 ==>
              0.0 != index[order[i]].received <= index[order[j]].received
  {
    order := [];
    var todo := index.Keys;
    while todo != {}
      invariant todo <= index.Keys && Ids(order) == index.Keys - todo
      invariant AgeOrdered(order, index)
      decreases todo
    {
      var id :| id in todo;
      var at := 0;
      while at < |order| && NoYounger(index[order[at]].received, index[id].received)
        invariant 0 <= at <= |order|
        invariant forall i :: 0 <= i < at ==> NoYounger(index[order[i]].received, index[id].received)
      {
        at := at + 1;
      }
      InsertOrdered(order, index, id, at);
      order := order[..at] + [id] + order[at..];
      todo := todo - {id};
    }
  }

  lemma InsertOrdered(order: seq<Bytes>, index: Index, id: Bytes, at: nat)
    requires AgeOrdered(order, index) && id in index && id !in Ids(order) && at <= |order|
    requires forall i :: 0 <= i < at ==> NoYounger(index[order[i]].received, index[id].received)
    requires at < |order| ==> !NoYounger(index[order[at]].received, index[id].received)
    ensures AgeOrdered(order[..at] + [id] + order[at..], index)
    ensures Ids(order[..at] + [id] + order[at..]) == Ids(order) + {id}
  {
    var r := order[..at] + [id] + order[at..];
    forall x
      ensures x in Ids(r) <==> x in Ids(order) || x == id
    {
      if i :| 0 <= i < |order| && order[i] == x {
        assert r[if i < at then i else i + 1] == x;
      }
      assert r[at] == id;
    }
    forall i | 0 <= i < |order|
      ensures order[i] != id
    {
      assert order[i] in Ids(order);
    }
  }

  // -- The rebuild loop -------------------------------------------------------

  /** The directory walk under way: `todo` not yet seen. */
  ghost predicate Rebuilding(found: Disk, disk: Disk, index: Index, used: nat, todo: set<Path>) {
    todo <= found.Keys &&
    (forall p :: p in disk <==> p in found && (p.name.Final? || p in todo)) &&
    (forall p :: p in disk ==> disk[p] == found[p]) &&
    (forall id :: id in index ==> IndexedFrom(found, index, id) && Path(index[id].destination, Final(id)) !in todo) &&
    (OneDestination(found) ==>
       used == Sizes(index) &&
       forall p :: p in found && p.name.Final? && p !in todo ==> p.name.id in index)
  }

  ghost predicate IndexedFrom(found: Disk, index: Index, id: Bytes)
    requires id in index
  {
    var p := Path(index[id].destination, Final(id));
    p in found && index[id] == BlobMeta(p.dest, found[p].modified, |found[p].bytes|)
  }

  /** The complete files stay, and no other. */
  ghost predicate Swept(found: Disk, disk: Disk) {
    (forall p :: p in disk <==> p in found && p.name.Final?) && forall p :: p in disk ==> disk[p] == found[p]
  }

  /** Its file operations: only temporary files removed. */
  ghost predicate Sweeping(found: Disk, ops: seq<FileOp>, disk: Disk, known: set<Written>) {
    Chained(found, ops, disk) && (forall op :: op in ops ==> op.Remove? && op.path.name.Temp?) &&
    (Sound(found, known) ==> AllAtomic(ops, known))
  }

  ghost predicate Walking(found: Disk, disk: Disk, index: Index, used: nat, todo: set<Path>, ops: seq<FileOp>,
                          known: set<Written>) {
    Rebuilding(found, disk, index, used, todo) && Sweeping(found, ops, disk, known)
  }

  lemma WalkStarts(found: Disk, known: set<Written>)
    ensures Walking(found, found, map[], 0, found.Keys, [], known)
  {
    assert Sizes(map[]) == 0;
  }

  lemma WalkDrops(found: Disk, disk: Disk, index: Index, used: nat, todo: set<Path>, ops: seq<FileOp>,
                  known: set<Written>, p: Path)
    requires Walking(found, disk, index, used, todo, ops, known) && p in todo && p.name.Temp?
    ensures Walking(found, disk - {p}, index, used, todo - {p}, ops + [Remove(disk, p)], known)
  {
    assert todo == todo - {p} + {p};
    RebuildDrops(found, disk, index, used, todo - {p}, p);
    SweepOneMore(found, ops, disk, known, p);
  }

  lemma WalkTakes(found: Disk, disk: Disk, index: Index, used: nat, todo: set<Path>, ops: seq<FileOp>,
                  known: set<Written>, p: Path)
    requires Walking(found, disk, index, used, todo, ops, known) && p in todo && p.name.Final?
    ensures p in disk
    ensures var m := BlobMeta(p.dest, disk[p].modified, |disk[p].bytes|);
            Walking(found, disk, index[p.name.id := m], used + m.size, todo - {p}, ops, known)
  {
    assert todo == todo - {p} + {p};
    RebuildTakes(found, disk, index, used, todo - {p}, p);
  }

  lemma RebuildDrops(found: Disk, disk: Disk, index: Index, used: nat, todo: set<Path>, p: Path)
    requires p !in todo && p in found && p.name.Temp? && Rebuilding(found, disk, index, used, todo + {p})
    ensures Rebuilding(found, disk - {p}, index, used, todo)
  {}

  lemma SweepOneMore(found: Disk, ops: seq<FileOp>, disk: Disk, known: set<Written>, p: Path)
    requires Sweeping(found, ops, disk, known) && p.name.Temp?
    requires forall q :: q in disk ==> q in found && disk[q] == found[q]
    ensures Sweeping(found, ops + [Remove(disk, p)], disk - {p}, known)
  {
    ChainedMore(found, ops, disk, Remove(disk, p));
    if Sound(found, known) {
      SubsetSound(found, disk, known);
      RemoveIsAtomic(disk, p, known);
    }
  }

  lemma SubsetSound(found: Disk, disk: Disk, known: set<Written>)
    requires Sound(found, known) && forall p :: p in disk ==> p in found && disk[p] == found[p]
    ensures Sound(disk, known)
  {
    forall p | p in disk
      ensures IsWritten(disk, p, known)
    {
      assert IsWritten(found, p, known);
    }
  }

  lemma FreshId(found: Disk, disk: Disk, index: Index, used: nat, todo: set<Path>, p: Path)
    requires p in found && p.name.Final? && OneDestination(found) && Rebuilding(found, disk, index, used, todo + {p})
    ensures p.name.id !in index
  {
    assert p.name.id in index ==> IndexedFrom(found, index, p.name.id);
  }

  lemma RebuildTakes(found: Disk, disk: Disk, index: Index, used: nat, todo: set<Path>, p: Path)
    requires p !in todo && p in found && p.name.Final? && Rebuilding(found, disk, index, used, todo + {p})
    ensures p in disk
    ensures var m := BlobMeta(p.dest, disk[p].modified, |disk[p].bytes|);
            Rebuilding(found, disk, index[p.name.id := m], used + m.size, todo)
  {
    var id := p.name.id;
    var m := BlobMeta(p.dest, disk[p].modified, |disk[p].bytes|);
    var index' := index[id := m];
    forall i | i in index'
      ensures IndexedFrom(found, index', i)
    {
      if i != id {
        assert IndexedFrom(found, index, i);
      }
    }
    if OneDestination(found) {
      FreshId(found, disk, index, used, todo, p);
      SizesAdd(index, id, m);
    }
  }

  lemma WalkDone(found: Disk, disk: Disk, index: Index, used: nat, ops: seq<FileOp>, known: set<Written>)
    requires Walking(found, disk, index, used, {}, ops, known)
    ensures Sound(found, known) ==> Good(disk, index, used, known, found, ops)
    ensures forall op :: op in ops ==> op.Remove? && op.path.name.Temp?
    ensures Swept(found, disk) && forall id :: id in index ==> IndexedFrom(found, index, id)
  {
    if Sound(found, known) {
      SubsetSound(found, disk, known);
      forall id | id in index
        ensures HasFile(disk, index, id)
      {
        assert IndexedFrom(found, index, id);
      }
      forall p | p in disk
        ensures p.name.Final? && p.name.id in index && index[p.name.id].destination == p.dest
      {
        assert IndexedFrom(found, index, p.name.id);
      }
    }
  }

  // -- The store --------------------------------------------------------------

  class BlobStore {
    var disk: Disk
    var index: Index
    var storageLimit: nat
    var usedBytes: nat
    var lastEviction: real

    /** Every store that completed, the disk the store was opened on, and every
        file operation since. */
    ghost var written: set<Written>
    ghost var origin: Disk
    ghost var ops: seq<FileOp>

    ghost predicate Valid()
      reads this
    {
      Good(disk, index, usedBytes, written, origin, ops)
    }

    // -- File operations ------------------------------------------------------

    method RemoveFile(p: Path)
      modifies this`disk, this`ops
      ensures disk == old(disk) - {p} && ops == old(ops) + [Remove(old(disk), p)]
    {
      ops := ops + [Remove(disk, p)];
      disk := disk - {p};
    }

    method WriteFile(p: Path, f: File)
      modifies this`disk, this`ops
      ensures disk == old(disk)[p := f] && ops == old(ops) + [Write(old(disk), p, f)]
    {
      ops := ops + [Write(disk, p, f)];
      disk := disk[p := f];
    }

    method RenameFile(from: Path, to: Path)
      requires from in disk
      modifies this`disk, this`ops
      ensures disk == (old(disk) - {from})[to := old(disk)[from]]
      ensures ops == old(ops) + [Rename(old(disk), from, to)]
    {
      ops := ops + [Rename(disk, from, to)];
      disk := (disk - {from})[to := disk[from]];
    }

    // -- Open -----------------------------------------------------------------

    /** On a disk whose complete files are sound, as every crash leaves one,
        the index is exactly the complete files and no temporary one stays. */
    constructor Open(found: Disk, limit: nat, ghost known: set<Written>)
      ensures storageLimit == limit && written == known && origin == found && lastEviction == 0.0
      ensures Sound(found, known) ==> Valid()
      ensures forall op :: op in ops ==> op.Remove? && op.path.name.Temp?
      ensures Swept(found, disk) && forall id :: id in index ==> IndexedFrom(found, index, id)
    {
      disk, index, storageLimit, usedBytes, lastEviction := found, map[], limit, 0, 0.0;
      written, origin, ops := known, found, [];
      new;
      Rebuild();
    }

    method Rebuild()
      requires disk == origin && index == map[] && usedBytes == 0 && ops == []
      modifies this`disk, this`index, this`usedBytes, this`ops
      ensures Sound(origin, written) ==> Valid()
      ensures forall op :: op in ops ==> op.Remove? && op.path.name.Temp?
      ensures Swept(origin, disk) && forall id :: id in index ==> IndexedFrom(origin, index, id)
    {
      var todo := disk.Keys;
      WalkStarts(origin, written);
      while todo != {}
        invariant Walking(origin, disk, index, usedBytes, todo, ops, written)
        decreases todo
      {
        var p :| p in todo;
        if p.name.Temp? {
          WalkDrops(origin, disk, index, usedBytes, todo, ops, written, p);
          RemoveFile(p);
        } else {
          WalkTakes(origin, disk, index, usedBytes, todo, ops, written, p);
          var size := |disk[p].bytes|;
          usedBytes := usedBytes + size;
          index := index[p.name.id := BlobMeta(p.dest, disk[p].modified, size)];
        }
        todo := todo - {p};
      }
      WalkDone(origin, disk, index, usedBytes, ops, written);
    }

    // -- Reads ----------------------------------------------------------------

    /** An indexed blob reads back as the bytes of one completed store. */
    method Get(id: Bytes) returns (r: Option<Bytes>)
      requires Valid()
      ensures r.Some? <==> id in index
      ensures r.Some? ==> Written(index[id].destination, id, r.value) in written && |r.value| == index[id].size
    {
      if id !in index { return None; }
      assert HasFile(disk, index, id);
      var p := Path(index[id].destination, Final(id));
      if p !in disk { return None; }
      r := Some(disk[p].bytes);
    }

    // -- Deletion and eviction ------------------------------------------------

    method Delete(id: Bytes)
      requires Valid()
      modifies this`disk, this`index, this`usedBytes, this`ops
      ensures Valid() && index == old(index) - {id}
      ensures id in old(index) ==> usedBytes == old(usedBytes) - old(index)[id].size
      ensures ops == old(ops) + if id in old(index) then [Remove(old(disk), PathOf(old(index), id))] else []
    {
      if id in index {
        ghost var d, i, u, o := disk, index, usedBytes, ops;
        GoodDelete(d, i, u, written, origin, o, id);
        var meta := index[id];
        index := index - {id};
        RemoveFile(Path(meta.destination, Final(id)));
        usedBytes := SaturatingSub(usedBytes, meta.size);
        assert usedBytes == u - i[id].size;
      }
    }

    /** Blobs of known age received before the cutoff, and no others; their
        files are removed, and no other file touched. */
    method EvictOlderThan(cutoff: real) returns (count: nat, ghost order: seq<Bytes>)
      requires Valid()
      modifies this`disk, this`index, this`usedBytes, this`ops
      ensures Valid() && index == old(index) - StaleIds(old(index), cutoff)
      ensures forall id :: id in old(index) ==> (id in index <==> !(0.0 < old(index)[id].received < cutoff))
      ensures count == |StaleIds(old(index), cutoff)|
      ensures Ids(order) == StaleIds(old(index), cutoff) && RemovedInOrder(old(ops), ops, old(index), order)
    {
      count, order := DeleteEach(StaleIds(index, cutoff));
    }

    method DeleteEach(ids: set<Bytes>) returns (count: nat, ghost order: seq<Bytes>)
      requires Valid() && ids <= index.Keys
      modifies this`disk, this`index, this`usedBytes, this`ops
      ensures Valid() && index == old(index) - ids && count == |order| == |ids|
      ensures Ids(order) == ids && RemovedInOrder(old(ops), ops, old(index), order)
    {
      var todo := ids;
      ghost var was, before := index, ops;
      count, order := 0, [];
      RemovedNone(ops, index);
      RemovingStarts(index, ids);
      while todo != {}
        invariant Valid() && count == |order|
        invariant Removing(was, index, ids, todo, order) && RemovedInOrder(before, ops, was, order)
        decreases todo
      {
        var id :| id in todo;
        DeleteNext(was, before, ids, todo, order, id);
        todo, count, order := todo - {id}, count + 1, order + [id];
      }
      RemovingEnds(was, index, ids, order);
    }

    method DeleteNext(ghost was: Index, ghost before: seq<FileOp>, ghost ids: set<Bytes>, ghost todo: set<Bytes>,
                      ghost order: seq<Bytes>, id: Bytes)
      requires Valid() && id in todo && Removing(was, index, ids, todo, order)
      requires RemovedInOrder(before, ops, was, order)
      modifies this`disk, this`index, this`usedBytes, this`ops
      ensures Valid() && Removing(was, index, ids, todo - {id}, order + [id])
      ensures RemovedInOrder(before, ops, was, order + [id])
    {
      RemoveOneMore(was, index, ids, todo, order, id);
      RemovedOneMore(before, ops, was, order, id, Remove(disk, PathOf(index, id)));
      Delete(id);
    }

    /** Evict in age order, no more than it takes to make room. */
    method EvictToFit(needed: nat) returns (ghost order: seq<Bytes>, ghost n: nat)
      requires Valid()
      modifies this`disk, this`index, this`usedBytes, this`ops
      ensures Valid() && MinimalEviction(old(index), index, order, n, needed, storageLimit)
      ensures OldestWent(old(index), index)
      ensures RemovedInOrder(old(ops), ops, old(index), order[..n])
    {
      var entries := ByAge(index);
      order, n := entries, 0;
      ghost var was, before := index, ops;
      EvictionStarts(was, entries, needed, storageLimit);
      RemovedNone(ops, index);
      assert entries[..0] == [];
      var i := 0;
      while i < |entries| && usedBytes + needed > storageLimit
        invariant 0 <= i <= |entries| && n == i
        invariant Valid() && RemovedInOrder(before, ops, was, entries[..i])
        invariant Evicting(was, index, entries, i, needed, storageLimit)
      {
        EvictNext(was, before, entries, i, needed);
        i := i + 1;
        n := i;
      }
      EvictionDone(was, index, order, n, needed, storageLimit);
    }

    method EvictNext(ghost was: Index, ghost before: seq<FileOp>, entries: seq<Bytes>, i: nat, ghost needed: nat)
      requires Valid() && i < |entries| && AgeOrdered(entries, was) && usedBytes + needed > storageLimit
      requires Evicting(was, index, entries, i, needed, storageLimit)
      requires RemovedInOrder(before, ops, was, entries[..i])
      modifies this`disk, this`index, this`usedBytes, this`ops
      ensures Valid() && Evicting(was, index, entries, i + 1, needed, storageLimit)
      ensures RemovedInOrder(before, ops, was, entries[..i + 1])
    {
      EvictOneMore(was, index, entries, i, needed, storageLimit);
      StillThere(was, index, entries, i);
      RemovedOneMore(before, ops, was, entries[..i], entries[i], Remove(disk, PathOf(index, entries[i])));
      assert entries[..i + 1] == entries[..i] + [entries[i]];
      Delete(entries[i]);
    }

    // -- Store ----------------------------------------------------------------

    /** Make room for `size` bytes: expired blobs first, if it is time to look,
        then the oldest. There is room afterwards unless `size` alone is over
        the limit; then everything is gone. Only the files of the blobs that
        went are removed, each once. */
    method MakeRoom(size: nat, t: real) returns (ghost gone: seq<Bytes>)
      requires Valid()
      modifies this`disk, this`index, this`usedBytes, this`ops, this`lastEviction
      ensures Valid() && RemovedInOrder(old(ops), ops, old(index), gone) && index == old(index) - Ids(gone)
      ensures RoomMade(Unexpired(old(index), old(lastEviction), t), index, size, storageLimit)
      ensures lastEviction == if t - old(lastEviction) > EVICT_CHECK_INTERVAL_SECS then t else old(lastEviction)
      ensures usedBytes + size <= storageLimit <==> size <= storageLimit
      ensures size > storageLimit ==> index == map[] && disk == map[]
    {
      ghost var was, before := index, ops;
      gone := EvictExpired(t);
      ghost var kept, mid := index, ops;
      if usedBytes + size > storageLimit {
        ghost var order, n;
        order, n := EvictToFit(size);
        EvictedThen(was, kept, index, before, mid, ops, gone, order, n, size, storageLimit);
        gone := gone + order[..n];
      }
      RoomLeft(disk, index, kept, size, storageLimit);
    }

    /** The hourly look for expired blobs. */
    method EvictExpired(t: real) returns (ghost gone: seq<Bytes>)
      requires Valid()
      modifies this`disk, this`index, this`usedBytes, this`ops, this`lastEviction
      ensures Valid() && RemovedInOrder(old(ops), ops, old(index), gone) && index == old(index) - Ids(gone)
      ensures index == Unexpired(old(index), old(lastEviction), t)
      ensures lastEviction == if t - old(lastEviction) > EVICT_CHECK_INTERVAL_SECS then t else old(lastEviction)
    {
      gone := [];
      RemovedNone(ops, index);
      if t - lastEviction > EVICT_CHECK_INTERVAL_SECS {
        var count;
        count, gone := EvictOlderThan(t - BLOB_TTL_SECS);
        lastEviction := t;
      }
    }

    /** A new id is refused for space exactly when the blob alone exceeds the
        limit; stored, it is complete on the disk and the counter is within
        the limit. An id already stored changes nothing. The file operations
        are the removals that make room, then the write of the temporary file
        and its renaming. */
    method StoreWithId(dest: Bytes, id: Bytes, blob: Bytes, t: real, received: real, modified: real)
      returns (r: StoreResult, ghost gone: seq<Bytes>)
      requires Valid()
      modifies this`disk, this`index, this`usedBytes, this`ops, this`lastEviction, this`written
      ensures Valid()
      ensures id in old(index) ==> r == (if old(index)[id].destination == dest then Stored else IdCollision)
      ensures id in old(index) ==>
                index == old(index) && disk == old(disk) && ops == old(ops) && written == old(written)
      ensures id !in old(index) ==> r == if |blob| > storageLimit then LimitReached else Stored
      ensures id !in old(index) ==>
                RoomMade(Unexpired(old(index), old(lastEviction), t), index - {id}, |blob|, storageLimit)
      ensures id !in old(index) ==>
                OldestWent(Unexpired(old(index), old(lastEviction), t), index - {id})
      ensures id !in old(index) && r == Stored ==>
                usedBytes <= storageLimit && HoldsBlob(disk, index, dest, id, blob, received) &&
                written == old(written) + {Written(dest, id, blob)} &&
                RemovedThenStored(old(ops), ops, old(index), gone, dest, id, File(blob, modified))
      ensures r == LimitReached ==>
                index == map[] && disk == map[] && written == old(written) &&
                RemovedInOrder(old(ops), ops, old(index), gone)
    {
      if id in index {
        r, gone := if index[id].destination == dest then Stored else IdCollision, [];
        return;
      }
      var stored;
      stored, gone := StoreNew(dest, id, File(blob, modified), t, received);
      RoomTakesOldest(Unexpired(old(index), old(lastEviction), t), index - {id}, |blob|, storageLimit);
      r := if stored then Stored else LimitReached;
    }

    method StoreNew(dest: Bytes, id: Bytes, f: File, t: real, received: real)
      returns (stored: bool, ghost gone: seq<Bytes>)
      requires Valid() && id !in index
      modifies this`disk, this`index, this`usedBytes, this`ops, this`lastEviction, this`written
      ensures Valid() && (stored <==> |f.bytes| <= storageLimit)
      ensures RoomMade(Unexpired(old(index), old(lastEviction), t), index - {id}, |f.bytes|, storageLimit)
      ensures stored ==>
                usedBytes <= storageLimit && HoldsBlob(disk, index, dest, id, f.bytes, received) &&
                written == old(written) + {Written(dest, id, f.bytes)} &&
                RemovedThenStored(old(ops), ops, old(index), gone, dest, id, f)
      ensures !stored ==>
                index == map[] && disk == map[] && written == old(written) &&
                RemovedInOrder(old(ops), ops, old(index), gone)
    {
      gone := MakeRoom(|f.bytes|, t);
      stored := usedBytes + |f.bytes| <= storageLimit;
      BackOut(index, id, BlobMeta(dest, received, |f.bytes|));
      if stored {
        StoredLast(old(ops), ops, old(index), gone, disk, dest, id, f);
        WriteBlob(dest, id, f, received);
      }
    }

    /** Written beside its place, then renamed in. */
    method WriteBlob(dest: Bytes, id: Bytes, f: File, received: real)
      requires Valid() && id !in index
      modifies this`disk, this`index, this`usedBytes, this`ops, this`written
      ensures Valid() && ops == old(ops) + StoreOps(old(disk), dest, id, f)
      ensures written == old(written) + {Written(dest, id, f.bytes)}
      ensures index == old(index)[id := BlobMeta(dest, received, |f.bytes|)]
      ensures disk == old(disk)[Path(dest, Final(id)) := f]
      ensures usedBytes == old(usedBytes) + |f.bytes|
    {
      ghost var d, i, u, w, o := disk, index, usedBytes, written, ops;
      var tmp, path := Path(dest, Temp(id)), Path(dest, Final(id));
      WriteFile(tmp, f);
      RenameFile(tmp, path);
      written := written + {Written(dest, id, f.bytes)};
      index := index[id := BlobMeta(dest, received, |f.bytes|)];
      usedBytes := usedBytes + |f.bytes|;
      GoodWrite(d, i, u, w, origin, o, dest, id, f, received);
      RenamedIn(d, tmp, path, f);
      assert ops == o + StoreOps(d, dest, id, f);
    }
  }

  // -- Crash and recovery -----------------------------------------------------

  /** A crash in, before or after any file operation of the store's life, and
      the store opened again: the index is exactly the complete files the crash
      left, which are those from before the operation or those from after it;
      each has the bytes of a completed store, the counter is their size, and
      no temporary file stays. */
  method CrashAndOpen(store: BlobStore, ghost op: FileOp, c: Disk, limit: nat) returns (reopened: BlobStore)
    requires store.Valid() && op in store.ops && Torn(op, c)
    ensures fresh(reopened) && reopened.Valid() && reopened.written == store.written
    ensures SameFinals(reopened.disk, op.before) || SameFinals(reopened.disk, After(op))
    ensures Swept(c, reopened.disk)
    ensures forall id :: id in reopened.index <==> exists p :: p in c && p.name == Final(id)
  {
    CrashIsSound(store.disk, store.index, store.usedBytes, store.written, store.origin, store.ops, op, c);
    reopened := new BlobStore.Open(c, limit, store.written);
    SweptIsSame(c, reopened.disk, op);
    IndexIsFiles(reopened.disk, reopened.index, c);
  }

  /** Of a good store's file operations every crash leaves the complete files
      from before or from after, all sound. */
  lemma CrashIsSound(disk: Disk, index: Index, used: nat, written: set<Written>, first: Disk, ops: seq<FileOp>,
                     op: FileOp, c: Disk)
    requires Good(disk, index, used, written, first, ops) && op in ops && Torn(op, c)
    ensures Sound(c, written) && (SameFinals(c, op.before) || SameFinals(c, After(op)))
  {
    assert Atomic(op, written);
  }

  lemma SweptIsSame(c: Disk, disk: Disk, op: FileOp)
    requires Swept(c, disk) && (SameFinals(c, op.before) || SameFinals(c, After(op)))
    ensures SameFinals(disk, op.before) || SameFinals(disk, After(op))
  {
    var d := if SameFinals(c, op.before) then op.before else After(op);
    SweptSame(c, disk, d);
  }

  lemma SweptSame(c: Disk, disk: Disk, d: Disk)
    requires Swept(c, disk) && SameFinals(c, d)
    ensures SameFinals(disk, d)
  {}

  lemma IndexIsFiles(disk: Disk, index: Index, d: Disk)
    requires Agree(disk, index) && Swept(d, disk)
    ensures forall id :: id in index <==> exists p :: p in d && p.name == Final(id)
  {
    forall id | id in index
      ensures exists p :: p in d && p.name == Final(id)
    {
      assert HasFile(disk, index, id);
    }
    forall id | exists p :: p in d && p.name == Final(id)
      ensures id in index
    {
      var p :| p in d && p.name == Final(id);
      assert IsIndexed(index, p);
    }
  }
}
