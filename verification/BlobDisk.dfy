/** The blob store's directory tree and its index as values: what agrees with
    what, and what a crash can leave behind. */
module BlobDisk {
  import opened Octets

  /** A file is `{dest_hex}/{msg_id_hex}`, or that with `.tmp` while it is
      being written. */
  datatype Name = Final(id: Bytes) | Temp(id: Bytes)

  datatype Path = Path(dest: Bytes, name: Name)

  datatype File = File(bytes: Bytes, modified: real)

  type Disk = map<Path, File>

  datatype BlobMeta = BlobMeta(destination: Bytes, received: real, size: nat)

  type Index = map<Bytes, BlobMeta>

  /** A store that completed: these bytes, under this id, for this
      destination. */
  datatype Written = Written(dest: Bytes, id: Bytes, bytes: Bytes)

  // -- The index and the disk -------------------------------------------------

  /** Every id has its file, of its size, under its destination. */
  ghost predicate OnDisk(disk: Disk, index: Index) {
    forall id :: id in index ==> HasFile(disk, index, id)
  }

  ghost predicate HasFile(disk: Disk, index: Index, id: Bytes)
    requires id in index
  {
    var p := Path(index[id].destination, Final(id));
    p in disk && |disk[p].bytes| == index[id].size
  }

  /** Every complete file has its id, and no other file is there. */
  ghost predicate InIndex(disk: Disk, index: Index) {
    forall p :: p in disk ==> IsIndexed(index, p)
  }

  ghost predicate IsIndexed(index: Index, p: Path) {
    p.name.Final? && p.name.id in index && index[p.name.id].destination == p.dest
  }

  ghost predicate Agree(disk: Disk, index: Index) { OnDisk(disk, index) && InIndex(disk, index) }

  /** Complete files hold the bytes of completed stores, one destination to an
      id. Temporary files may hold anything. */
  ghost predicate Sound(disk: Disk, written: set<Written>) {
    (forall p :: p in disk ==> IsWritten(disk, p, written)) && OneDestination(disk)
  }

  ghost predicate IsWritten(disk: Disk, p: Path, written: set<Written>)
    requires p in disk
  {
    p.name.Final? ==> Written(p.dest, p.name.id, disk[p].bytes) in written
  }

  ghost predicate OneDestination(disk: Disk) {
    forall p, q :: p in disk && q in disk && p.name.Final? && p.name == q.name ==> p == q
  }

  lemma SoundGrows(d: Disk, written: set<Written>, more: set<Written>)
    requires Sound(d, written) && written <= more
    ensures Sound(d, more)
  {
    forall p | p in d
      ensures IsWritten(d, p, more)
    {
      assert IsWritten(d, p, written);
    }
  }

  // -- File operations and crashes --------------------------------------------

  /** A file operation, and the disk it was done to. */
  datatype FileOp =
    | Write(before: Disk, path: Path, file: File)
    | Rename(before: Disk, from: Path, path: Path)
    | Remove(before: Disk, path: Path)

  function After(op: FileOp): Disk {
    match op
    case Write(before, p, f) => before[p := f]
    case Rename(before, from, p) => if from in before then (before - {from})[p := before[from]] else before
    case Remove(before, p) => before - {p}
  }

  /** What a crash in the operation, or right before or after it, may leave: a
      write cut off leaves anything at all, or nothing, at its path; a rename
      or a removal is done or not. */
  ghost predicate Torn(op: FileOp, c: Disk) {
    if op.Write? then c - {op.path} == op.before - {op.path} else c == op.before || c == After(op)
  }

  /** Operation after operation, from one disk to the other. */
  ghost predicate Chained(first: Disk, ops: seq<FileOp>, disk: Disk) {
    if ops == [] then disk == first
    else
      var last := ops[|ops| - 1];
      Chained(first, ops[..|ops| - 1], last.before) && After(last) == disk
  }

  /** The same complete files, byte for byte. */
  ghost predicate SameFinals(c: Disk, d: Disk) {
    (forall p :: p in c && p.name.Final? ==> p in d && c[p] == d[p]) && forall p :: p in d && p.name.Final? ==> p in c
  }

  /** Wherever a crash cuts the operation, the complete files are those from
      before it or those from after it, whole, and sound. */
  ghost predicate Atomic(op: FileOp, written: set<Written>) {
    forall c :: Torn(op, c) ==> Sound(c, written) && (SameFinals(c, op.before) || SameFinals(c, After(op)))
  }

  ghost predicate AllAtomic(ops: seq<FileOp>, written: set<Written>) {
    forall op :: op in ops ==> Atomic(op, written)
  }

  lemma ChainedMore(first: Disk, ops: seq<FileOp>, disk: Disk, op: FileOp)
    requires Chained(first, ops, disk) && op.before == disk
    ensures Chained(first, ops + [op], After(op))
  {
    assert (ops + [op])[..|ops|] == ops;
  }

  lemma SameFinalsSound(c: Disk, d: Disk, written: set<Written>)
    requires SameFinals(c, d) && Sound(d, written)
    ensures Sound(c, written)
  {
    forall p | p in c
      ensures IsWritten(c, p, written)
    {
      if p.name.Final? {
        assert IsWritten(d, p, written);
      }
    }
  }

  lemma ElsewhereSame(c: Disk, d: Disk, p: Path)
    requires c - {p} == d - {p} && p.name.Temp?
    ensures SameFinals(c, d)
  {
    forall q: Path | q.name.Final?
      ensures q in c <==> q in d
      ensures q in c ==> c[q] == d[q]
    {
      assert q in c <==> q in c - {p};
      assert q in d <==> q in d - {p};
    }
  }

  /** A write may be cut off at any byte: it is atomic because what it writes
      is a temporary file. */
  lemma TempWriteIsAtomic(before: Disk, p: Path, f: File, written: set<Written>)
    requires Sound(before, written) && p.name.Temp?
    ensures Atomic(Write(before, p, f), written)
  {
    forall c | Torn(Write(before, p, f), c)
      ensures Sound(c, written) && SameFinals(c, before)
    {
      ElsewhereSame(c, before, p);
      SameFinalsSound(c, before, written);
    }
  }

  /** And a write to a blob's own place is not, whatever was stored before:
      cut off, it leaves bytes no store completed. */
  lemma WriteInPlaceIsNot(before: Disk, p: Path, f: File, written: set<Written>, torn: Bytes)
    requires p.name.Final? && Written(p.dest, p.name.id, torn) !in written
    ensures !Atomic(Write(before, p, f), written)
  {
    var c := before[p := File(torn, f.modified)];
    assert c - {p} == before - {p};
    assert Torn(Write(before, p, f), c);
    assert !IsWritten(c, p, written);
  }

  lemma RemoveIsAtomic(before: Disk, p: Path, written: set<Written>)
    requires Sound(before, written)
    ensures Atomic(Remove(before, p), written)
  {
    FewerSound(before, p, written);
  }

  lemma RenameIsAtomic(before: Disk, from: Path, p: Path, written: set<Written>)
    requires Sound(before, written) && Sound(After(Rename(before, from, p)), written)
    ensures Atomic(Rename(before, from, p), written)
  {}

  lemma AtomicGrows(ops: seq<FileOp>, written: set<Written>, more: set<Written>)
    requires AllAtomic(ops, written) && written <= more
    ensures AllAtomic(ops, more)
  {
    forall op, c | op in ops && Torn(op, c)
      ensures Sound(c, more) && (SameFinals(c, op.before) || SameFinals(c, After(op)))
    {
      assert Atomic(op, written);
      SoundGrows(c, written, more);
    }
  }

  // -- The byte count ---------------------------------------------------------

  ghost function Sizes(index: Index): nat
    decreases index.Keys
  {
    if index == map[] then 0 else var id :| id in index; index[id].size + Sizes(index - {id})
  }

  lemma {:induction false} SizesSplit(index: Index, id: Bytes)
    requires id in index
    ensures Sizes(index) == index[id].size + Sizes(index - {id})
    decreases index.Keys
  {
    var j :| j in index && Sizes(index) == index[j].size + Sizes(index - {j});
    if j != id {
      var rest := index - {id} - {j};
      assert index - {j} - {id} == rest;
      SizesSplit(index - {j}, id);
      SizesSplit(index - {id}, j);
    }
  }

  lemma SizesAdd(index: Index, id: Bytes, m: BlobMeta)
    requires id !in index
    ensures Sizes(index[id := m]) == Sizes(index) + m.size
  {
    SizesSplit(index[id := m], id);
    assert index[id := m] - {id} == index;
  }

  // -- One file fewer, one file more ------------------------------------------

  /** Everything a store keeps true: index, files and counter agree, and its
      file operations, from the disk it was opened on to the one it has, are
      each atomic. */
  ghost predicate Good(disk: Disk, index: Index, used: nat, written: set<Written>, first: Disk, ops: seq<FileOp>) {
    Agree(disk, index) && used == Sizes(index) && Sound(disk, written) && Sound(first, written) &&
    Chained(first, ops, disk) && AllAtomic(ops, written)
  }

  function PathOf(index: Index, id: Bytes): Path
    requires id in index
  {
    Path(index[id].destination, Final(id))
  }

  lemma FewerSound(disk: Disk, p: Path, written: set<Written>)
    requires Sound(disk, written)
    ensures Sound(disk - {p}, written)
  {
    forall q | q in disk - {p}
      ensures IsWritten(disk - {p}, q, written)
    {
      assert IsWritten(disk, q, written);
    }
  }

  lemma DropBlob(disk: Disk, index: Index, id: Bytes)
    requires Agree(disk, index) && id in index
    ensures Agree(disk - {Path(index[id].destination, Final(id))}, index - {id})
  {
    var p := Path(index[id].destination, Final(id));
    var disk', index' := disk - {p}, index - {id};
    forall i | i in index'
      ensures HasFile(disk', index', i)
    {
      assert HasFile(disk, index, i);
    }
    forall q | q in disk'
      ensures IsIndexed(index', q)
    {
      assert IsIndexed(index, q);
    }
  }

  lemma GoodDelete(disk: Disk, index: Index, used: nat, written: set<Written>, first: Disk, ops: seq<FileOp>, id: Bytes)
    requires Good(disk, index, used, written, first, ops) && id in index
    ensures used >= index[id].size
    ensures var p := PathOf(index, id);
            Good(disk - {p}, index - {id}, used - index[id].size, written, first, ops + [Remove(disk, p)])
  {
    var op := Remove(disk, PathOf(index, id));
    DropBlob(disk, index, id);
    FewerSound(disk, op.path, written);
    RemoveIsAtomic(disk, op.path, written);
    ChainedMore(first, ops, disk, op);
    SizesSplit(index, id);
  }

  lemma TempSound(disk: Disk, dest: Bytes, id: Bytes, f: File, written: set<Written>)
    requires Sound(disk, written)
    ensures Sound(disk[Path(dest, Temp(id)) := f], written)
  {
    var disk' := disk[Path(dest, Temp(id)) := f];
    forall q | q in disk'
      ensures IsWritten(disk', q, written)
    {
      assert q in disk ==> IsWritten(disk, q, written);
    }
  }

  lemma NewBlob(disk: Disk, index: Index, dest: Bytes, id: Bytes, f: File, received: real)
    requires Agree(disk, index) && id !in index
    ensures Agree(disk[Path(dest, Final(id)) := f], index[id := BlobMeta(dest, received, |f.bytes|)])
  {
    var disk' := disk[Path(dest, Final(id)) := f];
    var index' := index[id := BlobMeta(dest, received, |f.bytes|)];
    forall i | i in index'
      ensures HasFile(disk', index', i)
    {
      assert i != id ==> HasFile(disk, index, i);
    }
    forall q | q in disk'
      ensures IsIndexed(index', q)
    {
      assert q in disk ==> IsIndexed(index, q);
    }
  }

  lemma NewSound(disk: Disk, index: Index, dest: Bytes, id: Bytes, f: File, written: set<Written>)
    requires InIndex(disk, index) && id !in index && Sound(disk, written)
    ensures Sound(disk[Path(dest, Final(id)) := f], written + {Written(dest, id, f.bytes)})
  {
    var disk', more := disk[Path(dest, Final(id)) := f], written + {Written(dest, id, f.bytes)};
    forall q | q in disk
      ensures q.name != Final(id)
    {
      assert IsIndexed(index, q);
    }
    forall q | q in disk'
      ensures IsWritten(disk', q, more)
    {
      assert q in disk ==> IsWritten(disk, q, written);
    }
  }

  lemma NoTempFiles(disk: Disk, index: Index, p: Path)
    requires InIndex(disk, index) && p.name.Temp?
    ensures p !in disk
  {
    assert p in disk ==> IsIndexed(index, p);
  }

  lemma RenamedIn(disk: Disk, tmp: Path, path: Path, f: File)
    requires tmp !in disk && tmp != path
    ensures After(Rename(disk[tmp := f], tmp, path)) == disk[path := f]
  {}

  /** The two file operations of a store. */
  function StoreOps(disk: Disk, dest: Bytes, id: Bytes, f: File): seq<FileOp> {
    var tmp, path := Path(dest, Temp(id)), Path(dest, Final(id));
    [Write(disk, tmp, f), Rename(disk[tmp := f], tmp, path)]
  }

  lemma StoreIsAtomic(disk: Disk, index: Index, written: set<Written>, dest: Bytes, id: Bytes, f: File)
    requires InIndex(disk, index) && id !in index && Sound(disk, written)
    ensures var more := written + {Written(dest, id, f.bytes)};
            AllAtomic(StoreOps(disk, dest, id, f), more) && Sound(disk[Path(dest, Final(id)) := f], more)
  {
    var tmp, path := Path(dest, Temp(id)), Path(dest, Final(id));
    var more := written + {Written(dest, id, f.bytes)};
    NoTempFiles(disk, index, tmp);
    SoundGrows(disk, written, more);
    TempWriteIsAtomic(disk, tmp, f, more);
    TempSound(disk, dest, id, f, more);
    NewSound(disk, index, dest, id, f, written);
    RenamedIn(disk, tmp, path, f);
    RenameIsAtomic(disk[tmp := f], tmp, path, more);
  }

  lemma StoreIsChained(first: Disk, ops: seq<FileOp>, disk: Disk, dest: Bytes, id: Bytes, f: File)
    requires Chained(first, ops, disk) && Path(dest, Temp(id)) !in disk
    ensures Chained(first, ops + StoreOps(disk, dest, id, f), disk[Path(dest, Final(id)) := f])
  {
    var tmp, path := Path(dest, Temp(id)), Path(dest, Final(id));
    var w := Write(disk, tmp, f);
    ChainedMore(first, ops, disk, w);
    ChainedMore(first, ops + [w], After(w), Rename(disk[tmp := f], tmp, path));
    RenamedIn(disk, tmp, path, f);
    assert ops + StoreOps(disk, dest, id, f) == ops + [w] + [Rename(disk[tmp := f], tmp, path)];
  }

  lemma GoodWrite(disk: Disk, index: Index, used: nat, written: set<Written>, first: Disk, ops: seq<FileOp>,
                  dest: Bytes, id: Bytes, f: File, received: real)
    requires Good(disk, index, used, written, first, ops) && id !in index
    ensures Good(disk[Path(dest, Final(id)) := f], index[id := BlobMeta(dest, received, |f.bytes|)],
                 used + |f.bytes|, written + {Written(dest, id, f.bytes)}, first,
                 ops + StoreOps(disk, dest, id, f))
    ensures Path(dest, Temp(id)) !in disk
  {
    var more := written + {Written(dest, id, f.bytes)};
    NoTempFiles(disk, index, Path(dest, Temp(id)));
    StoreIsAtomic(disk, index, written, dest, id, f);
    StoreIsChained(first, ops, disk, dest, id, f);
    AtomicGrows(ops, written, more);
    SoundGrows(first, written, more);
    NewBlob(disk, index, dest, id, f, received);
    SizesAdd(index, id, BlobMeta(dest, received, |f.bytes|));
  }

  // -- Which files an eviction removes ----------------------------------------

  /** `ops` is `was` and then one removal for each of `order`, its file in
      `index`, in that order. */
  ghost predicate RemovedInOrder(was: seq<FileOp>, ops: seq<FileOp>, index: Index, order: seq<Bytes>) {
    |ops| == |was| + |order| && ops[..|was|] == was &&
    forall i :: 0 <= i < |order| ==> order[i] in index && RemovesFile(ops[|was| + i], index, order[i])
  }

  ghost predicate RemovesFile(op: FileOp, index: Index, id: Bytes)
    requires id in index
  {
    op.Remove? && op.path == PathOf(index, id)
  }

  lemma RemovedNone(ops: seq<FileOp>, index: Index)
    ensures RemovedInOrder(ops, ops, index, [])
  {}

  lemma RemovedOneMore(was: seq<FileOp>, ops: seq<FileOp>, index: Index, order: seq<Bytes>, id: Bytes, op: FileOp)
    requires RemovedInOrder(was, ops, index, order) && id in index && RemovesFile(op, index, id)
    ensures RemovedInOrder(was, ops + [op], index, order + [id])
  {
    assert (ops + [op])[..|was|] == ops[..|was|];
  }

  lemma RemovedThen(was: seq<FileOp>, mid: seq<FileOp>, ops: seq<FileOp>, index: Index, first: seq<Bytes>,
                    left: Index, second: seq<Bytes>)
    requires RemovedInOrder(was, mid, index, first) && RemovedInOrder(mid, ops, left, second)
    requires forall id :: id in left ==> id in index && left[id] == index[id]
    ensures RemovedInOrder(was, ops, index, first + second)
  {
    assert ops[..|was|] == mid[..|was|];
    forall i | 0 <= i < |first + second|
      ensures (first + second)[i] in index && RemovesFile(ops[|was| + i], index, (first + second)[i])
    {
      if i < |first| {
        assert ops[|was| + i] == mid[|was| + i];
      } else {
        assert ops[|was| + i] == ops[|mid| + (i - |first|)];
      }
    }
  }

  /** `ops` is `was`, then the removals of `order`, then the two operations of
      a store. */
  ghost predicate RemovedThenStored(was: seq<FileOp>, ops: seq<FileOp>, index: Index, order: seq<Bytes>,
                                    dest: Bytes, id: Bytes, f: File) {
    |ops| >= 2 && RemovedInOrder(was, ops[..|ops| - 2], index, order) &&
    ops[|ops| - 2..] == StoreOps(ops[|ops| - 2].before, dest, id, f)
  }

  lemma StoredLast(was: seq<FileOp>, mid: seq<FileOp>, index: Index, order: seq<Bytes>, disk: Disk,
                   dest: Bytes, id: Bytes, f: File)
    requires RemovedInOrder(was, mid, index, order)
    ensures RemovedThenStored(was, mid + StoreOps(disk, dest, id, f), index, order, dest, id, f)
  {
    var ops := mid + StoreOps(disk, dest, id, f);
    assert ops[..|ops| - 2] == mid && ops[|ops| - 2..] == StoreOps(disk, dest, id, f);
  }

  // -- Age order --------------------------------------------------------------

  /** `a` is evicted no later than `b`: known ages oldest first, unknown ages
      (0.0) last. */
  predicate NoYounger(a: real, b: real) { b == 0.0 || (a != 0.0 && a <= b) }

  ghost predicate AgeOrdered(order: seq<Bytes>, index: Index) {
    (forall i :: 0 <= i < |order| ==> order[i] in index) &&
    forall i, j :: 0 <= i < j < |order| ==>
      order[i] != order[j] && NoYounger(index[order[i]].received, index[order[j]].received)
  }

  /** No blob goes while an older one of known age stays, and none of unknown
      age while one of known age does. */
  ghost predicate OldestWent(was: Index, index: Index) {
    forall e, r :: e in was && e !in index && r in index && r in was && was[r].received != 0.0 ==>
      was[e].received != 0.0 && was[e].received <= was[r].received
  }

  lemma EvictionTakesOldest(was: Index, index: Index, order: seq<Bytes>, n: nat, needed: nat, limit: nat)
    requires MinimalEviction(was, index, order, n, needed, limit)
    ensures forall e, r :: e in was && e !in index && r in index && r in was && was[r].received != 0.0 ==>
              0.0 != was[e].received <= was[r].received
  {
    forall e, r | e in was && e !in index && r in index && r in was && was[r].received != 0.0
      ensures 0.0 != was[e].received <= was[r].received
    {
      var i, j := Placed(order, n, e, r);
      assert NoYounger(was[order[i]].received, was[order[j]].received);
    }
  }

  lemma Placed(order: seq<Bytes>, n: nat, e: Bytes, r: Bytes) returns (i: nat, j: nat)
    requires n <= |order| && e in Ids(order[..n]) && r in Ids(order) && r !in Ids(order[..n])
    ensures i < n <= j < |order| && order[i] == e && order[j] == r
  {
    i :| 0 <= i < n && order[..n][i] == e;
    j :| 0 <= j < |order| && order[j] == r;
    assert forall m :: 0 <= m < n ==> order[..n][m] in Ids(order[..n]);
  }

  lemma RoomTakesOldest(was: Index, index: Index, needed: nat, limit: nat)
    requires RoomMade(was, index, needed, limit)
    ensures OldestWent(was, index)
  {
    if Sizes(was) + needed > limit {
      var order, n :| MinimalEviction(was, index, order, n, needed, limit);
      EvictionTakesOldest(was, index, order, n, needed, limit);
    }
  }

  ghost function Ids(order: seq<Bytes>): set<Bytes> { set i | 0 <= i < |order| :: order[i] }

  /** `index` without the first `n` of `order`. */
  ghost function Dropped(index: Index, order: seq<Bytes>, n: nat): Index
    requires n <= |order|
  {
    index - Ids(order[..n])
  }

  lemma DroppedMore(index: Index, order: seq<Bytes>, n: nat)
    requires n < |order|
    ensures Dropped(index, order, n + 1) == Dropped(index, order, n) - {order[n]}
  {
    assert order[..n + 1] == order[..n] + [order[n]];
    assert Ids(order[..n + 1]) == Ids(order[..n]) + {order[n]};
  }

  /** With only the first `n` of `order` gone there is not room enough. */
  ghost predicate StillOver(index: Index, order: seq<Bytes>, n: nat, needed: nat, limit: nat)
    requires n <= |order|
  {
    Sizes(Dropped(index, order, n)) + needed > limit
  }

  lemma {:induction false} SizesShrink(index: Index, gone: set<Bytes>)
    ensures Sizes(index - gone) <= Sizes(index)
    decreases gone
  {
    if id :| id in gone && id in index {
      SizesSplit(index, id);
      SizesShrink(index - {id}, gone - {id});
      assert index - {id} - (gone - {id}) == index - gone;
    } else {
      assert index - gone == index;
    }
  }

  /** An eviction that could not have stopped one blob earlier could not have
      stopped at all before. */
  lemma MinimalPrefix(index: Index, order: seq<Bytes>, m: nat, n: nat, needed: nat, limit: nat)
    requires m <= n <= |order| && StillOver(index, order, n, needed, limit)
    ensures StillOver(index, order, m, needed, limit)
  {
    SizesShrink(Dropped(index, order, m), Ids(order[..n]));
    assert Dropped(index, order, m) - Ids(order[..n]) == Dropped(index, order, n) by {
      assert forall i :: 0 <= i < m ==> order[..n][i] == order[..m][i];
      assert Ids(order[..m]) <= Ids(order[..n]);
    }
  }

  /** `index` is `was` without the first `n` of its blobs in age order: no more
      than make room for `needed` bytes, all if that does not. */
  ghost predicate MinimalEviction(was: Index, index: Index, order: seq<Bytes>, n: nat, needed: nat, limit: nat) {
    AgeOrdered(order, was) && Ids(order) == was.Keys && n <= |order| && index == Dropped(was, order, n) &&
    (Sizes(index) + needed <= limit || index == map[]) && (n > 0 ==> StillOver(was, order, n - 1, needed, limit))
  }

  ghost predicate Evicting(was: Index, index: Index, order: seq<Bytes>, n: nat, needed: nat, limit: nat) {
    n <= |order| && index == Dropped(was, order, n) && (n > 0 ==> StillOver(was, order, n - 1, needed, limit))
  }

  lemma EvictOneMore(was: Index, index: Index, order: seq<Bytes>, n: nat, needed: nat, limit: nat)
    requires Evicting(was, index, order, n, needed, limit) && n < |order| && Sizes(index) + needed > limit
    ensures Evicting(was, index - {order[n]}, order, n + 1, needed, limit)
  {
    DroppedMore(was, order, n);
  }

  lemma EvictionStarts(was: Index, order: seq<Bytes>, needed: nat, limit: nat)
    ensures Evicting(was, was, order, 0, needed, limit)
  {
    assert order[..0] == [];
  }

  lemma EvictionDone(was: Index, index: Index, order: seq<Bytes>, n: nat, needed: nat, limit: nat)
    requires AgeOrdered(order, was) && Ids(order) == was.Keys && Evicting(was, index, order, n, needed, limit)
    requires n < |order| ==> Sizes(index) + needed <= limit
    ensures MinimalEviction(was, index, order, n, needed, limit) && OldestWent(was, index)
  {
    if n == |order| {
      DroppedAll(was, order);
    }
    EvictionTakesOldest(was, index, order, n, needed, limit);
  }

  /** How room is made: nothing goes while there is enough, else the oldest. */
  ghost predicate RoomMade(was: Index, index: Index, needed: nat, limit: nat) {
    if Sizes(was) + needed <= limit then index == was
    else exists order, n :: MinimalEviction(was, index, order, n, needed, limit)
  }

  /** What fits already evicts nothing; else it fits afterwards, to the byte,
      and would not with the last blob evicted put back. What never fits empties
      the store. */
  lemma RoomExact(was: Index, index: Index, needed: nat, limit: nat)
    requires RoomMade(was, index, needed, limit)
    ensures Sizes(was) + needed <= limit ==> index == was
    ensures Sizes(was) + needed > limit && needed <= limit ==>
              Sizes(index) + needed <= limit &&
              exists last :: last in was && last !in index && Sizes(index[last := was[last]]) + needed > limit
    ensures needed > limit ==> index == map[]
  {
    if Sizes(was) + needed > limit {
      var order, n :| MinimalEviction(was, index, order, n, needed, limit);
      if n > 0 {
        LastEvicted(was, index, order, n);
      } else {
        DroppedAll(was, order);
        assert index == was && Sizes(map[]) == 0;
      }
    }
  }

  lemma LastEvicted(was: Index, index: Index, order: seq<Bytes>, n: nat)
    requires AgeOrdered(order, was) && 0 < n <= |order| && index == Dropped(was, order, n)
    ensures order[n - 1] in was && order[n - 1] !in index
    ensures index[order[n - 1] := was[order[n - 1]]] == Dropped(was, order, n - 1)
  {
    DroppedMore(was, order, n - 1);
    assert order[n - 1] !in Ids(order[..n - 1]);
  }

  /** The ids `ids` being removed from `was`: `todo` still to go, the others
      gone in the order `order`. */
  ghost predicate Removing(was: Index, index: Index, ids: set<Bytes>, todo: set<Bytes>, order: seq<Bytes>) {
    todo <= ids <= was.Keys && |order| + |todo| == |ids| && Ids(order) == ids - todo && index == was - (ids - todo)
  }

  lemma RemovingStarts(was: Index, ids: set<Bytes>)
    requires ids <= was.Keys
    ensures Removing(was, was, ids, ids, [])
  {
    assert ids - ids == {};
  }

  lemma RemovingEnds(was: Index, index: Index, ids: set<Bytes>, order: seq<Bytes>)
    requires Removing(was, index, ids, {}, order)
    ensures index == was - ids && Ids(order) == ids && |order| == |ids|
  {
    assert ids - {} == ids;
  }

  lemma IdsMore(order: seq<Bytes>, id: Bytes)
    ensures Ids(order + [id]) == Ids(order) + {id}
  {
    var more := order + [id];
    forall x
      ensures x in Ids(more) <==> x in Ids(order) || x == id
    {
      if i :| 0 <= i < |order| && order[i] == x {
        assert more[i] == x;
      }
      assert more[|order|] == id;
    }
  }

  lemma RemoveOneMore(was: Index, index: Index, ids: set<Bytes>, todo: set<Bytes>, order: seq<Bytes>, id: Bytes)
    requires Removing(was, index, ids, todo, order) && id in todo
    ensures id in index && index[id] == was[id]
    ensures Removing(was, index - {id}, ids, todo - {id}, order + [id])
  {
    IdsMore(order, id);
    assert ids - (todo - {id}) == (ids - todo) + {id};
  }

  lemma DroppedAll(index: Index, order: seq<Bytes>)
    requires Ids(order) == index.Keys
    ensures Dropped(index, order, |order|) == map[] && Dropped(index, order, 0) == index
  {
    assert order[..|order|] == order;
  }
}
