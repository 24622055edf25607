/** The response to a pull: its encoding, what a blob adds to it, and why a
    page of several blobs always fits one Resource segment. */
module PullResponses {
  import opened Octets
  import opened MessagePack
  import opened Entries
  import opened QueueState
  import opened Paging

  const MAX_EFFICIENT_SIZE: nat := 0x10_0000 - 1
  const PULL_PAGE_MAX_BYTES: nat := MAX_EFFICIENT_SIZE - 64

  function BinLength(n: nat): nat {
    n + if n < 0x100 then 2 else if n < 0x1_0000 then 3 else 5
  }

  function EntryCost(e: Entry): nat { 1 + BinLength(|e.channel|) + BinLength(|e.blob|) }

  function PairOf(e: Entry): (Bytes, Bytes) { (e.channel, e.blob) }

  function PairsOf(b: seq<Entry>): (r: seq<(Bytes, Bytes)>)
    ensures |r| == |b|
  {
    seq(|b|, i requires 0 <= i < |b| => PairOf(b[i]))
  }

  function PairValue(p: (Bytes, Bytes)): Value { Arr([Bin(p.0), Bin(p.1)]) }

  function PairValues(ps: seq<(Bytes, Bytes)>): (r: seq<Value>)
    ensures |r| == |ps|
  {
    seq(|ps|, i requires 0 <= i < |ps| => PairValue(ps[i]))
  }

  function EncodePullResponse(blobs: seq<Entry>, more: bool): Bytes {
    Write(Arr([Arr(PairValues(PairsOf(blobs))), Bool(more)]))
  }

  // -- The requester's side ---------------------------------------------------

  function SliceOf(v: Value): Option<Bytes> {
    if v.Bin? || v.Str? then Some(v.bytes) else None
  }

  function PairIn(v: Value): Option<(Bytes, Bytes)> {
    if v.Arr? && |v.items| == 2 && SliceOf(v.items[0]).Some? && SliceOf(v.items[1]).Some?
    then Some((SliceOf(v.items[0]).value, SliceOf(v.items[1]).value))
    else None
  }

  function PairsIn(vs: seq<Value>): Option<seq<(Bytes, Bytes)>> {
    if vs == [] then Some([])
    else
      match (PairIn(vs[0]), PairsIn(vs[1..]))
      case (Some(p), Some(ps)) => Some([p] + ps)
      case _ => None
  }

  function DecodePullResponse(bs: Bytes): Option<(seq<(Bytes, Bytes)>, bool)> {
    match Read(bs)
    case Malformed => None
    case Got(v, _) =>
      if !(v.Arr? && |v.items| == 2 && v.items[0].Arr? && v.items[1].Bool?) then None
      else
        match PairsIn(v.items[0].items)
        case None => None
        case Some(ps) => Some((ps, v.items[1].b))
  }

  /** Every blob and routing hash of a size the format can carry. */
  predicate Carried(b: seq<Entry>) {
    |b| < 0x1_0000_0000 && forall e :: e in b ==> |e.channel| < 0x1_0000_0000 && |e.blob| < 0x1_0000_0000
  }

  lemma {:induction false} PairsReadBack(ps: seq<(Bytes, Bytes)>)
    ensures PairsIn(PairValues(ps)) == Some(ps)
  {
    if ps != [] {
      PairsReadBack(ps[1..]);
      assert PairValues(ps)[1..] == PairValues(ps[1..]);
      assert ps == [ps[0]] + ps[1..];
    }
  }

  lemma PairsFit(b: seq<Entry>)
    requires Carried(b)
    ensures forall v :: v in PairValues(PairsOf(b)) ==> Fits(v)
  {
    forall i | 0 <= i < |b|
      ensures Fits(PairValues(PairsOf(b))[i])
    {
      assert b[i] in b;
    }
  }

  /** What the requester decodes is what the node encoded. */
  lemma PullResponseRoundTrip(b: seq<Entry>, more: bool)
    requires Carried(b)
    ensures DecodePullResponse(EncodePullResponse(b, more)) == Some((PairsOf(b), more))
    ensures |PairsOf(b)| == |b| && forall i :: 0 <= i < |b| ==> PairsOf(b)[i] == (b[i].channel, b[i].blob)
  {
    var v := Arr([Arr(PairValues(PairsOf(b))), Bool(more)]);
    PairsFit(b);
    WriteReads(v, []);
    assert Write(v) + [] == Write(v);
    PairsReadBack(PairsOf(b));
  }

  /** Any reader of MessagePack finds an array of two: the array of the pairs,
      each routing hash and then blob, and whether more is pending. */
  lemma ResponseOnTheWire(b: seq<Entry>, more: bool) returns (pairs: seq<Value>)
    requires Carried(b)
    ensures Read(EncodePullResponse(b, more)) == Got(Arr([Arr(pairs), Bool(more)]), [])
    ensures |pairs| == |b| && forall i :: 0 <= i < |b| ==> pairs[i] == Arr([Bin(b[i].channel), Bin(b[i].blob)])
  {
    pairs := PairValues(PairsOf(b));
    var v := Arr([Arr(pairs), Bool(more)]);
    PairsFit(b);
    WriteReads(v, []);
    assert Write(v) + [] == Write(v);
  }

  // -- How long it is ---------------------------------------------------------

  lemma WriteOne(v: Value)
    ensures WriteAll([v]) == Write(v)
  {
    assert WriteAll([v]) == Write(v) + WriteAll([]);
  }

  lemma WriteTwo(v: Value, w: Value)
    ensures WriteAll([v, w]) == Write(v) + Write(w)
  {
    assert [v, w][1..] == [w];
    WriteOne(w);
  }

  lemma {:induction false} WriteAllConcat(a: seq<Value>, b: seq<Value>)
    ensures WriteAll(a + b) == WriteAll(a) + WriteAll(b)
  {
    if a == [] {
      assert a + b == b;
    } else {
      assert (a + b)[0] == a[0] && (a + b)[1..] == a[1..] + b;
      WriteAllConcat(a[1..], b);
    }
  }

  lemma BinCost(b: Bytes)
    ensures |Write(Bin(b))| <= BinLength(|b|)
    ensures |b| < 0x1_0000_0000 ==> |Write(Bin(b))| == BinLength(|b|)
  {}

  lemma PairCost(e: Entry)
    ensures |Write(PairValue(PairOf(e)))| <= EntryCost(e)
    ensures |e.channel| < 0x1_0000_0000 && |e.blob| < 0x1_0000_0000 ==> |Write(PairValue(PairOf(e)))| == EntryCost(e)
  {
    BinCost(e.channel);
    BinCost(e.blob);
    WriteTwo(Bin(e.channel), Bin(e.blob));
  }

  lemma {:induction false} PairsCost(b: seq<Entry>)
    ensures |WriteAll(PairValues(PairsOf(b)))| <= CostOf(b, EntryCost)
    ensures Carried(b) ==> |WriteAll(PairValues(PairsOf(b)))| == CostOf(b, EntryCost)
  {
    if b != [] {
      var init, last := b[..|b| - 1], b[|b| - 1];
      PairsCost(init);
      PairCost(last);
      var v := PairValue(PairOf(last));
      assert PairValues(PairsOf(b)) == PairValues(PairsOf(init)) + [v];
      WriteAllConcat(PairValues(PairsOf(init)), [v]);
      WriteOne(v);
      assert Carried(b) ==> Carried(init) && last in b;
    }
  }

  /** The envelope adds its own byte, the array's header and the flag; the
      rest is the sum of the entries' costs, to the byte. */
  lemma ResponseLength(b: seq<Entry>, more: bool)
    ensures |EncodePullResponse(b, more)| <= CostOf(b, EntryCost) + 1 + |ArrayHeader(|b|)| + 1
    ensures Carried(b) ==> |EncodePullResponse(b, more)| == CostOf(b, EntryCost) + 1 + |ArrayHeader(|b|)| + 1
  {
    PairsCost(b);
    WriteTwo(Arr(PairValues(PairsOf(b))), Bool(more));
  }

  /** A page of two or more blobs, or of one that is within the budget by
      itself, packs into one segment with 57 bytes to spare, whatever the
      sizes of the blobs behind it. */
  lemma PageFitsOneSegment(s: State, k: Bytes, w: Wanted, max: nat, more: bool)
    ensures var (_, _, blobs) := TakePage(s, k, w, max, PULL_PAGE_MAX_BYTES, EntryCost);
            |blobs| >= 2 || CostOf(blobs, EntryCost) <= PULL_PAGE_MAX_BYTES ==>
              |EncodePullResponse(blobs, more)| <= 0xf_ffff - 57
  {
    var all := Select(Bucket(s.queue, k), w);
    var n := PageCount(all, max, PULL_PAGE_MAX_BYTES, EntryCost);
    PageIsLargest(all, max, PULL_PAGE_MAX_BYTES, EntryCost);
    ResponseLength(all[..n], more);
  }

  /** And the page stops short of its count only where one more blob would
      have gone past the budget. */
  lemma PageLeavesNoRoom(s: State, k: Bytes, w: Wanted, max: nat)
    ensures var all := Select(Bucket(s.queue, k), w);
            var (_, _, blobs) := TakePage(s, k, w, max, PULL_PAGE_MAX_BYTES, EntryCost);
            |blobs| < max && |blobs| < |all| ==>
              blobs != [] && CostOf(all[..|blobs| + 1], EntryCost) > 0xf_ffff - 64
  {
    PageIsLargest(Select(Bucket(s.queue, k), w), max, PULL_PAGE_MAX_BYTES, EntryCost);
  }
}
