/** The two channel requests that come either as a bare 16-byte hash or as
    MessagePack. */
module ChannelRequests {
  import opened Octets
  import opened MessagePack

  datatype RequestError = Undecodable | NotAnArray(value: Value) | NotBinary(value: Value) | WrongLength(length: nat)

  datatype Result<+T> = Ok(value: T) | Err(error: RequestError)

  const HASH_LENGTH: nat := 16

  function ItemError(v: Value): Option<RequestError> {
    if !v.Bin? then Some(NotBinary(v)) else if |v.bytes| != HASH_LENGTH then Some(WrongLength(|v.bytes|)) else None
  }

  function FirstError(items: seq<Value>): (r: Option<RequestError>)
    ensures r.None? <==> forall v :: v in items ==> v.Bin? && |v.bytes| == HASH_LENGTH
  {
    if items == [] then None
    else if ItemError(items[0]).Some? then ItemError(items[0])
    else FirstError(items[1..])
  }

  /** Each element once, where it first stands. */
  function KeepFirst(s: seq<Bytes>): seq<Bytes> {
    if s == [] then []
    else
      var init, last := s[..|s| - 1], s[|s| - 1];
      KeepFirst(init) + if last in init then [] else [last]
  }

  function FirstIndex(s: seq<Bytes>, x: Bytes): (i: nat)
    requires x in s
    ensures i < |s| && s[i] == x && x !in s[..i]
  {
    if s[0] == x then 0 else 1 + FirstIndex(s[1..], x)
  }

  lemma FirstIndexKept(init: seq<Bytes>, last: Bytes, x: Bytes)
    requires x in init
    ensures x in init + [last] && FirstIndex(init + [last], x) == FirstIndex(init, x)
  {
    var i := FirstIndex(init, x);
    assert (init + [last])[..i] == init[..i];
    FirstIndexUnique(init + [last], x, i);
  }

  ghost predicate InFirstOrder(r: seq<Bytes>, s: seq<Bytes>) {
    (forall x :: x in r ==> x in s) &&
    forall i, j :: 0 <= i < j < |r| ==> FirstIndex(s, r[i]) < FirstIndex(s, r[j])
  }

  lemma FirstOrderGrows(r: seq<Bytes>, init: seq<Bytes>, last: Bytes)
    requires InFirstOrder(r, init)
    ensures InFirstOrder(r, init + [last])
    ensures last !in init ==> InFirstOrder(r + [last], init + [last])
  {
    forall x | x in init
      ensures FirstIndex(init + [last], x) == FirstIndex(init, x)
    {
      FirstIndexKept(init, last, x);
    }
    if last !in init {
      assert (init + [last])[..|init|] == init;
      FirstIndexUnique(init + [last], last, |init|);
    }
  }

  /** The same elements, none twice, in the order they first came. */
  lemma {:induction false} KeepFirstExact(s: seq<Bytes>)
    ensures forall x :: x in KeepFirst(s) <==> x in s
    ensures InFirstOrder(KeepFirst(s), s)
  {
    if s != [] {
      var init, last := s[..|s| - 1], s[|s| - 1];
      assert s == init + [last];
      KeepFirstExact(init);
      FirstOrderGrows(KeepFirst(init), init, last);
    }
  }

  lemma FirstIndexUnique(s: seq<Bytes>, x: Bytes, i: nat)
    requires i < |s| && s[i] == x && x !in s[..i]
    ensures x in s && FirstIndex(s, x) == i
  {
    var j := FirstIndex(s, x);
    assert forall m :: 0 <= m < i ==> s[m] in s[..i];
    assert forall m :: 0 <= m < j ==> s[m] in s[..j];
  }

  function BytesOf(items: seq<Value>): (r: seq<Bytes>)
    requires forall v :: v in items ==> v.Bin?
    ensures |r| == |items|
  {
    seq(|items|, i requires 0 <= i < |items| => items[i].bytes)
  }

  function ChannelStreamFilters(bs: Bytes): Result<seq<Bytes>> {
    if |bs| == HASH_LENGTH then Ok([bs])
    else
      match Read(bs)
      case Malformed => Err(Undecodable)
      case Got(v, _) =>
        if !v.Arr? then Err(NotAnArray(v))
        else
          match FirstError(v.items)
          case Some(e) => Err(e)
          case None => Ok(KeepFirst(BytesOf(v.items)))
  }

  lemma {:induction false} ErrorStandsAt(items: seq<Value>, i: nat)
    requires i < |items| && FirstError(items[..i]).None? && ItemError(items[i]).Some?
    ensures FirstError(items) == ItemError(items[i])
  {
    if i > 0 {
      assert items[..i][0] == items[0] && items[..i][1..] == items[1..][..i - 1];
      ErrorStandsAt(items[1..], i - 1);
    }
  }

  method DecodeChannelStreamFilters(bs: Bytes) returns (r: Result<seq<Bytes>>)
    ensures r == ChannelStreamFilters(bs)
  {
    if |bs| == HASH_LENGTH { return Ok([bs]); }
    var reading := Read(bs);
    if reading.Malformed? { return Err(Undecodable); }
    if !reading.value.Arr? { return Err(NotAnArray(reading.value)); }
    var items := reading.value.items;
    var filters: seq<Bytes> := [];
    for i := 0 to |items|
      invariant FirstError(items[..i]).None? && filters == KeepFirst(BytesOf(items[..i]))
    {
      var v := items[i];
      if !v.Bin? || |v.bytes| != HASH_LENGTH {
        ErrorStandsAt(items, i);
        return Err(if !v.Bin? then NotBinary(v) else WrongLength(|v.bytes|));
      }
      OneFilterMore(items[..i], v);
      assert items[..i + 1] == items[..i] + [v];
      if v.bytes !in filters { filters := filters + [v.bytes]; }
    }
    assert items[..|items|] == items;
    r := Ok(filters);
  }

  lemma OneFilterMore(items: seq<Value>, v: Value)
    requires FirstError(items).None? && ItemError(v).None?
    ensures FirstError(items + [v]).None?
    ensures KeepFirst(BytesOf(items + [v])) ==
            KeepFirst(BytesOf(items)) + if v.bytes in KeepFirst(BytesOf(items)) then [] else [v.bytes]
  {
    var all := BytesOf(items + [v]);
    assert all == BytesOf(items) + [v.bytes];
    assert all[..|all| - 1] == BytesOf(items);
    KeepFirstExact(BytesOf(items));
  }

  predicate IsHash(v: Value) { v.Bin? && |v.bytes| == 16 }

  lemma {:induction false} FirstErrorAt(items: seq<Value>) returns (i: nat)
    requires FirstError(items).Some?
    ensures i < |items| && !IsHash(items[i]) && forall j :: 0 <= j < i ==> IsHash(items[j])
    ensures FirstError(items).value ==
            if items[i].Bin? then WrongLength(|items[i].bytes|) else NotBinary(items[i])
  {
    i := 0;
    if ItemError(items[0]).None? {
      var n := FirstErrorAt(items[1..]);
      i := n + 1;
    }
  }

  /** 16 bytes are a hash, whatever they are. Anything else is an array of
      hashes, each kept once where it first stands, or it is refused: for the
      first item that is no hash, if it is an array. */
  lemma StreamFiltersExact(bs: Bytes)
    ensures |bs| == 16 ==> ChannelStreamFilters(bs) == Ok([bs])
    ensures |bs| != 16 && Read(bs).Malformed? ==> ChannelStreamFilters(bs) == Err(Undecodable)
    ensures |bs| != 16 && Read(bs).Got? && !Read(bs).value.Arr? ==>
              ChannelStreamFilters(bs) == Err(NotAnArray(Read(bs).value))
    ensures |bs| != 16 && Read(bs).Got? && Read(bs).value.Arr? ==>
              FiltersFrom(ChannelStreamFilters(bs), Read(bs).value.items)
  {
    if |bs| != 16 && Read(bs).Got? && Read(bs).value.Arr? {
      ItemsExact(ChannelStreamFilters(bs), Read(bs).value.items);
    }
  }

  ghost predicate FiltersFrom(r: Result<seq<Bytes>>, items: seq<Value>) {
    match r
    case Ok(hs) =>
      (forall v :: v in items ==> IsHash(v)) &&
      (forall h :: h in hs <==> exists v :: v in items && v.Bin? && v.bytes == h) &&
      exists all ::
        |all| == |items| && (forall i :: 0 <= i < |all| ==> items[i] == Bin(all[i])) && InFirstOrder(hs, all)
    case Err(e) =>
      exists i :: 0 <= i < |items| && !IsHash(items[i]) && (forall j :: 0 <= j < i ==> IsHash(items[j])) &&
                  e == if items[i].Bin? then WrongLength(|items[i].bytes|) else NotBinary(items[i])
  }

  lemma ItemsExact(r: Result<seq<Bytes>>, items: seq<Value>)
    requires r == match FirstError(items) { case Some(e) => Err(e) case None => Ok(KeepFirst(BytesOf(items))) }
    ensures FiltersFrom(r, items)
  {
    if FirstError(items).Some? {
      var i := FirstErrorAt(items);
    } else {
      var all := BytesOf(items);
      KeepFirstExact(all);
      assert forall i :: 0 <= i < |all| ==> items[i] in items && items[i] == Bin(all[i]);
      forall h
        ensures h in all <==> exists v :: v in items && v.Bin? && v.bytes == h
      {
        if v :| v in items && v.Bin? && v.bytes == h {
          var i :| 0 <= i < |items| && items[i] == v;
          assert all[i] == h;
        }
        if i :| 0 <= i < |all| && all[i] == h {
          assert items[i] in items && items[i].bytes == h;
        }
      }
    }
  }

  // -- Encoded lists ----------------------------------------------------------

  function BinValues(hs: seq<Bytes>): (r: seq<Value>)
    ensures |r| == |hs|
  {
    seq(|hs|, i requires 0 <= i < |hs| => Bin(hs[i]))
  }

  predicate AllHashes(hs: seq<Bytes>) { forall h :: h in hs ==> |h| == HASH_LENGTH }

  lemma HashLength(h: Bytes)
    requires |h| == HASH_LENGTH
    ensures |Write(Bin(h))| == 18
  {}

  lemma BinValuesCons(hs: seq<Bytes>)
    requires hs != []
    ensures WriteAll(BinValues(hs)) == Write(Bin(hs[0])) + WriteAll(BinValues(hs[1..]))
  {
    assert BinValues(hs)[1..] == BinValues(hs[1..]);
  }

  lemma {:induction false} HashesLength(hs: seq<Bytes>)
    requires AllHashes(hs)
    ensures |WriteAll(BinValues(hs))| == 18 * |hs|
  {
    if hs != [] {
      HashLength(hs[0]);
      HashesLength(hs[1..]);
      BinValuesCons(hs);
    }
  }

  /** An encoded list is never as long as a bare hash. */
  lemma ListIsNoBareHash(hs: seq<Bytes>)
    requires AllHashes(hs)
    ensures |Write(Arr(BinValues(hs)))| != HASH_LENGTH
  {
    HashesLength(hs);
  }

  lemma BinValuesFit(hs: seq<Bytes>)
    requires AllHashes(hs)
    ensures forall v :: v in BinValues(hs) ==> v.Bin? && |v.bytes| == HASH_LENGTH && Fits(v)
    ensures BytesOf(BinValues(hs)) == hs
  {
    forall i | 0 <= i < |hs|
      ensures |BinValues(hs)[i].bytes| == HASH_LENGTH
    {
      assert hs[i] in hs;
    }
  }

  lemma FiltersRead(bs: Bytes, items: seq<Value>, rest: Bytes)
    requires |bs| != HASH_LENGTH && Read(bs) == Got(Arr(items), rest)
    requires forall v :: v in items ==> v.Bin? && |v.bytes| == HASH_LENGTH
    ensures ChannelStreamFilters(bs) == Ok(KeepFirst(BytesOf(items)))
  {}

  /** A subscriber's encoded filter list decodes to that list, each hash once
      where it first stood. */
  lemma FiltersRoundTrip(hs: seq<Bytes>)
    requires AllHashes(hs) && |hs| < 0x1_0000_0000
    ensures ChannelStreamFilters(Write(Arr(BinValues(hs)))) == Ok(KeepFirst(hs))
  {
    ListIsNoBareHash(hs);
    BinValuesFit(hs);
    ListReads(hs);
    FiltersRead(Write(Arr(BinValues(hs))), BinValues(hs), []);
  }

  lemma ListReads(hs: seq<Bytes>)
    requires AllHashes(hs) && |hs| < 0x1_0000_0000
    ensures Read(Write(Arr(BinValues(hs)))) == Got(Arr(BinValues(hs)), [])
  {
    BinValuesFit(hs);
    WriteReads(Arr(BinValues(hs)), []);
    assert Write(Arr(BinValues(hs))) + [] == Write(Arr(BinValues(hs)));
  }

  // -- The channel pull request -----------------------------------------------

  function DecodeMsgpackBin(data: Bytes): Bytes {
    var r := Read(data);
    if r.Got? && r.value.Bin? then r.value.bytes else []
  }

  function DecodeChannelPullRequest(data: Bytes): Result<Bytes> {
    if |data| == HASH_LENGTH then Ok(data)
    else
      var hash := DecodeMsgpackBin(data);
      if |hash| != HASH_LENGTH then Err(WrongLength(|hash|)) else Ok(hash)
  }

  /** Both forms of a request name the same channel, and nothing that is not
      16 bytes is ever accepted for one. */
  lemma PullRequestForms(data: Bytes, h: Bytes)
    requires |h| == HASH_LENGTH
    ensures DecodeChannelPullRequest(h) == Ok(h) == DecodeChannelPullRequest(Write(Bin(h)))
    ensures DecodeChannelPullRequest(data).Ok? ==> |DecodeChannelPullRequest(data).value| == HASH_LENGTH
    ensures |data| != 16 ==>
              DecodeChannelPullRequest(data) ==
                if Read(data).Got? && IsHash(Read(data).value) then Ok(Read(data).value.bytes)
                else Err(WrongLength(if Read(data).Got? && Read(data).value.Bin? then |Read(data).value.bytes| else 0))
  {
    WriteReads(Bin(h), []);
    assert Write(Bin(h)) + [] == Write(Bin(h));
  }
}
