/** MessagePack values as the node writes and reads them: nil, booleans,
    integers, byte strings, strings and arrays. Formats and markers are those
    of the MessagePack specification; writing takes the shortest header. */
module MessagePack {
  import opened Octets
  import opened BigEndian

  datatype Value = Nil | Bool(b: bool) | Int(n: int) | Bin(bytes: Bytes) | Str(bytes: Bytes) | Arr(items: seq<Value>)

  // -- Writing ----------------------------------------------------------------

  function WriteInt(n: int): Bytes {
    if n < 0 then
      if n >= -32 then [(n + 256) as byte]
      else if n >= -0x80 then [0xd0] + BE(n + 0x100, 1)
      else if n >= -0x8000 then [0xd1] + BE(n + 0x1_0000, 2)
      else if n >= -0x8000_0000 then [0xd2] + BE(n + 0x1_0000_0000, 4)
      else [0xd3] + BE((n + 0x1_0000_0000_0000_0000) % 0x1_0000_0000_0000_0000, 8)
    else if n < 0x80 then [n as byte]
    else if n < 0x100 then [0xcc] + BE(n, 1)
    else if n < 0x1_0000 then [0xcd] + BE(n, 2)
    else if n < 0x1_0000_0000 then [0xce] + BE(n, 4)
    else [0xcf] + BE(n, 8)
  }

  /** A length is written as a 32-bit number at most. */
  function BinHeader(len: nat): Bytes {
    var n := len % 0x1_0000_0000;
    if n < 0x100 then [0xc4] + BE(n, 1)
    else if n < 0x1_0000 then [0xc5] + BE(n, 2)
    else [0xc6] + BE(n, 4)
  }

  function StrHeader(len: nat): Bytes {
    var n := len % 0x1_0000_0000;
    if n < 32 then [(0xa0 + n) as byte]
    else if n < 0x100 then [0xd9] + BE(n, 1)
    else if n < 0x1_0000 then [0xda] + BE(n, 2)
    else [0xdb] + BE(n, 4)
  }

  function ArrayHeader(len: nat): (r: Bytes)
    ensures 1 <= |r| <= 5
  {
    var n := len % 0x1_0000_0000;
    if n < 16 then [(0x90 + n) as byte]
    else if n < 0x1_0000 then [0xdc] + BE(n, 2)
    else [0xdd] + BE(n, 4)
  }

  function Write(v: Value): (r: Bytes)
    ensures r != []
  {
    match v
    case Nil => [0xc0]
    case Bool(b) => [if b then 0xc3 else 0xc2]
    case Int(n) => WriteInt(n)
    case Bin(bytes) => BinHeader(|bytes|) + bytes
    case Str(bytes) => StrHeader(|bytes|) + bytes
    case Arr(items) => ArrayHeader(|items|) + WriteAll(items)
  }

  function WriteAll(items: seq<Value>): Bytes {
    if items == [] then [] else Write(items[0]) + WriteAll(items[1..])
  }

  // -- Reading ----------------------------------------------------------------

  datatype Reading<T> = Got(value: T, rest: Bytes) | Malformed

  function TakeBytes(len: nat, bs: Bytes): Reading<Bytes> {
    if len <= |bs| then Got(bs[..len], bs[len..]) else Malformed
  }

  function TakeNumber(w: nat, bs: Bytes): (r: Reading<nat>)
    ensures r.Got? ==> |r.rest| + w == |bs| && r.value < Pow256(w)
  {
    if w <= |bs| then UnBEBound(bs[..w]); Got(UnBE(bs[..w]), bs[w..]) else Malformed
  }

  function TakeSigned(w: nat, bs: Bytes): Reading<Value> {
    match TakeNumber(w, bs)
    case Malformed => Malformed
    case Got(n, rest) => Got(Int(if 2 * n < Pow256(w) then n else n - Pow256(w)), rest)
  }

  function TakeUnsigned(w: nat, bs: Bytes): Reading<Value> {
    match TakeNumber(w, bs)
    case Malformed => Malformed
    case Got(n, rest) => Got(Int(n), rest)
  }

  function TakeBin(w: nat, bs: Bytes): Reading<Value> {
    match TakeNumber(w, bs)
    case Malformed => Malformed
    case Got(n, rest) =>
      match TakeBytes(n, rest)
      case Malformed => Malformed
      case Got(body, rest') => Got(Bin(body), rest')
  }

  function TakeStr(len: nat, bs: Bytes): Reading<Value> {
    match TakeBytes(len, bs)
    case Malformed => Malformed
    case Got(body, rest) => Got(Str(body), rest)
  }

  /** What a leading byte announces: a whole value, or how wide a number
      follows it. */
  datatype Format =
    | Whole(value: Value) | FixStr(len: nat) | FixArr(len: nat)
    | UIntOf(w: nat) | SIntOf(w: nat) | BinOf(w: nat) | StrOf(w: nat) | ArrOf(w: nat) | Unread

  /** Maps, floats and extension types are not read. */
  function FormatOf(marker: byte): Format {
    var m := marker as nat;
    if m < 0x80 then Whole(Int(m))
    else if m < 0x90 then Unread
    else if m < 0xa0 then FixArr(m - 0x90)
    else if m < 0xc0 then FixStr(m - 0xa0)
    else if m >= 0xe0 then Whole(Int(m - 0x100))
    else match m
      case 0xc0 => Whole(Nil)
      case 0xc2 => Whole(Bool(false))
      case 0xc3 => Whole(Bool(true))
      case 0xc4 => BinOf(1)
      case 0xc5 => BinOf(2)
      case 0xc6 => BinOf(4)
      case 0xcc => UIntOf(1)
      case 0xcd => UIntOf(2)
      case 0xce => UIntOf(4)
      case 0xcf => UIntOf(8)
      case 0xd0 => SIntOf(1)
      case 0xd1 => SIntOf(2)
      case 0xd2 => SIntOf(4)
      case 0xd3 => SIntOf(8)
      case 0xd9 => StrOf(1)
      case 0xda => StrOf(2)
      case 0xdb => StrOf(4)
      case 0xdc => ArrOf(2)
      case 0xdd => ArrOf(4)
      case _ => Unread
  }

  /** One value off the front. */
  function Read(bs: Bytes): (r: Reading<Value>)
    ensures r.Got? ==> |r.rest| < |bs|
    decreases |bs|, 0
  {
    if bs == [] then Malformed
    else
      var t := bs[1..];
      match FormatOf(bs[0])
      case Whole(v) => Got(v, t)
      case FixStr(n) => TakeStr(n, t)
      case FixArr(n) => ReadArr(n, t)
      case UIntOf(w) => TakeUnsigned(w, t)
      case SIntOf(w) => TakeSigned(w, t)
      case BinOf(w) => TakeBin(w, t)
      case StrOf(w) => ReadStr(w, t)
      case ArrOf(w) => ReadLongArr(w, t)
      case Unread => Malformed
  }

  function ReadStr(w: nat, bs: Bytes): (r: Reading<Value>)
    ensures r.Got? ==> |r.rest| <= |bs|
  {
    match TakeNumber(w, bs)
    case Malformed => Malformed
    case Got(n, rest) => TakeStr(n, rest)
  }

  function ReadLongArr(w: nat, bs: Bytes): (r: Reading<Value>)
    ensures r.Got? ==> |r.rest| <= |bs|
    decreases |bs|, 0x1_0000_0000_0000_0000 + Pow256(w)
  {
    match TakeNumber(w, bs)
    case Malformed => Malformed
    case Got(n, rest) => ReadArr(n, rest)
  }

  function ReadArr(n: nat, bs: Bytes): (r: Reading<Value>)
    ensures r.Got? ==> |r.rest| <= |bs|
    decreases |bs|, n + 2
  {
    match ReadMany(n, bs)
    case Malformed => Malformed
    case Got(items, rest) => Got(Arr(items), rest)
  }

  function ReadMany(n: nat, bs: Bytes): (r: Reading<seq<Value>>)
    ensures r.Got? ==> |r.rest| <= |bs| && |r.value| == n
    decreases |bs|, n + 1
  {
    if n == 0 then Got([], bs)
    else
      match Read(bs)
      case Malformed => Malformed
      case Got(v, rest) =>
        match ReadMany(n - 1, rest)
        case Malformed => Malformed
        case Got(vs, rest') => Got([v] + vs, rest')
  }

  // -- Reading inverts writing ------------------------------------------------

  /** What the format can carry: 64-bit integers, lengths of 32 bits. */
  predicate Fits(v: Value) {
    match v
    case Int(n) => -0x8000_0000_0000_0000 <= n < 0x1_0000_0000_0000_0000
    case Bin(bytes) => |bytes| < 0x1_0000_0000
    case Str(bytes) => |bytes| < 0x1_0000_0000
    case Arr(items) => |items| < 0x1_0000_0000 && forall i :: 0 <= i < |items| ==> Fits(items[i])
    case _ => true
  }

  lemma NumberReads(n: nat, w: nat, rest: Bytes)
    requires n < Pow256(w)
    ensures TakeNumber(w, BE(n, w) + rest) == Got(n, rest)
  {
    ReadsBack(n, w);
    assert (BE(n, w) + rest)[..w] == BE(n, w) && (BE(n, w) + rest)[w..] == rest;
  }

  lemma BytesRead(b: Bytes, rest: Bytes)
    ensures TakeBytes(|b|, b + rest) == Got(b, rest)
  {
    assert (b + rest)[..|b|] == b && (b + rest)[|b|..] == rest;
  }

  lemma Headed(m: byte, b: Bytes)
    ensures var bs := [m] + b; bs != [] && bs[0] == m && bs[1..] == b
  {}

  function LengthWidth(n: nat): nat { if n < 0x100 then 1 else if n < 0x1_0000 then 2 else 4 }

  lemma UIntReads(m: byte, n: nat, w: nat, rest: Bytes)
    requires FormatOf(m) == UIntOf(w) && n < Pow256(w)
    ensures Read([m] + (BE(n, w) + rest)) == Got(Int(n), rest)
  {
    NumberReads(n, w, rest);
    Headed(m, BE(n, w) + rest);
  }

  lemma SignedReads(n: int, w: nat, rest: Bytes)
    requires n < 0 && 2 * n + Pow256(w) >= 0
    ensures TakeSigned(w, BE(n + Pow256(w), w) + rest) == Got(Int(n), rest)
  {
    NumberReads(n + Pow256(w), w, rest);
  }

  lemma SIntReads(m: byte, n: int, w: nat, rest: Bytes)
    requires FormatOf(m) == SIntOf(w) && n < 0 && 2 * n + Pow256(w) >= 0
    ensures Read([m] + (BE(n + Pow256(w), w) + rest)) == Got(Int(n), rest)
  {
    SignedReads(n, w, rest);
    Headed(m, BE(n + Pow256(w), w) + rest);
  }

  lemma Shift(m: byte, b: Bytes, rest: Bytes)
    ensures ([m] + b) + rest == [m] + (b + rest)
  {}

  lemma IntReads(n: int, rest: Bytes)
    requires Fits(Int(n))
    ensures Read(WriteInt(n) + rest) == Got(Int(n), rest)
  {
    Widths();
    var m := WriteInt(n)[0];
    if n < -32 {
      var w := if n >= -0x80 then 1 else if n >= -0x8000 then 2 else if n >= -0x8000_0000 then 4 else 8;
      assert WriteInt(n) == [m] + BE(n + Pow256(w), w);
      Shift(m, BE(n + Pow256(w), w), rest);
      SIntReads(m, n, w, rest);
    } else if n >= 0x80 {
      var w := if n < 0x100 then 1 else if n < 0x1_0000 then 2 else if n < 0x1_0000_0000 then 4 else 8;
      assert WriteInt(n) == [m] + BE(n, w);
      Shift(m, BE(n, w), rest);
      UIntReads(m, n, w, rest);
    } else {
      Headed(m, rest);
      assert WriteInt(n) + rest == [m] + rest;
    }
  }

  lemma BinBodyReads(w: nat, b: Bytes, rest: Bytes)
    requires |b| < Pow256(w)
    ensures TakeBin(w, BE(|b|, w) + (b + rest)) == Got(Bin(b), rest)
  {
    NumberReads(|b|, w, b + rest);
    BytesRead(b, rest);
  }

  lemma BinReads(b: Bytes, rest: Bytes)
    requires |b| < 0x1_0000_0000
    ensures Read(BinHeader(|b|) + (b + rest)) == Got(Bin(b), rest)
  {
    Widths();
    var w, m := LengthWidth(|b|), BinHeader(|b|)[0];
    assert FormatOf(m) == BinOf(w) && BinHeader(|b|) == [m] + BE(|b|, w);
    BinBodyReads(w, b, rest);
    Shift(m, BE(|b|, w), b + rest);
    Headed(m, BE(|b|, w) + (b + rest));
  }

  lemma StrBodyReads(w: nat, b: Bytes, rest: Bytes)
    requires |b| < Pow256(w)
    ensures ReadStr(w, BE(|b|, w) + (b + rest)) == Got(Str(b), rest)
  {
    NumberReads(|b|, w, b + rest);
    BytesRead(b, rest);
  }

  lemma StrReads(b: Bytes, rest: Bytes)
    requires |b| < 0x1_0000_0000
    ensures Read(StrHeader(|b|) + (b + rest)) == Got(Str(b), rest)
  {
    Widths();
    var w, m := LengthWidth(|b|), StrHeader(|b|)[0];
    if |b| < 32 {
      assert FormatOf(m) == FixStr(|b|);
      BytesRead(b, rest);
      Headed(m, b + rest);
    } else {
      assert FormatOf(m) == StrOf(w) && StrHeader(|b|) == [m] + BE(|b|, w);
      StrBodyReads(w, b, rest);
      Shift(m, BE(|b|, w), b + rest);
      Headed(m, BE(|b|, w) + (b + rest));
    }
  }

  lemma LongArrayReads(n: nat, w: nat, body: Bytes)
    requires n < Pow256(w)
    ensures ReadLongArr(w, BE(n, w) + body) == ReadArr(n, body)
  {
    NumberReads(n, w, body);
  }

  lemma ArrayReads(n: nat, body: Bytes)
    requires n < 0x1_0000_0000
    ensures Read(ArrayHeader(n) + body) == ReadArr(n, body)
  {
    Widths();
    var m := ArrayHeader(n)[0];
    if n < 16 {
      assert FormatOf(m) == FixArr(n);
      Headed(m, body);
    } else {
      var w := if n < 0x1_0000 then 2 else 4;
      assert FormatOf(m) == ArrOf(w) && ArrayHeader(n) == [m] + BE(n, w);
      LongArrayReads(n, w, body);
      Shift(m, BE(n, w), body);
      Headed(m, BE(n, w) + body);
    }
  }

  lemma ConstantReads(v: Value, m: byte, rest: Bytes)
    requires FormatOf(m) == Whole(v)
    ensures Read([m] + rest) == Got(v, rest)
  {
    Headed(m, rest);
  }

  lemma Onward(whole: Bytes, head: Bytes, body: Bytes, rest: Bytes)
    requires whole == head + body
    ensures whole + rest == head + (body + rest)
  {}

  lemma BinValueReads(b: Bytes, rest: Bytes)
    requires |b| < 0x1_0000_0000
    ensures Read(Write(Bin(b)) + rest) == Got(Bin(b), rest)
  {
    BinReads(b, rest);
    Onward(Write(Bin(b)), BinHeader(|b|), b, rest);
  }

  lemma StrValueReads(b: Bytes, rest: Bytes)
    requires |b| < 0x1_0000_0000
    ensures Read(Write(Str(b)) + rest) == Got(Str(b), rest)
  {
    StrReads(b, rest);
    Onward(Write(Str(b)), StrHeader(|b|), b, rest);
  }

  lemma LeafReads(v: Value, rest: Bytes)
    requires Fits(v) && !v.Arr?
    ensures Read(Write(v) + rest) == Got(v, rest)
  {
    match v
    case Nil => ConstantReads(v, 0xc0, rest);
    case Bool(b) => ConstantReads(v, if b then 0xc3 else 0xc2, rest);
    case Int(n) => IntReads(n, rest);
    case Bin(b) => BinValueReads(b, rest);
    case Str(b) => StrValueReads(b, rest);
  }

  lemma ItemsMakeArr(n: nat, bs: Bytes, items: seq<Value>, rest: Bytes)
    requires ReadMany(n, bs) == Got(items, rest)
    ensures ReadArr(n, bs) == Got(Arr(items), rest)
  {}

  lemma ArrShift(items: seq<Value>, rest: Bytes)
    ensures Write(Arr(items)) + rest == ArrayHeader(|items|) + (WriteAll(items) + rest)
  {}

  lemma ArrReads(items: seq<Value>, rest: Bytes)
    requires |items| < 0x1_0000_0000 && ReadMany(|items|, WriteAll(items) + rest) == Got(items, rest)
    ensures Read(Write(Arr(items)) + rest) == Got(Arr(items), rest)
  {
    var body := WriteAll(items) + rest;
    ItemsMakeArr(|items|, body, items, rest);
    ArrayReads(|items|, body);
    ArrShift(items, rest);
  }

  /** Reading what was written gives the value back and leaves what follows. */
  lemma {:induction false} WriteReads(v: Value, rest: Bytes)
    requires Fits(v)
    ensures Read(Write(v) + rest) == Got(v, rest)
    decreases v
  {
    if v.Arr? {
      WriteAllReads(v.items, rest);
      ArrReads(v.items, rest);
    } else {
      LeafReads(v, rest);
    }
  }

  lemma OneMoreReads(v: Value, vs: seq<Value>, bs: Bytes, tail: Bytes, rest: Bytes)
    requires Read(bs) == Got(v, tail) && ReadMany(|vs|, tail) == Got(vs, rest)
    ensures ReadMany(|vs| + 1, bs) == Got([v] + vs, rest)
  {}

  lemma WriteAllCons(items: seq<Value>, rest: Bytes)
    requires items != []
    ensures WriteAll(items) + rest == Write(items[0]) + (WriteAll(items[1..]) + rest)
  {}

  lemma {:induction false} WriteAllReads(items: seq<Value>, rest: Bytes)
    requires forall i :: 0 <= i < |items| ==> Fits(items[i])
    ensures ReadMany(|items|, WriteAll(items) + rest) == Got(items, rest)
    decreases items
  {
    if items == [] {
      assert WriteAll(items) + rest == rest;
    } else {
      var v, vs := items[0], items[1..];
      var tail := WriteAll(vs) + rest;
      WriteReads(v, tail);
      WriteAllReads(vs, rest);
      WriteAllCons(items, rest);
      OneMoreReads(v, vs, WriteAll(items) + rest, tail, rest);
      assert items == [v] + vs;
    }
  }

  /** So no written message is another's prefix, and none has two readings. */
  lemma PrefixFree(v: Value, x: Bytes, w: Value, y: Bytes)
    requires Fits(v) && Fits(w) && Write(v) + x == Write(w) + y
    ensures v == w && x == y
  {
    WriteReads(v, x);
    WriteReads(w, y);
  }
}
