/** The `rfed.node` announce payload. A Rust string is a valid UTF-8 byte
    string; both appear here as bytes. */
module Announces {
  import opened Octets
  import opened MessagePack

  const PROTOCOL_VERSION: nat := 1

  datatype NodeAnnounce = NodeAnnounce(displayName: Bytes, stampCost: Option<nat>, protocolVersion: nat)

  predicate Continuation(b: byte) { 0x80 <= b < 0xc0 }

  /** Well-formed UTF-8 (The Unicode Standard, table 3-7). */
  predicate IsUtf8(s: Bytes) {
    if s == [] then true
    else if s[0] < 0x80 then IsUtf8(s[1..])
    else if 0xc2 <= s[0] < 0xe0 then |s| >= 2 && Continuation(s[1]) && IsUtf8(s[2..])
    else if 0xe0 <= s[0] < 0xf0 then
      |s| >= 3 && Continuation(s[1]) && Continuation(s[2]) &&
      (s[0] == 0xe0 ==> s[1] >= 0xa0) && (s[0] == 0xed ==> s[1] < 0xa0) && IsUtf8(s[3..])
    else
      0xf0 <= s[0] < 0xf5 && |s| >= 4 && Continuation(s[1]) && Continuation(s[2]) && Continuation(s[3]) &&
      (s[0] == 0xf0 ==> s[1] >= 0x90) && (s[0] == 0xf4 ==> s[1] < 0x90) && IsUtf8(s[4..])
  }

  // -- UTF-8 ------------------------------------------------------------------

  /** A Unicode scalar value: any code point but the surrogates. */
  predicate Scalar(c: nat) { c < 0xd800 || 0xe000 <= c < 0x11_0000 }

  /** Its bytes, six bits to each after the first. */
  function Encoded(c: nat): Bytes
    requires Scalar(c)
  {
    if c < 0x80 then [c as byte]
    else if c < 0x800 then [(0xc0 + c / 64) as byte, (0x80 + c % 64) as byte]
    else if c < 0x1_0000 then
      [(0xe0 + c / 64 / 64) as byte, (0x80 + c / 64 % 64) as byte, (0x80 + c % 64) as byte]
    else
      [(0xf0 + c / 64 / 64 / 64) as byte, (0x80 + c / 64 / 64 % 64) as byte,
       (0x80 + c / 64 % 64) as byte, (0x80 + c % 64) as byte]
  }

  predicate Scalars(cs: seq<nat>) { forall c :: c in cs ==> Scalar(c) }

  function EncodedAll(cs: seq<nat>): Bytes
    requires Scalars(cs)
  {
    if cs == [] then [] else assert cs[0] in cs; Encoded(cs[0]) + EncodedAll(cs[1..])
  }

  lemma EncodedFirst(c: nat, t: Bytes)
    requires Scalar(c)
    ensures IsUtf8(Encoded(c) + t) == IsUtf8(t)
  {
    var n, s := |Encoded(c)|, Encoded(c) + t;
    assert s[n..] == t;
    assert forall i :: 0 <= i < n ==> s[i] == Encoded(c)[i];
  }

  lemma {:induction false} EncodedIsUtf8(cs: seq<nat>)
    requires Scalars(cs)
    ensures IsUtf8(EncodedAll(cs))
  {
    if cs != [] {
      assert cs[0] in cs;
      EncodedIsUtf8(cs[1..]);
      EncodedFirst(cs[0], EncodedAll(cs[1..]));
    }
  }

  /** The first scalar value of a well-formed string and how long it is. */
  lemma FirstScalar(s: Bytes) returns (c: nat, n: nat)
    requires IsUtf8(s) && s != []
    ensures Scalar(c) && 0 < n <= |s| && Encoded(c) == s[..n] && IsUtf8(s[n..])
  {
    var a := s[0] as nat;
    if a < 0x80 {
      c, n := a, 1;
    } else if a < 0xe0 {
      c, n := SixMore(a - 0xc0, s[1]), 2;
      assert s[..2] == [s[0], s[1]];
    } else if a < 0xf0 {
      c, n := SixMore(SixMore(a - 0xe0, s[1]), s[2]), 3;
      assert s[..3] == [s[0], s[1], s[2]];
    } else {
      c, n := SixMore(SixMore(SixMore(a - 0xf0, s[1]), s[2]), s[3]), 4;
      assert s[..4] == [s[0], s[1], s[2], s[3]];
    }
  }

  /** `c` and six bits more. */
  function SixMore(c: nat, b: byte): (r: nat)
    requires Continuation(b)
    ensures r / 64 == c && r % 64 == b as nat - 0x80
  {
    c * 64 + (b as nat - 0x80)
  }

  /** A byte string is well-formed exactly when it encodes some scalar values. */
  lemma {:induction false} Utf8Exact(s: Bytes)
    ensures IsUtf8(s) <==> exists cs :: Scalars(cs) && EncodedAll(cs) == s
  {
    if cs :| Scalars(cs) && EncodedAll(cs) == s {
      EncodedIsUtf8(cs);
    }
    if IsUtf8(s) {
      var cs := ScalarsOf(s);
    }
  }

  lemma {:induction false} ScalarsOf(s: Bytes) returns (cs: seq<nat>)
    requires IsUtf8(s)
    ensures Scalars(cs) && EncodedAll(cs) == s
    decreases |s|
  {
    cs := [];
    if s != [] {
      var c, n := FirstScalar(s);
      var rest := ScalarsOf(s[n..]);
      cs := [c] + rest;
      assert cs[1..] == rest;
      assert s == s[..n] + s[n..];
    }
  }

  // -- The payload ------------------------------------------------------------

  function NodeAnnounceValue(displayName: Bytes, stampCost: Option<nat>): Value {
    Arr([Bin(displayName), if stampCost.Some? then Int(stampCost.value) else Nil, Int(PROTOCOL_VERSION)])
  }

  function EncodeNodeAnnounce(displayName: Bytes, stampCost: Option<nat>): Bytes {
    Write(NodeAnnounceValue(displayName, stampCost))
  }

  function ItemAt(items: seq<Value>, i: nat): Value { if i < |items| then items[i] else Nil }

  /** An unsigned integer truncated to a machine width. */
  function Unsigned(v: Value, modulus: nat): Option<nat>
    requires modulus > 0
  {
    if v.Int? && v.n >= 0 then Some(v.n % modulus) else None
  }

  function NodeAnnounceIn(v: Value): Option<NodeAnnounce> {
    if !v.Arr? then None
    else
      var name, cost, version := ItemAt(v.items, 0), ItemAt(v.items, 1), ItemAt(v.items, 2);
      Some(NodeAnnounce(
        if (name.Bin? || name.Str?) && IsUtf8(name.bytes) then name.bytes else [],
        Unsigned(cost, 0x1_0000_0000),
        match Unsigned(version, 0x100) { case Some(n) => n case None => 0 }))
  }

  function DecodeNodeAnnounce(data: Bytes): Option<NodeAnnounce> {
    match Read(data)
    case Malformed => None
    case Got(v, _) => NodeAnnounceIn(v)
  }

  /** A node reads from another's announce what was put into it, whatever the
      name and the cost. */
  lemma NodeAnnounceRoundTrip(name: Bytes, cost: Option<nat>)
    requires IsUtf8(name) && |name| < 0x1_0000_0000 && (cost.Some? ==> cost.value < 0x1_0000_0000)
    ensures DecodeNodeAnnounce(EncodeNodeAnnounce(name, cost)) == Some(NodeAnnounce(name, cost, PROTOCOL_VERSION))
  {
    var v := NodeAnnounceValue(name, cost);
    PayloadFits(name, cost);
    WriteReads(v, []);
    assert Write(v) + [] == Write(v);
    PayloadRead(name, cost);
  }

  /** On the wire it is an array of three: the name's bytes, the cost or nil,
      and version 1. */
  lemma AnnounceOnTheWire(name: Bytes, cost: Option<nat>)
    requires |name| < 0x1_0000_0000 && (cost.Some? ==> cost.value < 0x1_0000_0000)
    ensures Read(EncodeNodeAnnounce(name, cost)) ==
            Got(Arr([Bin(name), if cost.Some? then Int(cost.value) else Nil, Int(1)]), [])
  {
    var v := NodeAnnounceValue(name, cost);
    PayloadFits(name, cost);
    WriteReads(v, []);
    assert Write(v) + [] == Write(v);
  }

  /** Whatever array a payload is, it is an announce: a name that is no UTF-8
      is empty, a cost that is no unsigned number is none, a version that is
      none is 0; numbers are cut to 32 and 8 bits, what is missing is nil and
      what follows is ignored. Nothing but an array is one. */
  lemma AnnounceExact(data: Bytes, v: Value, rest: Bytes)
    requires Read(data) == Got(v, rest)
    ensures DecodeNodeAnnounce(data).Some? <==> v.Arr?
    ensures v.Arr? ==>
              var a := DecodeNodeAnnounce(data).value;
              var n := |v.items|;
              a.displayName == (if n > 0 && (v.items[0].Bin? || v.items[0].Str?) && IsUtf8(v.items[0].bytes)
                                then v.items[0].bytes else []) &&
              a.stampCost == (if n > 1 && v.items[1].Int? && v.items[1].n >= 0
                              then Some(v.items[1].n % 0x1_0000_0000) else None) &&
              a.protocolVersion == (if n > 2 && v.items[2].Int? && v.items[2].n >= 0 then v.items[2].n % 256 else 0)
  {}

  lemma PayloadFits(name: Bytes, cost: Option<nat>)
    requires |name| < 0x1_0000_0000 && (cost.Some? ==> cost.value < 0x1_0000_0000)
    ensures Fits(NodeAnnounceValue(name, cost))
  {}

  lemma PayloadRead(name: Bytes, cost: Option<nat>)
    requires IsUtf8(name) && (cost.Some? ==> cost.value < 0x1_0000_0000)
    ensures NodeAnnounceIn(NodeAnnounceValue(name, cost)) == Some(NodeAnnounce(name, cost, PROTOCOL_VERSION))
  {}
}
