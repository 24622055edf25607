/** An ECDSA signature taken out of its DER form (section 8.3 of X.690) into
    the fixed 64 bytes of section 3.4 of RFC 7518. */
module DerSignature {
  import opened Octets
  import opened BigEndian

  datatype Outcome<+T> = Returned(value: T) | AssertionFailed | IndexOutOfRange

  /** Python's `b[i:j]`: bounds past the end are cut back to it. */
  function Slice(b: Bytes, i: nat, j: nat): Bytes
    requires i <= j
  {
    b[Min(i, |b|)..Min(j, |b|)]
  }

  function Zeros(n: nat): (r: Bytes)
    ensures |r| == n
  {
    if n == 0 then [] else [0] + Zeros(n - 1)
  }

  /** Python's `rjust(size, b"\x00")`. */
  function PadLeft(b: Bytes, size: nat): Bytes { if |b| < size then Zeros(size - |b|) + b else b }

  /** The value without its sign padding, to `size` bytes. */
  function Fixed(val: Bytes, size: nat): Bytes {
    PadLeft(if |val| > size && val[0] == 0 then val[1..] else val, size)
  }

  function ReadInt(der: Bytes, pos: nat, size: nat): Outcome<(Bytes, nat)> {
    if pos >= |der| then IndexOutOfRange
    else if der[pos] != 0x02 then AssertionFailed
    else if pos + 1 >= |der| then IndexOutOfRange
    else
      var length := der[pos + 1] as nat;
      var val := Slice(der, pos + 2, pos + 2 + length);
      Returned((Fixed(val, size), pos + 2 + length))
  }

  /** The two integers of a signature, `size` bytes each. */
  function RawOf(der: Bytes, size: nat): Outcome<Bytes> {
    if der == [] then IndexOutOfRange
    else if der[0] != 0x30 then AssertionFailed
    else if |der| < 2 then IndexOutOfRange
    else
      var skip := if der[1] >= 0x80 then der[1] as nat - 0x80 else 0;
      match ReadInt(der, 2 + skip, size)
      case AssertionFailed => AssertionFailed
      case IndexOutOfRange => IndexOutOfRange
      case Returned((r, offset)) =>
        match ReadInt(der, offset, size)
        case AssertionFailed => AssertionFailed
        case IndexOutOfRange => IndexOutOfRange
        case Returned((s, _)) => Returned(r + s)
  }

  function DerEcdsaToRaw(der: Bytes): Outcome<Bytes> { RawOf(der, 32) }

  // -- The DER form -----------------------------------------------------------

  /** The fewest bytes, from `w` up, that hold `n` with a clear sign bit. */
  function IntWidth(n: nat, w: nat): (r: nat)
    requires w >= 1
    ensures r >= w && n < 128 * Pow256(r - 1)
    ensures r > w ==> n >= 128 * Pow256(r - 2)
    decreases n - w
  {
    PowGrows(w);
    if n < 128 * Pow256(w - 1) then w else IntWidth(n, w + 1)
  }

  lemma {:induction false} PowGrows(w: nat)
    requires w >= 1
    ensures w < 128 * Pow256(w - 1)
  {
    if w > 1 { PowGrows(w - 1); }
  }

  /** The content of a minimal INTEGER. */
  function DerContent(n: nat): Bytes { BE(n, IntWidth(n, 1)) }

  function DerInteger(n: nat): Bytes
    requires |DerContent(n)| < 0x80
  {
    [0x02, |DerContent(n)| as byte] + DerContent(n)
  }

  lemma {:induction false} PowMonotone(v: nat, w: nat)
    requires v <= w
    ensures Pow256(v) <= Pow256(w)
    decreases w
  {
    if v < w { PowMonotone(v, w - 1); }
  }

  lemma ContentWidth(n: nat, size: nat)
    requires n < Pow256(size)
    ensures 1 <= |DerContent(n)| <= size + 1
  {
    var w := IntWidth(n, 1);
    if w > size + 1 {
      PowMonotone(size, w - 2);
      assert false;
    }
  }

  lemma {:induction false} ZerosCount(m: nat, bs: Bytes)
    ensures UnBE(Zeros(m) + bs) == UnBE(bs)
  {
    if m == 0 {
      assert Zeros(0) + bs == bs;
    } else {
      ZerosCount(m - 1, bs);
      Unpadded(Zeros(m - 1) + bs);
      assert Zeros(m) + bs == [0] + (Zeros(m - 1) + bs);
    }
  }

  /** A number at a greater width is the same bytes after zeros. */
  lemma Widened(n: nat, v: nat, w: nat)
    requires v <= w && n < Pow256(v)
    ensures BE(n, w) == Zeros(w - v) + BE(n, v)
  {
    ReadsBack(n, v);
    ZerosCount(w - v, BE(n, v));
    WritesBack(Zeros(w - v) + BE(n, v));
  }

  lemma ContentFits(n: nat)
    ensures n < Pow256(IntWidth(n, 1))
  {
    var w := IntWidth(n, 1);
    assert Pow256(w) == 256 * Pow256(w - 1);
  }

  lemma FixedWidth(n: nat, size: nat)
    requires n < Pow256(size)
    ensures 1 <= |DerContent(n)| <= size + 1 && Fixed(DerContent(n), size) == BE(n, size)
  {
    ContentWidth(n, size);
    ContentFits(n);
    var w := IntWidth(n, 1);
    if w == size + 1 {
      Widened(n, size, w);
      assert Zeros(1) == [0];
    } else {
      Widened(n, w, size);
      assert Zeros(0) + BE(n, w) == BE(n, w);
    }
  }

  /** An INTEGER of content `c` at `pos`. */
  lemma ContentRead(der: Bytes, pos: nat, c: Bytes, size: nat)
    requires |c| < 0x80 && pos + 2 + |c| <= |der|
    requires der[pos..pos + 2] == [0x02, |c| as byte] && der[pos + 2..pos + 2 + |c|] == c
    ensures ReadInt(der, pos, size) == Returned((Fixed(c, size), pos + 2 + |c|))
  {
    assert der[pos] == der[pos..pos + 2][0] && der[pos + 1] == der[pos..pos + 2][1];
  }

  lemma Between(a: Bytes, b: Bytes, c: Bytes)
    ensures (a + b + c)[|a|..|a| + |b|] == b
  {}

  lemma ContentReadBetween(before: Bytes, c: Bytes, after: Bytes, size: nat)
    requires |c| < 0x80
    ensures var tag: Bytes := [0x02, |c| as byte];
            ReadInt(before + (tag + c) + after, |before|, size) == Returned((Fixed(c, size), |before + (tag + c)|))
  {
    var tag: Bytes := [0x02, |c| as byte];
    var der := before + (tag + c) + after;
    assert der == before + tag + (c + after) == (before + tag) + c + after;
    Between(before, tag, c + after);
    Between(before + tag, c, after);
    ContentRead(der, |before|, c, size);
  }

  lemma IntegerReads(before: Bytes, n: nat, after: Bytes, size: nat)
    requires n < Pow256(size) && size < 0x7f
    ensures |DerContent(n)| < 0x80
    ensures ReadInt(before + DerInteger(n) + after, |before|, size) == Returned((BE(n, size), |before + DerInteger(n)|))
  {
    FixedWidth(n, size);
    ContentReadBetween(before, DerContent(n), after, size);
  }

  /** Fixing the width keeps the number: zeros come or go in front, one at most
      is taken off. */
  lemma FixedKeepsNumber(val: Bytes, size: nat)
    ensures UnBE(Fixed(val, size)) == UnBE(val)
    ensures |val| <= size || (|val| == size + 1 && val[0] == 0) ==> |Fixed(val, size)| == size
    ensures |val| > size && val[0] != 0 ==> Fixed(val, size) == val
  {
    var cut := if |val| > size && val[0] == 0 then val[1..] else val;
    if cut != val {
      assert val == [0] + cut;
      Unpadded(cut);
    }
    ZerosCount(size - Min(|cut|, size), cut);
  }

  /** Bytes no signature starts with, and one that ends too soon. */
  lemma Refusals(der: Bytes)
    ensures der == [] || der == [0x30] ==> DerEcdsaToRaw(der) == IndexOutOfRange
    ensures der != [] && der[0] != 0x30 ==> DerEcdsaToRaw(der) == AssertionFailed
    ensures |der| >= 2 && der[0] == 0x30 ==>
              var start := 2 + if der[1] >= 0x80 then der[1] as nat - 0x80 else 0;
              (start >= |der| || der[start..] == [0x02] ==> DerEcdsaToRaw(der) == IndexOutOfRange) &&
              (start < |der| && der[start] != 0x02 ==> DerEcdsaToRaw(der) == AssertionFailed)
  {
    if |der| >= 2 && der[0] == 0x30 {
      var start := 2 + if der[1] >= 0x80 then der[1] as nat - 0x80 else 0;
      assert start < |der| ==> der[start] == der[start..][0] && |der[start..]| == |der| - start;
    }
  }

  /** A signature's two integers after a SEQUENCE header: the short form, or
      the long form with any length octets. */
  predicate SequenceHeader(h: Bytes) {
    |h| >= 2 && h[0] == 0x30 && (if h[1] < 0x80 then |h| == 2 else |h| == 2 + h[1] as nat - 0x80)
  }

  lemma RawFromParts(der: Bytes, start: nat, middle: nat, end: nat, size: nat, r: Bytes, s: Bytes)
    requires start <= |der| && SequenceHeader(der[..start])
    requires ReadInt(der, start, size) == Returned((r, middle)) && ReadInt(der, middle, size) == Returned((s, end))
    ensures RawOf(der, size) == Returned(r + s)
  {
    assert der[0] == der[..start][0] && der[1] == der[..start][1];
  }

  lemma LastIntegerReads(before: Bytes, n: nat, size: nat)
    requires n < Pow256(size) && size < 0x7f
    ensures |DerContent(n)| < 0x80
    ensures ReadInt(before + DerInteger(n), |before|, size) == Returned((BE(n, size), |before + DerInteger(n)|))
  {
    IntegerReads(before, n, [], size);
    assert before + DerInteger(n) + [] == before + DerInteger(n);
  }

  lemma ContentShort(n: nat, size: nat)
    requires n < Pow256(size) && size < 0x7f
    ensures |DerContent(n)| < 0x80
  {
    ContentWidth(n, size);
  }

  /** Both numbers come out `size` bytes wide, sign padding stripped and
      leading zeros put back. */
  lemma PairConverts(h: Bytes, r: nat, s: nat, size: nat)
    requires SequenceHeader(h) && r < Pow256(size) && s < Pow256(size) && size < 0x7f
    ensures |DerContent(r)| < 0x80 && |DerContent(s)| < 0x80
    ensures RawOf(h + DerInteger(r) + DerInteger(s), size) == Returned(BE(r, size) + BE(s, size))
  {
    ContentShort(r, size);
    ContentShort(s, size);
    var a, b := DerInteger(r), DerInteger(s);
    IntegerReads(h, r, b, size);
    LastIntegerReads(h + a, s, size);
    HeaderFirst(h, a, b);
    RawFromParts(h + a + b, |h|, |h + a|, |h + a + b|, size, BE(r, size), BE(s, size));
  }

  lemma HeaderFirst(h: Bytes, a: Bytes, b: Bytes)
    ensures (h + a + b)[..|h|] == h
  {}

  /** An elliptic-curve signature over a 256-bit order, under any header. */
  lemma SignatureConverts(h: Bytes, r: nat, s: nat)
    requires SequenceHeader(h) && r < Pow256(32) && s < Pow256(32)
    ensures |DerContent(r)| < 0x80 && |DerContent(s)| < 0x80
    ensures DerEcdsaToRaw(h + DerInteger(r) + DerInteger(s)) == Returned(BE(r, 32) + BE(s, 32))
  {
    PairConverts(h, r, s, 32);
  }

  /** Byte by byte, whatever the two contents are: a SEQUENCE, and in it twice
      an INTEGER's tag, length and content. */
  lemma ContentsConvert(length: byte, c: Bytes, d: Bytes)
    requires length < 0x80 && |c| < 0x80 && |d| < 0x80
    ensures DerEcdsaToRaw([0x30, length] + ([0x02, |c| as byte] + c) + ([0x02, |d| as byte] + d)) ==
            Returned(Fixed(c, 32) + Fixed(d, 32))
  {
    var h: Bytes, a: Bytes, b: Bytes := [0x30, length], [0x02, |c| as byte] + c, [0x02, |d| as byte] + d;
    ContentReadBetween(h, c, b, 32);
    ContentReadBetween(h + a, d, [], 32);
    assert h + a + b + [] == h + a + b;
    HeaderFirst(h, a, b);
    RawFromParts(h + a + b, |h|, |h + a|, |h + a + b|, 32, Fixed(c, 32), Fixed(d, 32));
  }

  /** The standard's form: one SEQUENCE, its length in the short form. */
  function DerSignatureOf(r: nat, s: nat): Bytes
    requires |DerContent(r)| < 0x3e && |DerContent(s)| < 0x3e
  {
    [0x30, (|DerInteger(r)| + |DerInteger(s)|) as byte] + DerInteger(r) + DerInteger(s)
  }

  lemma StandardSignatureConverts(r: nat, s: nat)
    requires r < Pow256(32) && s < Pow256(32)
    ensures |DerContent(r)| <= 33 && |DerContent(s)| <= 33
    ensures DerEcdsaToRaw(DerSignatureOf(r, s)) == Returned(BE(r, 32) + BE(s, 32))
  {
    ContentWidth(r, 32);
    ContentWidth(s, 32);
    SignatureConverts([0x30, (|DerInteger(r)| + |DerInteger(s)|) as byte], r, s);
  }
}
