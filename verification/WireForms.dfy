/** The forms of the MessagePack specification, byte by byte: what a reader
    makes of each marker, and that writing takes the shortest. */
module WireForms {
  import opened Octets
  import opened BigEndian
  import opened MessagePack

  /** The number of a byte string: its most significant byte comes first. */
  lemma {:induction false} MostSignificantFirst(b: byte, bs: Bytes)
    ensures UnBE([b] + bs) == b as nat * Pow256(|bs|) + UnBE(bs)
  {
    if bs == [] {
      assert [b][..0] == [];
    } else {
      var init, whole := bs[..|bs| - 1], [b] + bs;
      MostSignificantFirst(b, init);
      assert whole[..|whole| - 1] == [b] + init;
    }
  }

  lemma TakesNumber(bs: Bytes, rest: Bytes)
    ensures TakeNumber(|bs|, bs + rest) == Got(UnBE(bs), rest)
  {
    assert (bs + rest)[..|bs|] == bs && (bs + rest)[|bs|..] == rest;
    UnBEBound(bs);
  }

  function TwosComplement(bs: Bytes): int {
    if 2 * UnBE(bs) < Pow256(|bs|) then UnBE(bs) else UnBE(bs) - Pow256(|bs|)
  }

  /** Nil, booleans and the small integers are one byte. */
  lemma OneByteForms(m: byte, rest: Bytes)
    ensures Read([0xc0] + rest) == Got(Nil, rest)
    ensures Read([0xc2] + rest) == Got(Bool(false), rest) && Read([0xc3] + rest) == Got(Bool(true), rest)
    ensures m < 0x80 ==> Read([m] + rest) == Got(Int(m as int), rest)
    ensures m >= 0xe0 ==> Read([m] + rest) == Got(Int(m as int - 256), rest)
  {
    Headed(0xc0, rest);
    Headed(0xc2, rest);
    Headed(0xc3, rest);
    Headed(m, rest);
  }

  lemma UnsignedForm(m: byte, bs: Bytes, rest: Bytes)
    requires FormatOf(m) == UIntOf(|bs|)
    ensures Read([m] + (bs + rest)) == Got(Int(UnBE(bs)), rest)
  {
    Headed(m, bs + rest);
    TakesNumber(bs, rest);
  }

  lemma SignedForm(m: byte, bs: Bytes, rest: Bytes)
    requires FormatOf(m) == SIntOf(|bs|)
    ensures Read([m] + (bs + rest)) == Got(Int(TwosComplement(bs)), rest)
  {
    Headed(m, bs + rest);
    TakesNumber(bs, rest);
  }

  /** Other integers: a marker, then 1, 2, 4 or 8 bytes. */
  lemma IntegerForms(bs: Bytes, rest: Bytes)
    ensures |bs| == 1 ==> Read([0xcc] + (bs + rest)) == Got(Int(UnBE(bs)), rest)
    ensures |bs| == 2 ==> Read([0xcd] + (bs + rest)) == Got(Int(UnBE(bs)), rest)
    ensures |bs| == 4 ==> Read([0xce] + (bs + rest)) == Got(Int(UnBE(bs)), rest)
    ensures |bs| == 8 ==> Read([0xcf] + (bs + rest)) == Got(Int(UnBE(bs)), rest)
    ensures |bs| == 1 ==> Read([0xd0] + (bs + rest)) == Got(Int(TwosComplement(bs)), rest)
    ensures |bs| == 2 ==> Read([0xd1] + (bs + rest)) == Got(Int(TwosComplement(bs)), rest)
    ensures |bs| == 4 ==> Read([0xd2] + (bs + rest)) == Got(Int(TwosComplement(bs)), rest)
    ensures |bs| == 8 ==> Read([0xd3] + (bs + rest)) == Got(Int(TwosComplement(bs)), rest)
  {
    if |bs| == 1 {
      UnsignedForm(0xcc, bs, rest);
      SignedForm(0xd0, bs, rest);
    } else if |bs| == 2 {
      UnsignedForm(0xcd, bs, rest);
      SignedForm(0xd1, bs, rest);
    } else if |bs| == 4 {
      UnsignedForm(0xce, bs, rest);
      SignedForm(0xd2, bs, rest);
    } else if |bs| == 8 {
      UnsignedForm(0xcf, bs, rest);
      SignedForm(0xd3, bs, rest);
    }
  }

  lemma BinForm(m: byte, bs: Bytes, body: Bytes, rest: Bytes)
    requires FormatOf(m) == BinOf(|bs|) && UnBE(bs) == |body|
    ensures Read([m] + (bs + (body + rest))) == Got(Bin(body), rest)
  {
    Headed(m, bs + (body + rest));
    TakesNumber(bs, body + rest);
    BytesRead(body, rest);
  }

  lemma StrForm(m: byte, bs: Bytes, body: Bytes, rest: Bytes)
    requires FormatOf(m) == StrOf(|bs|) && UnBE(bs) == |body|
    ensures Read([m] + (bs + (body + rest))) == Got(Str(body), rest)
  {
    Headed(m, bs + (body + rest));
    TakesNumber(bs, body + rest);
    BytesRead(body, rest);
  }

  /** Byte strings and strings: a marker, a length of 1, 2 or 4 bytes, the
      bytes; a string of up to 31 bytes has its length in the marker. */
  lemma StringForms(bs: Bytes, body: Bytes, rest: Bytes)
    requires UnBE(bs) == |body|
    ensures |bs| == 1 ==> Read([0xc4] + (bs + (body + rest))) == Got(Bin(body), rest)
    ensures |bs| == 2 ==> Read([0xc5] + (bs + (body + rest))) == Got(Bin(body), rest)
    ensures |bs| == 4 ==> Read([0xc6] + (bs + (body + rest))) == Got(Bin(body), rest)
    ensures |bs| == 1 ==> Read([0xd9] + (bs + (body + rest))) == Got(Str(body), rest)
    ensures |bs| == 2 ==> Read([0xda] + (bs + (body + rest))) == Got(Str(body), rest)
    ensures |bs| == 4 ==> Read([0xdb] + (bs + (body + rest))) == Got(Str(body), rest)
    ensures |body| < 32 ==> Read([(0xa0 + |body|) as byte] + (body + rest)) == Got(Str(body), rest)
  {
    if |bs| == 1 {
      BinForm(0xc4, bs, body, rest);
      StrForm(0xd9, bs, body, rest);
    } else if |bs| == 2 {
      BinForm(0xc5, bs, body, rest);
      StrForm(0xda, bs, body, rest);
    } else if |bs| == 4 {
      BinForm(0xc6, bs, body, rest);
      StrForm(0xdb, bs, body, rest);
    }
    if |body| < 32 {
      ShortStringForm(body, rest);
    }
  }

  lemma ShortStringForm(body: Bytes, rest: Bytes)
    requires |body| < 32
    ensures Read([(0xa0 + |body|) as byte] + (body + rest)) == Got(Str(body), rest)
  {
    Headed((0xa0 + |body|) as byte, body + rest);
    BytesRead(body, rest);
  }

  lemma ArrayForm(m: byte, bs: Bytes, items: Bytes)
    requires FormatOf(m) == ArrOf(|bs|)
    ensures Read([m] + (bs + items)) == ReadArr(UnBE(bs), items)
  {
    Headed(m, bs + items);
    TakesNumber(bs, items);
  }

  /** Arrays: a marker and a length of 2 or 4 bytes, up to 15 items' length in
      the marker, then so many values one after another. */
  lemma ArrayForms(n: nat, bs: Bytes, items: Bytes)
    ensures n < 16 ==> Read([(0x90 + n) as byte] + items) == ReadArr(n, items)
    ensures |bs| == 2 ==> Read([0xdc] + (bs + items)) == ReadArr(UnBE(bs), items)
    ensures |bs| == 4 ==> Read([0xdd] + (bs + items)) == ReadArr(UnBE(bs), items)
  {
    if n < 16 {
      Headed((0x90 + n) as byte, items);
    }
    if |bs| == 2 {
      ArrayForm(0xdc, bs, items);
    } else if |bs| == 4 {
      ArrayForm(0xdd, bs, items);
    }
  }

  /** Writing takes as few bytes as any form has for the value. */
  lemma ShortestForms(n: int, b: Bytes)
    requires Fits(Int(n)) && |b| < 0x1_0000_0000
    ensures |WriteInt(n)| == if -32 <= n < 128 then 1 else if -128 <= n < 256 then 2
                             else if -0x8000 <= n < 0x1_0000 then 3
                             else if -0x8000_0000 <= n < 0x1_0000_0000 then 5 else 9
    ensures |Write(Bin(b))| == |b| + if |b| < 256 then 2 else if |b| < 0x1_0000 then 3 else 5
    ensures |Write(Str(b))| == |b| + if |b| < 32 then 1 else if |b| < 256 then 2 else if |b| < 0x1_0000 then 3 else 5
  {}
}
