/** Big-endian numbers of a fixed width. */
module BigEndian {
  import opened Octets

  function Pow256(w: nat): (r: nat)
    ensures r > 0
  {
    if w == 0 then 1 else 256 * Pow256(w - 1)
  }

  /** The low `w` bytes of `n`. */
  function BE(n: nat, w: nat): (r: Bytes)
    ensures |r| == w
  {
    if w == 0 then [] else BE(n / 256, w - 1) + [(n % 256) as byte]
  }

  function UnBE(bs: Bytes): nat {
    if bs == [] then 0 else UnBE(bs[..|bs| - 1]) * 256 + bs[|bs| - 1] as nat
  }

  lemma {:induction false} ReadsBack(n: nat, w: nat)
    requires n < Pow256(w)
    ensures UnBE(BE(n, w)) == n
  {
    if w > 0 {
      ReadsBack(n / 256, w - 1);
      assert BE(n, w)[..w - 1] == BE(n / 256, w - 1);
    }
  }

  lemma {:induction false} UnBEBound(bs: Bytes)
    ensures UnBE(bs) < Pow256(|bs|)
  {
    if bs != [] {
      UnBEBound(bs[..|bs| - 1]);
    }
  }

  /** And each byte string is the one its number has at that width. */
  lemma {:induction false} WritesBack(bs: Bytes)
    ensures BE(UnBE(bs), |bs|) == bs
  {
    if bs != [] {
      WritesBack(bs[..|bs| - 1]);
      assert bs == bs[..|bs| - 1] + [bs[|bs| - 1]];
    }
  }

  lemma {:induction false} Unpadded(bs: Bytes)
    ensures UnBE([0] + bs) == UnBE(bs)
  {
    if bs == [] {
      assert UnBE([0]) == 0;
    } else {
      var z := [0] + bs;
      Unpadded(bs[..|bs| - 1]);
      assert z[..|z| - 1] == [0] + bs[..|bs| - 1];
    }
  }

  lemma Widths()
    ensures Pow256(1) == 0x100 && Pow256(2) == 0x1_0000 && Pow256(4) == 0x1_0000_0000
    ensures Pow256(8) == 0x1_0000_0000_0000_0000
  {
    assert Pow256(3) == 256 * 0x1_0000;
    assert Pow256(5) == 256 * 0x1_0000_0000;
    assert Pow256(6) == 256 * Pow256(5);
    assert Pow256(7) == 256 * Pow256(6);
  }
}
