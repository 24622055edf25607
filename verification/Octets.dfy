/** Byte strings: hashes, blobs, names and encoded messages are all of them. */
module Octets {
  newtype byte = x: int | 0 <= x < 256

  type Bytes = seq<byte>

  datatype Option<+T> = None | Some(value: T)

  function Min(a: nat, b: nat): nat {
    if a <= b then a else b
  }

  /** The order of Rust's `Ord` on byte vectors: lexicographic, a proper
      prefix first. */
  predicate Less(a: Bytes, b: Bytes) {
    b != [] && (a == [] || a[0] < b[0] || (a[0] == b[0] && Less(a[1..], b[1..])))
  }

  /** `b` stands behind `a` where they first differ, or goes on where `a` ends. */
  ghost predicate FirstDiffer(a: Bytes, b: Bytes, i: nat) {
    i <= |a| && i < |b| && a[..i] == b[..i] && (i == |a| || a[i] < b[i])
  }

  lemma {:induction false} LessExact(a: Bytes, b: Bytes)
    ensures Less(a, b) <==> exists i: nat :: FirstDiffer(a, b, i)
  {
    if a == [] || b == [] || a[0] != b[0] {
      assert Less(a, b) ==> FirstDiffer(a, b, 0);
    } else {
      LessExact(a[1..], b[1..]);
      if i: nat :| FirstDiffer(a[1..], b[1..], i) {
        assert a[..i + 1] == [a[0]] + a[1..][..i] && b[..i + 1] == [b[0]] + b[1..][..i];
        assert FirstDiffer(a, b, i + 1);
      }
      if i: nat :| FirstDiffer(a, b, i) {
        assert i > 0;
        assert a[1..][..i - 1] == a[..i][1..] && b[1..][..i - 1] == b[..i][1..];
        assert FirstDiffer(a[1..], b[1..], i - 1);
      }
    }
  }

  lemma {:induction false} LessTrichotomy(a: Bytes, b: Bytes)
    ensures a == b || Less(a, b) || Less(b, a)
    ensures !(Less(a, b) && Less(b, a))
    ensures a == b ==> !Less(a, b)
  {
    if a != [] && b != [] {
      LessTrichotomy(a[1..], b[1..]);
      if a[0] == b[0] && a[1..] == b[1..] {
        assert a == [a[0]] + a[1..] && b == [b[0]] + b[1..];
      }
    }
  }

  lemma {:induction false} LessTransitive(a: Bytes, b: Bytes, c: Bytes)
    requires Less(a, b) && Less(b, c)
    ensures Less(a, c)
  {
    if a != [] && a[0] == b[0] == c[0] {
      LessTransitive(a[1..], b[1..], c[1..]);
    }
  }
}
