/** Filtering a sequence, by its positions. */
module Filters {
  /** The elements of `b` that `p` admits, in order. */
  ghost function Chosen<T(!new)>(b: seq<T>, p: T -> bool): seq<T> {
    if b == [] then []
    else Chosen(b[..|b| - 1], p) + if p(b[|b| - 1]) then [b[|b| - 1]] else []
  }

  /** Positions of `b`, rising. */
  ghost predicate RisingIn<T(!new)>(at: seq<nat>, b: seq<T>) {
    (forall j :: 0 <= j < |at| ==> at[j] < |b|) && forall i, j :: 0 <= i < j < |at| ==> at[i] < at[j]
  }

  /** `Chosen` is `b` read at exactly the positions admitted, each once and in
      order: nothing admitted is missing, repeated or moved. */
  lemma {:induction false} ChosenExact<T(!new)>(b: seq<T>, p: T -> bool) returns (at: seq<nat>)
    ensures RisingIn(at, b) && |at| == |Chosen(b, p)|
    ensures forall i: nat :: i < |b| ==> (i in at <==> p(b[i]))
    ensures forall j :: 0 <= j < |at| ==> Chosen(b, p)[j] == b[at[j]]
  {
    at := [];
    if b != [] {
      var n := |b| - 1;
      var init := ChosenExact(b[..n], p);
      at := init + if p(b[n]) then [n] else [];
      forall i: nat | i < |b|
        ensures i in at <==> p(b[i])
      {
        if i < n {
          assert b[..n][i] == b[i];
          assert i in init <==> i in at;
        } else {
          assert n !in init;
        }
      }
    }
  }

  lemma ChosenMore<T(!new)>(b: seq<T>, x: T, p: T -> bool)
    ensures Chosen(b + [x], p) == Chosen(b, p) + if p(x) then [x] else []
  {
    assert (b + [x])[..|b|] == b;
  }

  lemma {:induction false} ChosenConcat<T(!new)>(a: seq<T>, b: seq<T>, p: T -> bool)
    ensures Chosen(a + b, p) == Chosen(a, p) + Chosen(b, p)
    decreases |b|
  {
    if b == [] {
      assert a + b == a;
    } else {
      var n := |b| - 1;
      ChosenConcat(a, b[..n], p);
      ChosenMore(a + b[..n], b[n], p);
      assert a + b == a + b[..n] + [b[n]];
    }
  }

  /** From the front. */
  lemma ChosenCons<T(!new)>(x: T, b: seq<T>, p: T -> bool)
    ensures Chosen([x] + b, p) == (if p(x) then [x] else []) + Chosen(b, p)
  {
    ChosenConcat([x], b, p);
    ChosenMore([], x, p);
    assert [] + [x] == [x];
  }

  lemma {:induction false} ChosenMembers<T(!new)>(b: seq<T>, p: T -> bool)
    ensures forall x :: x in Chosen(b, p) <==> x in b && p(x)
  {
    if b != [] {
      ChosenMembers(b[..|b| - 1], p);
      assert b == b[..|b| - 1] + [b[|b| - 1]];
    }
  }

  lemma {:induction false} ChosenSame<T(!new)>(b: seq<T>, p: T -> bool, q: T -> bool)
    requires forall x :: x in b ==> p(x) == q(x)
    ensures Chosen(b, p) == Chosen(b, q)
  {
    if b != [] {
      assert b == b[..|b| - 1] + [b[|b| - 1]];
      ChosenSame(b[..|b| - 1], p, q);
    }
  }
}
