/** How much of a bucket goes in one page. */
module Paging {
  import opened Octets
  import opened Entries
  import opened QueueState

  lemma {:induction false} CostGrows(b: seq<Entry>, cost: Cost, i: nat, j: nat)
    requires i <= j <= |b|
    ensures CostOf(b[..i], cost) <= CostOf(b[..j], cost)
    decreases j
  {
    if i < j {
      CostGrows(b, cost, i, j - 1);
      assert b[..j][..j - 1] == b[..j - 1];
    }
  }

  /** The page takes the entry after its first `k` exactly when there is room
      for it: by count, and past the first entry by budget. */
  lemma PageTakesNext(wanted: seq<Entry>, max: nat, budget: nat, cost: Cost, k: nat)
    requires k < |wanted| && k <= PageCount(wanted, max, budget, cost)
    ensures PageCount(wanted, max, budget, cost) > k <==>
            k < max && (k == 0 || CostOf(wanted[..k], cost) + cost(wanted[k]) <= budget)
  {
    var n := PageCount(wanted, max, budget, cost);
    assert wanted[..k + 1][..k] == wanted[..k];
    if k < max && (k == 0 || CostOf(wanted[..k + 1], cost) <= budget) {
      assert FitsPage(wanted, budget, cost, k + 1);
    }
    if n > k > 0 {
      CostGrows(wanted, cost, k + 1, n);
    }
  }

  /** Past its first entry a page stays within its budget; it stops short of
      `max` only when nothing is left or the next entry does not fit. */
  lemma PageIsLargest(wanted: seq<Entry>, max: nat, budget: nat, cost: Cost)
    ensures var n := PageCount(wanted, max, budget, cost);
            (n >= 2 ==> CostOf(wanted[..n], cost) <= budget) &&
            (n < max && n < |wanted| ==> n >= 1 && CostOf(wanted[..n + 1], cost) > budget)
  {
    var n := PageCount(wanted, max, budget, cost);
    if n < max && n < |wanted| {
      assert !FitsPage(wanted, budget, cost, n + 1);
    }
  }

  /** With budget enough for all of them, a page is limited by count alone. */
  lemma PageUnlimited(wanted: seq<Entry>, max: nat, budget: nat, cost: Cost)
    requires budget >= CostOf(wanted[..Min(|wanted|, max)], cost)
    ensures PageCount(wanted, max, budget, cost) == Min(|wanted|, max)
  {}
}
