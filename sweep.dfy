/**
 * The greedy two-pointer sweep of lib/calculateTransaction.ts:41-59, stated as a
 * function on the sequence of net balances. The position `i` starts at the
 * most-negative end and `j` at the most-positive end. While `i < j`, the
 * debtor at `i` pays the creditor at `j` the amount `min(-b[i], b[j])`. A
 * pointer moves inward once its balance is exactly zero.
 *
 * Transfers name positions in the sorted balance list; the Settlement module
 * turns them into named, rounded transactions.
 */
module Sweep {

  /** Sum of a balance list. */
  function Sum(b: seq<real>): real
  {
    if b == [] then 0.0 else Sum(b[..|b| - 1]) + b[|b| - 1]
  }

  /** `from` pays `to` the unrounded `amount`; both are positions in the balance list. */
  datatype Transfer = Transfer(from: nat, to: nat, amount: real)

  /** The transfers emitted and the balances left when the loop exits. */
  datatype Outcome = Outcome(transfers: seq<Transfer>, balances: seq<real>)

  /** `Math.min` on two reals. */
  function Min(x: real, y: real): (r: real)
    ensures r <= x && r <= y
    ensures r == x || r == y
  {
    if x <= y then x else y
  }

  /** The balances after `i` pays `j` the amount `debt` (lines 48-49). */
  function Pay(b: seq<real>, i: nat, j: nat, debt: real): seq<real>
    requires i < |b| && j < |b|
  {
    b[i := b[i] + debt][j := b[j] - debt]
  }

  /**
   * The loop from the pointers `i`, `j` over the balances `b`. Each round moves
   * at least one pointer, because the `min` brings one endpoint exactly to zero;
   * every transfer goes from a lower position to a higher one inside `[i..j]`.
   */
  function Run(b: seq<real>, i: int, j: int): (r: Outcome)
    requires 0 <= i && j < |b|
    ensures |r.balances| == |b|
    ensures forall t :: t in r.transfers ==> i <= t.from < t.to <= j
    decreases j - i
  {
    if i >= j then Outcome([], b)
    else
      var debt := Min(-b[i], b[j]);
      var b' := Pay(b, i, j, debt);
      var rest := Run(b', if b'[i] == 0.0 then i + 1 else i, if b'[j] == 0.0 then j - 1 else j);
      Outcome([Transfer(i, j, debt)] + rest.transfers, rest.balances)
  }

  // ---------------------------------------------------------------------------
  // Money paid and received per position

  /** What position `k` pays out in `ts`. */
  function Paid(ts: seq<Transfer>, k: nat): real
  {
    if ts == [] then 0.0 else (if ts[0].from == k then ts[0].amount else 0.0) + Paid(ts[1..], k)
  }

  /** What position `k` receives in `ts`. */
  function Received(ts: seq<Transfer>, k: nat): real
  {
    if ts == [] then 0.0 else (if ts[0].to == k then ts[0].amount else 0.0) + Received(ts[1..], k)
  }

  /** Sum of the amounts of `ts`. */
  function Amounts(ts: seq<Transfer>): real
  {
    if ts == [] then 0.0 else ts[0].amount + Amounts(ts[1..])
  }

  /**
   * Conservation of money for each position: the balance left at `k` is its
   * starting balance plus what it paid minus what it received.
   */
  lemma {:induction false} RunConserves(b: seq<real>, i: int, j: int)
    requires 0 <= i && j < |b|
    ensures forall k :: 0 <= k < |b| ==>
              Run(b, i, j).balances[k] == b[k] + Paid(Run(b, i, j).transfers, k) - Received(Run(b, i, j).transfers, k)
    decreases j - i
  {
    if i < j {
      var debt := Min(-b[i], b[j]);
      var b' := Pay(b, i, j, debt);
      var i', j' := if b'[i] == 0.0 then i + 1 else i, if b'[j] == 0.0 then j - 1 else j;
      RunConserves(b', i', j');
      var rest := Run(b', i', j');
      var ts := Run(b, i, j).transfers;
      assert ts == [Transfer(i, j, debt)] + rest.transfers && Run(b, i, j).balances == rest.balances;
      assert ts[1..] == rest.transfers;
      forall k | 0 <= k < |b|
        ensures rest.balances[k] == b[k] + Paid(ts, k) - Received(ts, k)
      {
        assert Paid(ts, k) == (if k == i then debt else 0.0) + Paid(rest.transfers, k);
        assert Received(ts, k) == (if k == j then debt else 0.0) + Received(rest.transfers, k);
      }
    }
  }

  /** The loop emits at most `j - i` transfers: each round moves a pointer. */
  lemma {:induction false} RunCount(b: seq<real>, i: int, j: int)
    requires 0 <= i <= j + 1 && j < |b|
    ensures |Run(b, i, j).transfers| <= if i < j then j - i else 0
    decreases j - i
  {
    if i < j {
      var debt := Min(-b[i], b[j]);
      var b' := Pay(b, i, j, debt);
      RunCount(b', if b'[i] == 0.0 then i + 1 else i, if b'[j] == 0.0 then j - 1 else j);
    }
  }

  // ---------------------------------------------------------------------------
  // The loop invariant of the sweep on sorted net balances

  /** No positive balance comes before a negative one. */
  predicate SignOrdered(b: seq<real>)
  {
    forall k, l :: 0 <= k < l < |b| && b[k] > 0.0 ==> b[l] >= 0.0
  }

  /** Every balance outside `[i..j]` is settled. */
  predicate ZeroOutside(b: seq<real>, i: int, j: int)
  {
    forall k :: 0 <= k < |b| && (k < i || j < k) ==> b[k] == 0.0
  }

  /**
   * What holds of the balances before each round: the total is zero (money is
   * conserved), everything outside `[i..j]` is settled, and debts come before
   * credits.
   */
  predicate Invariant(b: seq<real>, i: int, j: int)
  {
    0 <= i <= j + 1 && j < |b| && Sum(b) == 0.0 && ZeroOutside(b, i, j) && SignOrdered(b)
  }

  lemma {:induction false} SumUpdate(s: seq<real>, k: nat, v: real)
    requires k < |s|
    ensures Sum(s[k := v]) == Sum(s) - s[k] + v
  {
    var n := |s| - 1;
    if k < n {
      assert s[k := v][..n] == s[..n][k := v];
      SumUpdate(s[..n], k, v);
    } else {
      assert s[k := v][..n] == s[..n];
    }
  }

  lemma {:induction false} SumAtLeast(s: seq<real>, k: nat)
    requires k < |s|
    requires forall l :: 0 <= l < |s| ==> s[l] >= 0.0
    ensures Sum(s) >= s[k]
  {
    var n := |s| - 1;
    if k < n {
      SumAtLeast(s[..n], k);
    } else if n > 0 {
      SumAtLeast(s[..n], 0);
    }
  }

  lemma {:induction false} SumAtMost(s: seq<real>, k: nat)
    requires k < |s|
    requires forall l :: 0 <= l < |s| ==> s[l] <= 0.0
    ensures Sum(s) <= s[k]
  {
    var n := |s| - 1;
    if k < n {
      SumAtMost(s[..n], k);
    } else if n > 0 {
      SumAtMost(s[..n], 0);
    }
  }

  /** Under the invariant, the debtor end is at most zero and the creditor end at least zero. */
  lemma Ends(b: seq<real>, i: int, j: int)
    requires Invariant(b, i, j) && i <= j
    ensures b[i] <= 0.0 <= b[j]
  {
    if b[i] > 0.0 {
      SumAtLeast(b, i);
    }
    if b[j] < 0.0 {
      SumAtMost(b, j);
    }
  }

  /** One round keeps the invariant, and pays a non-negative amount. */
  lemma Round(b: seq<real>, i: int, j: int)
    requires Invariant(b, i, j) && i < j
    ensures Min(-b[i], b[j]) >= 0.0
    ensures var b' := Pay(b, i, j, Min(-b[i], b[j]));
            Invariant(b', if b'[i] == 0.0 then i + 1 else i, if b'[j] == 0.0 then j - 1 else j)
  {
    Ends(b, i, j);
    var debt := Min(-b[i], b[j]);
    var b' := Pay(b, i, j, debt);
    SumUpdate(b, i, b[i] + debt);
    SumUpdate(b[i := b[i] + debt], j, b[j] - debt);
  }

  /**
   * Started on balances that sum to zero with debts before credits, the sweep
   * settles every balance, and every transfer it emits is non-negative.
   */
  lemma {:induction false} RunSettles(b: seq<real>, i: int, j: int)
    requires Invariant(b, i, j)
    ensures forall k :: 0 <= k < |b| ==> Run(b, i, j).balances[k] == 0.0
    ensures forall t :: t in Run(b, i, j).transfers ==> t.amount >= 0.0
    decreases j - i
  {
    if i < j {
      Round(b, i, j);
      var debt := Min(-b[i], b[j]);
      var b' := Pay(b, i, j, debt);
      RunSettles(b', if b'[i] == 0.0 then i + 1 else i, if b'[j] == 0.0 then j - 1 else j);
    } else if i == j {
      Ends(b, i, j);
    }
  }

  // ---------------------------------------------------------------------------
  // An already-settled group

  /** `i` pays `j` nothing, then `i + 1` pays `j - 1` nothing, and so on inward. */
  function ZeroPairs(i: int, j: int): seq<Transfer>
    requires 0 <= i
    decreases j - i
  {
    if i >= j then [] else [Transfer(i, j, 0.0)] + ZeroPairs(i + 1, j - 1)
  }

  /**
   * When every balance is already zero, the loop still runs: each round pays
   * zero and moves both pointers, so `[i..j]` is paired from the outside in.
   */
  lemma {:induction false} RunOnSettled(b: seq<real>, i: int, j: int)
    requires 0 <= i && j < |b|
    requires forall k :: 0 <= k < |b| ==> b[k] == 0.0
    ensures Run(b, i, j) == Outcome(ZeroPairs(i, j), b)
    decreases j - i
  {
    if i < j {
      assert Pay(b, i, j, 0.0) == b;
      RunOnSettled(b, i + 1, j - 1);
    }
  }

  lemma {:induction false} ZeroPairsShape(i: int, j: int)
    requires 0 <= i <= j + 1
    ensures |ZeroPairs(i, j)| == (j - i + 1) / 2
    ensures forall k :: 0 <= k < |ZeroPairs(i, j)| ==> ZeroPairs(i, j)[k] == Transfer(i + k, j - k, 0.0)
    decreases j - i
  {
    if i < j {
      ZeroPairsShape(i + 1, j - 1);
    }
  }
}
