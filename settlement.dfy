/**
 * `calculateTransactions` of lib/calculateTransaction.ts: ledger, mean, sort,
 * net balances, and the two-pointer loop that emits "`from` owes `to`
 * `amount`" transactions.
 *
 * The loop is the imperative method `SweepInPlace`, called by
 * `CalculateTransactions`. It updates an array of balances in place and is
 * proved equal to the function `Settle`.
 * The lemmas below state what the source promises about `Settle`.
 */
module Settlement {
  import opened Ledger
  import opened Sweep

  datatype Transaction = Transaction(from: string, to: string, amount: real)

  /**
   * `parseFloat(x.toFixed(2))` on an exact amount. For `x >= 0`, `toFixed(2)`
   * picks the integer `n` for which `n / 100 - x` is closest to zero, taking
   * the larger `n` on a tie. The result is therefore a whole number of cents
   * within half a cent of `x`. `toFixed` rounds a negative `x` by its
   * magnitude, so a tie there goes the other way; the loop only rounds
   * non-negative debts (`RunSettles`).
   */
  function Round2(x: real): (r: real)
    ensures (r * 100.0).Floor as real == r * 100.0
    ensures x - 0.005 < r <= x + 0.005
  {
    ((x * 100.0 + 0.5).Floor as real) / 100.0
  }

  lemma Round2NonNegative(x: real)
    requires x >= 0.0
    ensures Round2(x) >= 0.0
  {
    assert (x * 100.0 + 0.5).Floor >= 0;
  }

  /**
   * `totalAmount / people.length` (line 35). On an empty ledger the source
   * divides by zero; the loop then never runs, so the value is never used.
   */
  function Mean(l: seq<Payment>): real
  {
    if l == [] then 0.0 else Total(l) / (|l| as real)
  }

  /** `x` added up `n` times. */
  function Times(n: nat, x: real): real
  {
    if n == 0 then 0.0 else Times(n - 1, x) + x
  }

  lemma {:induction false} TimesIsProduct(n: nat, x: real)
    ensures Times(n, x) == (n as real) * x
  {
    if n > 0 {
      TimesIsProduct(n - 1, x);
    }
  }

  /** The mean, counted once per name, adds up to the total. */
  lemma MeanTimesCount(l: seq<Payment>)
    ensures Times(|l|, Mean(l)) == Total(l)
  {
    TimesIsProduct(|l|, Mean(l));
    if l != [] {
      var n := |l| as real;
      var t := Total(l);
      assert n * (t / n) == t;
    }
  }

  /** `sortedPeople.map(person => payments[person] - meanAmount)` (line 39). */
  function NetBalances(sorted: seq<Payment>, mean: real): seq<real>
  {
    seq(|sorted|, k requires 0 <= k < |sorted| => sorted[k].amount - mean)
  }

  /** The ledger keys in ascending order of amount paid: `sortedPeople`. */
  function SortedPayments(ps: seq<Participant>): seq<Payment>
  {
    SortByAmount(Payments(ps))
  }

  /** The net balances the loop starts from: `sortedValuesPaid`. */
  function Balances(ps: seq<Participant>): seq<real>
  {
    NetBalances(SortedPayments(ps), Mean(Payments(ps)))
  }

  /** The unrounded transfers the loop emits, by position in `sortedPeople`. */
  function Transfers(ps: seq<Participant>): seq<Transfer>
  {
    Run(Balances(ps), 0, |Balances(ps)| - 1).transfers
  }

  /** Names the ends of each transfer and rounds its amount (lines 51-55). */
  function Emit(sorted: seq<Payment>, ts: seq<Transfer>): seq<Transaction>
    requires forall t :: t in ts ==> t.from < |sorted| && t.to < |sorted|
  {
    if ts == [] then []
    else
      assert ts[0] in ts;
      [Transaction(sorted[ts[0].from].name, sorted[ts[0].to].name, Round2(ts[0].amount))] + Emit(sorted, ts[1..])
  }

  /** Transaction `k` names the ends of transfer `k` and carries its rounded amount. */
  lemma {:induction false} EmitAt(sorted: seq<Payment>, ts: seq<Transfer>)
    requires forall t :: t in ts ==> t.from < |sorted| && t.to < |sorted|
    ensures |Emit(sorted, ts)| == |ts|
    ensures forall k :: 0 <= k < |ts| ==>
              Emit(sorted, ts)[k] == Transaction(sorted[ts[k].from].name, sorted[ts[k].to].name, Round2(ts[k].amount))
  {
    if ts != [] {
      EmitAt(sorted, ts[1..]);
    }
  }

  lemma EmitCons(sorted: seq<Payment>, t: Transfer, ts: seq<Transfer>)
    requires t.from < |sorted| && t.to < |sorted|
    requires forall u :: u in ts ==> u.from < |sorted| && u.to < |sorted|
    ensures Emit(sorted, [t] + ts)
            == [Transaction(sorted[t.from].name, sorted[t.to].name, Round2(t.amount))] + Emit(sorted, ts)
  {
    assert ([t] + ts)[1..] == ts;
  }

  /** What `calculateTransactions(ps)` returns. */
  function Settle(ps: seq<Participant>): seq<Transaction>
  {
    Emit(SortedPayments(ps), Transfers(ps))
  }

  /** The named, rounded transactions the loop still emits from the state `b`, `i`, `j`. */
  function Remaining(sorted: seq<Payment>, b: seq<real>, i: int, j: int): seq<Transaction>
    requires |b| == |sorted| && 0 <= i && j < |b|
  {
    Emit(sorted, Run(b, i, j).transfers)
  }

  /**
   * One round of the loop keeps "emitted so far, followed by what the loop still
   * emits" equal to the whole result.
   */
  lemma RoundEmits(sorted: seq<Payment>, b: seq<real>, i: int, j: int, debt: real, b': seq<real>, i': int, j': int,
                   done: seq<Transaction>, all: seq<Transaction>)
    requires |b| == |sorted| && 0 <= i < j < |b|
    requires done + Remaining(sorted, b, i, j) == all
    requires debt == Min(-b[i], b[j]) && b' == Pay(b, i, j, debt)
    requires i' == (if b'[i] == 0.0 then i + 1 else i) && j' == (if b'[j] == 0.0 then j - 1 else j)
    ensures |b'| == |sorted| && 0 <= i' && j' < |b'|
    ensures (done + [Transaction(sorted[i].name, sorted[j].name, Round2(debt))])
            + Remaining(sorted, b', i', j') == all
  {
    var rest := Run(b', i', j').transfers;
    assert Run(b, i, j).transfers == [Transfer(i, j, debt)] + rest;
    EmitCons(sorted, Transfer(i, j, debt), rest);
    assert Remaining(sorted, b, i, j)
           == [Transaction(sorted[i].name, sorted[j].name, Round2(debt))] + Remaining(sorted, b', i', j');
  }

  /** One round of the loop leaves the sweep's final balances where they were. */
  lemma RoundBalances(b: seq<real>, i: int, j: int, debt: real, b': seq<real>, i': int, j': int)
    requires 0 <= i < j < |b|
    requires debt == Min(-b[i], b[j]) && b' == Pay(b, i, j, debt)
    requires i' == (if b'[i] == 0.0 then i + 1 else i) && j' == (if b'[j] == 0.0 then j - 1 else j)
    ensures 0 <= i' && j' < |b'| && j' - i' < j - i
    ensures Run(b', i', j').balances == Run(b, i, j).balances
  {
  }

  /** `calculateTransactions`: builds the sorted net balances, then sweeps them in place. */
  method CalculateTransactions(participants: seq<Participant>) returns (transactions: seq<Transaction>)
    ensures transactions == Settle(participants)
  {
    var payments := Payments(participants);
    var meanAmount := Mean(payments);
    var sortedPeople := SortByAmount(payments);
    var balances := NetBalances(sortedPeople, meanAmount);
    var sortedValuesPaid := new real[|balances|](k requires 0 <= k < |balances| => balances[k]);
    assert sortedValuesPaid[..] == balances;
    transactions := SweepInPlace(sortedPeople, sortedValuesPaid);
  }

  /**
   * The `while` loop of lines 41-59 over the array `sortedValuesPaid`: it emits
   * what the sweep specifies for the array's starting contents, and leaves the
   * array holding the sweep's final balances.
   */
  method SweepInPlace(sortedPeople: seq<Payment>, sortedValuesPaid: array<real>) returns (transactions: seq<Transaction>)
    requires sortedValuesPaid.Length == |sortedPeople|
    modifies sortedValuesPaid
    ensures transactions == Remaining(sortedPeople, old(sortedValuesPaid[..]), 0, sortedValuesPaid.Length - 1)
    ensures sortedValuesPaid[..] == Run(old(sortedValuesPaid[..]), 0, sortedValuesPaid.Length - 1).balances
  {
    ghost var all := Remaining(sortedPeople, sortedValuesPaid[..], 0, sortedValuesPaid.Length - 1);
    ghost var final := Run(sortedValuesPaid[..], 0, sortedValuesPaid.Length - 1).balances;
    var i, j := 0, sortedValuesPaid.Length - 1;
    transactions := [];
    while i < j
      invariant 0 <= i && j < sortedValuesPaid.Length
      invariant transactions + Remaining(sortedPeople, sortedValuesPaid[..], i, j) == all
      invariant Run(sortedValuesPaid[..], i, j).balances == final
      decreases j - i
    {
      ghost var before, done := sortedValuesPaid[..], transactions;
      var debt := Min(-sortedValuesPaid[i], sortedValuesPaid[j]);
      assert debt == Min(-before[i], before[j]);
      ghost var after := Pay(before, i, j, debt);
      sortedValuesPaid[i] := sortedValuesPaid[i] + debt;
      assert sortedValuesPaid[..] == before[i := before[i] + debt];
      sortedValuesPaid[j] := sortedValuesPaid[j] - debt;
      assert sortedValuesPaid[..] == before[i := before[i] + debt][j := before[j] - debt];
      ghost var i0, j0 := i, j;
      transactions := transactions + [Transaction(sortedPeople[i].name, sortedPeople[j].name, Round2(debt))];
      if sortedValuesPaid[i] == 0.0 {
        i := i + 1;
      }
      if sortedValuesPaid[j] == 0.0 {
        j := j - 1;
      }
      RoundEmits(sortedPeople, before, i0, j0, debt, after, i, j, done, all);
      RoundBalances(before, i0, j0, debt, after, i, j);
    }
    assert Run(sortedValuesPaid[..], i, j) == Outcome([], sortedValuesPaid[..]);
  }

  // ---------------------------------------------------------------------------
  // What the result promises

  lemma {:induction false} NetBalancesSum(l: seq<Payment>, mean: real)
    ensures Sum(NetBalances(l, mean)) == Total(l) - Times(|l|, mean)
  {
    if l != [] {
      var n := |l| - 1;
      assert NetBalances(l, mean)[..n] == NetBalances(l[..n], mean);
      NetBalancesSum(l[..n], mean);
    }
  }

  /** The sorted ledger has one entry per distinct participant name, in ascending order of amount. */
  lemma SortedPaymentsKeys(ps: seq<Participant>)
    ensures |SortedPayments(ps)| == |Payments(ps)|
    ensures DistinctKeys(SortedPayments(ps))
    ensures SortedByAmount(SortedPayments(ps))
    ensures forall x :: x in SortedPayments(ps) <==> x in Payments(ps)
  {
    var l := Payments(ps);
    PaymentsKeys(ps);
    SortSpec(l);
    SortKeys(l);
  }

  /**
   * Each name of the sorted ledger is a participant name and holds the item
   * total of the last participant with that name; every participant name is
   * there.
   */
  lemma SortedPaymentsAmounts(ps: seq<Participant>)
    ensures forall k :: 0 <= k < |SortedPayments(ps)| ==>
              NameIn(ps, SortedPayments(ps)[k].name) &&
              SortedPayments(ps)[k].amount == ItemsTotal(ps[LastIndex(ps, SortedPayments(ps)[k].name)].items)
    ensures forall name :: NameIn(ps, name) ==>
              exists k :: 0 <= k < |SortedPayments(ps)| && SortedPayments(ps)[k].name == name
  {
    var l := Payments(ps);
    var sorted := SortedPayments(ps);
    SortedPaymentsKeys(ps);
    PaymentsKeys(ps);
    PaymentsAmounts(ps);
    forall k | 0 <= k < |sorted|
      ensures NameIn(ps, sorted[k].name) && sorted[k].amount == ItemsTotal(ps[LastIndex(ps, sorted[k].name)].items)
    {
      assert sorted[k] in l;
      var q :| 0 <= q < |l| && l[q] == sorted[k];
    }
    forall name | NameIn(ps, name)
      ensures exists k :: 0 <= k < |sorted| && sorted[k].name == name
    {
      var q := KeyIndex(l, name);
      assert l[q] in sorted;
    }
  }

  /** The net balances are in ascending order, as the names were sorted by amount paid. */
  lemma BalancesAscending(ps: seq<Participant>)
    ensures forall a, b :: 0 <= a < b < |Balances(ps)| ==> Balances(ps)[a] <= Balances(ps)[b]
  {
    SortedPaymentsKeys(ps);
  }

  lemma NetBalancesSumZero(l: seq<Payment>, sorted: seq<Payment>, mean: real)
    requires |sorted| == |l| && Total(sorted) == Total(l)
    requires Times(|l|, mean) == Total(l)
    ensures Sum(NetBalances(sorted, mean)) == 0.0
  {
    NetBalancesSum(sorted, mean);
  }

  lemma SortedNetBalancesSumZero(l: seq<Payment>)
    ensures Sum(NetBalances(SortByAmount(l), Mean(l))) == 0.0
  {
    SortSpec(l);
    MeanTimesCount(l);
    NetBalancesSumZero(l, SortByAmount(l), Mean(l));
  }

  /** With exact arithmetic the net balances sum to zero: the mean is the total over the distinct names. */
  lemma BalancesSumZero(ps: seq<Participant>)
    ensures Sum(Balances(ps)) == 0.0
  {
    SortedNetBalancesSumZero(Payments(ps));
  }

  /** The invariant of the sweep holds when the loop starts, at `i = 0`, `j = n - 1`. */
  lemma BalancesStart(ps: seq<Participant>)
    ensures Invariant(Balances(ps), 0, |Balances(ps)| - 1)
  {
    BalancesAscending(ps);
    BalancesSumZero(ps);
  }

  /** With fewer than two distinct names the result is empty: the loop never runs. */
  lemma FewerThanTwoNames(ps: seq<Participant>)
    requires forall a, b :: 0 <= a < b < |ps| ==> ps[a].name == ps[b].name
    ensures |Payments(ps)| <= 1
    ensures Settle(ps) == []
  {
    OneKey(ps);
    SortedPaymentsKeys(ps);
    assert Transfers(ps) == [];
  }

  /** At most one transaction fewer than there are distinct names. */
  lemma SettleCount(ps: seq<Participant>)
    ensures |Settle(ps)| <= if |Payments(ps)| < 2 then 0 else |Payments(ps)| - 1
  {
    SortedPaymentsKeys(ps);
    RunCount(Balances(ps), 0, |Balances(ps)| - 1);
    EmitAt(SortedPayments(ps), Transfers(ps));
  }

  /**
   * Every transaction goes between two different participant names, and its
   * amount is not negative.
   */
  lemma SettleWellFormed(ps: seq<Participant>)
    ensures forall k :: 0 <= k < |Settle(ps)| ==>
              Settle(ps)[k].from != Settle(ps)[k].to &&
              NameIn(ps, Settle(ps)[k].from) && NameIn(ps, Settle(ps)[k].to) &&
              Settle(ps)[k].amount >= 0.0
  {
    var sorted := SortedPayments(ps);
    var b := Balances(ps);
    var ts := Transfers(ps);
    var e := Settle(ps);
    SortedPaymentsKeys(ps);
    SortedPaymentsAmounts(ps);
    BalancesStart(ps);
    RunSettles(b, 0, |b| - 1);
    assert ts == Run(b, 0, |b| - 1).transfers;
    EmitAt(sorted, ts);
    forall k | 0 <= k < |e|
      ensures e[k].from != e[k].to && NameIn(ps, e[k].from) && NameIn(ps, e[k].to) && e[k].amount >= 0.0
    {
      var t := ts[k];
      assert t in ts;
      assert e[k] == Transaction(sorted[t.from].name, sorted[t.to].name, Round2(t.amount));
      Round2NonNegative(t.amount);
    }
  }

  /**
   * Conservation: for each name, what it receives minus what it pays (unrounded)
   * is its net balance, the amount it paid minus the mean.
   */
  lemma SettleConserves(ps: seq<Participant>)
    ensures forall k :: 0 <= k < |SortedPayments(ps)| ==>
              Received(Transfers(ps), k) - Paid(Transfers(ps), k)
              == SortedPayments(ps)[k].amount - Mean(Payments(ps))
  {
    var b := Balances(ps);
    BalancesStart(ps);
    RunSettles(b, 0, |b| - 1);
    RunConserves(b, 0, |b| - 1);
  }

  lemma {:induction false} TotalOfEqual(l: seq<Payment>, c: real)
    requires forall k :: 0 <= k < |l| ==> l[k].amount == c
    ensures Total(l) == Times(|l|, c)
  {
    if l != [] {
      TotalOfEqual(l[..|l| - 1], c);
    }
  }

  lemma TimesCancel(n: nat, x: real, y: real)
    requires n > 0 && Times(n, x) == Times(n, y)
    ensures x == y
  {
    TimesIsProduct(n, x);
    TimesIsProduct(n, y);
    var m := n as real;
    assert m * x == m * y;
    assert m * (x - y) == 0.0;
  }

  /** When every key holds the same amount, that amount is the mean. */
  lemma MeanOfEqual(l: seq<Payment>)
    requires l != []
    requires forall k :: 0 <= k < |l| ==> l[k].amount == l[0].amount
    ensures Mean(l) == l[0].amount
  {
    TotalOfEqual(l, l[0].amount);
    MeanTimesCount(l);
    TimesCancel(|l|, Mean(l), l[0].amount);
  }

  /** When everyone paid the same, every net balance is zero. */
  lemma SettledBalances(ps: seq<Participant>)
    requires forall a, b :: 0 <= a < b < |Payments(ps)| ==> Payments(ps)[a].amount == Payments(ps)[b].amount
    ensures |Balances(ps)| == |Payments(ps)|
    ensures forall k :: 0 <= k < |Balances(ps)| ==> Balances(ps)[k] == 0.0
  {
    var l := Payments(ps);
    var sorted := SortedPayments(ps);
    SortedPaymentsKeys(ps);
    if l != [] {
      forall k | 0 <= k < |l| ensures l[k].amount == l[0].amount {
        if k > 0 {
          assert l[0].amount == l[k].amount;
        }
      }
      MeanOfEqual(l);
      var b := Balances(ps);
      forall k | 0 <= k < |b| ensures b[k] == 0.0 {
        assert sorted[k] in l;
        var p :| 0 <= p < |l| && l[p] == sorted[k];
        assert l[p].amount == l[0].amount;
        assert b[k] == sorted[k].amount - Mean(l);
      }
    }
  }

  lemma Round2Zero()
    ensures Round2(0.0) == 0.0
  {
  }

  lemma ZeroPairsInRange(n: nat)
    ensures forall t :: t in ZeroPairs(0, n - 1) ==> t.from < n && t.to < n
  {
    var z := ZeroPairs(0, n - 1);
    ZeroPairsShape(0, n - 1);
    forall t | t in z ensures t.from < n && t.to < n {
      var k :| 0 <= k < |z| && z[k] == t;
    }
  }

  /** Naming the pairs of an already-settled sweep: position `k` "pays" position `n - 1 - k`, nothing. */
  lemma EmitZeroPairs(sorted: seq<Payment>)
    ensures forall t :: t in ZeroPairs(0, |sorted| - 1) ==> t.from < |sorted| && t.to < |sorted|
    ensures |Emit(sorted, ZeroPairs(0, |sorted| - 1))| == |sorted| / 2
    ensures forall k :: 0 <= k < |sorted| / 2 ==>
              Emit(sorted, ZeroPairs(0, |sorted| - 1))[k] == Transaction(sorted[k].name, sorted[|sorted| - 1 - k].name, 0.0)
  {
    var n := |sorted|;
    var z := ZeroPairs(0, n - 1);
    ZeroPairsInRange(n);
    ZeroPairsShape(0, n - 1);
    var e := Emit(sorted, z);
    EmitAt(sorted, z);
    Round2Zero();
    forall k | 0 <= k < n / 2 ensures e[k] == Transaction(sorted[k].name, sorted[n - 1 - k].name, 0.0) {
      assert z[k] == Transfer(k, n - 1 - k, 0.0);
      assert e[k] == Transaction(sorted[z[k].from].name, sorted[z[k].to].name, Round2(z[k].amount));
    }
  }

  lemma TransfersSettled(ps: seq<Participant>)
    requires forall a, b :: 0 <= a < b < |Payments(ps)| ==> Payments(ps)[a].amount == Payments(ps)[b].amount
    ensures |SortedPayments(ps)| == |Payments(ps)|
    ensures Transfers(ps) == ZeroPairs(0, |Payments(ps)| - 1)
  {
    var b := Balances(ps);
    SortedPaymentsKeys(ps);
    SettledBalances(ps);
    RunOnSettled(b, 0, |b| - 1);
    assert Transfers(ps) == Run(b, 0, |b| - 1).transfers;
  }

  /**
   * An already-settled group of `n` distinct names, everyone having paid the
   * same, still gets `n / 2` transactions: each pays nothing, and position `k`
   * of the sorted list "pays" position `n - 1 - k`.
   */
  lemma SettledGroup(ps: seq<Participant>)
    requires forall a, b :: 0 <= a < b < |Payments(ps)| ==> Payments(ps)[a].amount == Payments(ps)[b].amount
    ensures |SortedPayments(ps)| == |Payments(ps)|
    ensures |Settle(ps)| == |Payments(ps)| / 2
    ensures forall k :: 0 <= k < |Settle(ps)| ==>
              Settle(ps)[k] == Transaction(SortedPayments(ps)[k].name,
                                           SortedPayments(ps)[|Payments(ps)| - 1 - k].name, 0.0)
  {
    var sorted := SortedPayments(ps);
    TransfersSettled(ps);
    EmitZeroPairs(sorted);
    assert Settle(ps) == Emit(sorted, ZeroPairs(0, |sorted| - 1));
  }

  /** Sum of the amounts of a list of transactions. */
  function TransactionsTotal(ts: seq<Transaction>): real
  {
    if ts == [] then 0.0 else ts[0].amount + TransactionsTotal(ts[1..])
  }

  lemma {:induction false} EmitDrift(sorted: seq<Payment>, ts: seq<Transfer>)
    requires forall t :: t in ts ==> t.from < |sorted| && t.to < |sorted|
    ensures -0.005 * (|ts| as real) <= TransactionsTotal(Emit(sorted, ts)) - Amounts(ts) <= 0.005 * (|ts| as real)
  {
    if ts != [] {
      var e := Emit(sorted, ts);
      EmitDrift(sorted, ts[1..]);
      assert e[1..] == Emit(sorted, ts[1..]);
    }
  }

  /**
   * Rounding each amount on its own makes the emitted total drift from the
   * unrounded total by at most half a cent per transaction.
   */
  lemma SettleDrift(ps: seq<Participant>)
    ensures -0.005 * (|Settle(ps)| as real) <= TransactionsTotal(Settle(ps)) - Amounts(Transfers(ps))
    ensures TransactionsTotal(Settle(ps)) - Amounts(Transfers(ps)) <= 0.005 * (|Settle(ps)| as real)
  {
    SortedPaymentsKeys(ps);
    EmitAt(SortedPayments(ps), Transfers(ps));
    EmitDrift(SortedPayments(ps), Transfers(ps));
  }
}
