/**
 * The first two steps of the settlement engine (lib/calculateTransaction.ts):
 * the `payments` ledger keyed by participant name, and the stable sort of the
 * names by amount paid.
 *
 * Amounts are exact `real`s. The source's `Record<string, number>` is modelled
 * as a sequence of `Payment`s in key-insertion order: a name seen again
 * overwrites the amount in place and keeps its first position.
 */
module Ledger {

  datatype Item = Item(itemName: string, price: real)

  datatype Participant = Participant(name: string, paymentDetails: string, items: seq<Item>)

  /** One key of the ledger: a participant name and what it paid. */
  datatype Payment = Payment(name: string, amount: real)

  /** Sum of the prices, as the left fold `items.reduce((sum, item) => sum + item.price, 0)`. */
  function ItemsTotal(items: seq<Item>): real
  {
    if items == [] then 0.0 else ItemsTotal(items[..|items| - 1]) + items[|items| - 1].price
  }

  lemma {:induction false} ItemsTotalAppend(a: seq<Item>, b: seq<Item>)
    ensures ItemsTotal(a + b) == ItemsTotal(a) + ItemsTotal(b)
    decreases |b|
  {
    if b == [] {
      assert a + b == a;
    } else {
      assert (a + b)[..|a + b| - 1] == a + b[..|b| - 1];
      ItemsTotalAppend(a, b[..|b| - 1]);
    }
  }

  /** Sum of the ledger amounts, as `valuesPaid.reduce((acc, curr) => acc + curr, 0)`. */
  function Total(l: seq<Payment>): real
  {
    if l == [] then 0.0 else Total(l[..|l| - 1]) + l[|l| - 1].amount
  }

  // ---------------------------------------------------------------------------
  // Names in a participant list

  predicate NameIn(ps: seq<Participant>, name: string)
  {
    exists p :: 0 <= p < |ps| && ps[p].name == name
  }

  /** Position of the first participant called `name`. */
  function FirstIndex(ps: seq<Participant>, name: string): (r: nat)
    requires NameIn(ps, name)
    ensures r < |ps| && ps[r].name == name
    ensures forall p :: 0 <= p < r ==> ps[p].name != name
  {
    var init := ps[..|ps| - 1];
    if NameIn(init, name) then
      FirstIndex(init, name)
    else
      assert forall p :: 0 <= p < |ps| - 1 ==> init[p] == ps[p];
      |ps| - 1
  }

  /** Position of the last participant called `name`. */
  function LastIndex(ps: seq<Participant>, name: string): (r: nat)
    requires NameIn(ps, name)
    ensures r < |ps| && ps[r].name == name
    ensures forall p :: r < p < |ps| ==> ps[p].name != name
  {
    var init := ps[..|ps| - 1];
    if ps[|ps| - 1].name == name then
      |ps| - 1
    else
      assert NameIn(init, name) by {
        var p :| 0 <= p < |ps| && ps[p].name == name;
        assert init[p] == ps[p];
      }
      LastIndex(init, name)
  }

  // ---------------------------------------------------------------------------
  // The ledger

  /** Position of the key `name` in the ledger, or -1. */
  function KeyIndex(l: seq<Payment>, name: string): (r: int)
    ensures -1 <= r < |l|
    ensures r >= 0 ==> l[r].name == name
    ensures r < 0 ==> forall k :: 0 <= k < |l| ==> l[k].name != name
  {
    if l == [] then -1
    else if l[|l| - 1].name == name then |l| - 1
    else KeyIndex(l[..|l| - 1], name)
  }

  /** `payments[name] = amount`: overwrite in place, or append a new key. */
  function Put(l: seq<Payment>, name: string, amount: real): seq<Payment>
  {
    var k := KeyIndex(l, name);
    if k < 0 then l + [Payment(name, amount)] else l[k := Payment(name, amount)]
  }

  /** The `payments` record after the `forEach` of lines 26-28. */
  function Payments(ps: seq<Participant>): seq<Payment>
  {
    if ps == [] then []
    else
      var last := ps[|ps| - 1];
      Put(Payments(ps[..|ps| - 1]), last.name, ItemsTotal(last.items))
  }

  predicate DistinctKeys(l: seq<Payment>)
  {
    forall a, b :: 0 <= a < b < |l| ==> l[a].name != l[b].name
  }

  /** What removing the last participant changes about the positions of names. */
  lemma PrefixNames(ps: seq<Participant>)
    requires ps != []
    ensures forall name :: NameIn(ps[..|ps| - 1], name) ==>
              NameIn(ps, name) && FirstIndex(ps, name) == FirstIndex(ps[..|ps| - 1], name)
    ensures forall name :: NameIn(ps, name) ==> NameIn(ps[..|ps| - 1], name) || name == ps[|ps| - 1].name
    ensures forall name :: NameIn(ps, name) && name != ps[|ps| - 1].name ==>
              NameIn(ps[..|ps| - 1], name) && LastIndex(ps, name) == LastIndex(ps[..|ps| - 1], name)
    ensures NameIn(ps, ps[|ps| - 1].name) && LastIndex(ps, ps[|ps| - 1].name) == |ps| - 1
  {
    var init := ps[..|ps| - 1];
    assert forall p :: 0 <= p < |init| ==> init[p] == ps[p];
    forall name | NameIn(init, name) ensures NameIn(ps, name) {
      var p :| 0 <= p < |init| && init[p].name == name;
      assert ps[p].name == name;
    }
    forall name | NameIn(ps, name) ensures NameIn(init, name) || name == ps[|ps| - 1].name {
      var p :| 0 <= p < |ps| && ps[p].name == name;
      if p < |init| { assert init[p].name == name; }
    }
    assert ps[|ps| - 1].name == ps[|ps| - 1].name;
  }

  /** Putting a key keeps the keys distinct and adds exactly `name` to them. */
  lemma PutKeys(l: seq<Payment>, name: string, amount: real)
    requires DistinctKeys(l)
    ensures DistinctKeys(Put(l, name, amount))
    ensures forall x :: KeyIndex(Put(l, name, amount), x) >= 0 <==> KeyIndex(l, x) >= 0 || x == name
    ensures KeyIndex(l, name) < 0 ==> Put(l, name, amount) == l + [Payment(name, amount)]
    ensures KeyIndex(l, name) >= 0 ==> Put(l, name, amount) == l[KeyIndex(l, name) := Payment(name, amount)]
  {
    var r := Put(l, name, amount);
    forall x ensures KeyIndex(r, x) >= 0 <==> KeyIndex(l, x) >= 0 || x == name {
      if x == name {
        if KeyIndex(l, name) >= 0 {
          assert r[KeyIndex(l, name)].name == name;
        } else {
          assert r[|r| - 1].name == name;
        }
      } else if KeyIndex(l, x) >= 0 {
        assert r[KeyIndex(l, x)].name == x;
      }
    }
  }

  /** Putting a key keeps the names at every existing position; a new key goes last. */
  lemma PutNames(l: seq<Payment>, name: string, amount: real)
    ensures |Put(l, name, amount)| == if KeyIndex(l, name) < 0 then |l| + 1 else |l|
    ensures forall k :: 0 <= k < |l| ==> Put(l, name, amount)[k].name == l[k].name
    ensures KeyIndex(l, name) < 0 ==> Put(l, name, amount)[|l|].name == name
  {
  }

  /** The ledger has one key per distinct participant name, and no other key. */
  lemma {:induction false} PaymentsKeys(ps: seq<Participant>)
    ensures DistinctKeys(Payments(ps))
    ensures forall name :: NameIn(ps, name) <==> KeyIndex(Payments(ps), name) >= 0
  {
    if ps != [] {
      var last := ps[|ps| - 1];
      PaymentsKeys(ps[..|ps| - 1]);
      PutKeys(Payments(ps[..|ps| - 1]), last.name, ItemsTotal(last.items));
      PrefixNames(ps);
    }
  }

  /** Each key holds the item total of the LAST participant with that name. */
  lemma {:induction false} PaymentsAmounts(ps: seq<Participant>)
    ensures forall k :: 0 <= k < |Payments(ps)| ==>
              NameIn(ps, Payments(ps)[k].name) &&
              Payments(ps)[k].amount == ItemsTotal(ps[LastIndex(ps, Payments(ps)[k].name)].items)
  {
    if ps != [] {
      var init := ps[..|ps| - 1];
      var last := ps[|ps| - 1];
      var l0 := Payments(init);
      var l := Payments(ps);
      var v := ItemsTotal(last.items);
      PaymentsAmounts(init);
      PaymentsKeys(init);
      PutKeys(l0, last.name, v);
      PrefixNames(ps);
      var q := KeyIndex(l0, last.name);
      forall k | 0 <= k < |l|
        ensures NameIn(ps, l[k].name) && l[k].amount == ItemsTotal(ps[LastIndex(ps, l[k].name)].items)
      {
        if k == |l0| || k == q {
          assert l[k] == Payment(last.name, v);
        } else {
          assert l[k] == l0[k] && l0[k].name != last.name;
          var r := LastIndex(init, l0[k].name);
          assert ps[r] == init[r];
        }
      }
    }
  }

  /** Each key sits at the position of its name's first occurrence among the participants. */
  lemma {:induction false} PaymentsOrder(ps: seq<Participant>)
    ensures forall a, b :: 0 <= a < b < |Payments(ps)| ==>
              NameIn(ps, Payments(ps)[a].name) && NameIn(ps, Payments(ps)[b].name) &&
              FirstIndex(ps, Payments(ps)[a].name) < FirstIndex(ps, Payments(ps)[b].name)
  {
    if ps != [] {
      var init := ps[..|ps| - 1];
      var last := ps[|ps| - 1];
      var l0 := Payments(init);
      var l := Payments(ps);
      PaymentsOrder(init);
      PaymentsKeys(init);
      PutNames(l0, last.name, ItemsTotal(last.items));
      PrefixNames(ps);
      var added := KeyIndex(l0, last.name) < 0;
      forall a, b | 0 <= a < b < |l|
        ensures NameIn(ps, l[a].name) && NameIn(ps, l[b].name) && FirstIndex(ps, l[a].name) < FirstIndex(ps, l[b].name)
      {
        if !added || b < |l0| {
          assert l[a].name == l0[a].name && l[b].name == l0[b].name;
        } else {
          assert l[a].name == l0[a].name && l[b].name == last.name;
          assert !NameIn(init, last.name) && FirstIndex(ps, last.name) == |ps| - 1;
        }
      }
    } else {
      assert Payments(ps) == [];
    }
  }

  /** With pairwise distinct names the ledger is the participants' item totals, in order. */
  lemma {:induction false} PaymentsOfDistinct(ps: seq<Participant>)
    requires forall a, b :: 0 <= a < b < |ps| ==> ps[a].name != ps[b].name
    ensures |Payments(ps)| == |ps|
    ensures forall k :: 0 <= k < |ps| ==> Payments(ps)[k] == Payment(ps[k].name, ItemsTotal(ps[k].items))
  {
    if ps != [] {
      var init := ps[..|ps| - 1];
      var last := ps[|ps| - 1];
      PaymentsOfDistinct(init);
      assert KeyIndex(Payments(init), last.name) < 0 by {
        forall k | 0 <= k < |init| ensures Payments(init)[k].name != last.name {
          assert ps[k].name == init[k].name;
        }
      }
    }
  }

  /** When every participant has the same name the ledger has at most one key. */
  lemma {:induction false} OneKey(ps: seq<Participant>)
    requires forall a, b :: 0 <= a < b < |ps| ==> ps[a].name == ps[b].name
    ensures |Payments(ps)| <= 1
  {
    if ps != [] {
      var init := ps[..|ps| - 1];
      var last := ps[|ps| - 1];
      var l0 := Payments(init);
      OneKey(init);
      if l0 != [] {
        PaymentsKeys(init);
        assert KeyIndex(l0, l0[0].name) >= 0;
        var p :| 0 <= p < |init| && init[p].name == l0[0].name;
        assert ps[p].name == last.name;
        assert KeyIndex(l0, last.name) == 0;
      }
    }
  }

  // ---------------------------------------------------------------------------
  // Sorting the names by amount paid

  predicate SortedByAmount(l: seq<Payment>)
  {
    forall a, b :: 0 <= a < b < |l| ==> l[a].amount <= l[b].amount
  }

  /** Inserts `e` after every entry whose amount is at most `e.amount`. */
  function Insert(l: seq<Payment>, e: Payment): seq<Payment>
  {
    if l == [] then [e]
    else if l[|l| - 1].amount <= e.amount then l + [e]
    else Insert(l[..|l| - 1], e) + [l[|l| - 1]]
  }

  /**
   * `[...people].sort((a, b) => payments[a] - payments[b])`: ascending by amount.
   * `Array.prototype.sort` is stable, so keys with equal amounts keep their
   * ledger order; the stable insertion sort below produces that same order.
   */
  function SortByAmount(l: seq<Payment>): seq<Payment>
  {
    if l == [] then [] else Insert(SortByAmount(l[..|l| - 1]), l[|l| - 1])
  }

  /** Insertion adds exactly the inserted element to the members. */
  lemma {:induction false} InsertMembers(l: seq<Payment>, e: Payment)
    ensures forall x :: x in Insert(l, e) <==> x in l || x == e
  {
    if l != [] && l[|l| - 1].amount > e.amount {
      var init := l[..|l| - 1];
      InsertMembers(init, e);
      assert l == init + [l[|l| - 1]];
    }
  }

  lemma {:induction false} InsertSorted(l: seq<Payment>, e: Payment)
    requires SortedByAmount(l)
    ensures SortedByAmount(Insert(l, e))
  {
    if l != [] && l[|l| - 1].amount > e.amount {
      var init := l[..|l| - 1];
      var last := l[|l| - 1];
      InsertSorted(init, e);
      InsertMembers(init, e);
      var r := Insert(init, e);
      forall a | 0 <= a < |r| ensures r[a].amount <= last.amount {
        assert r[a] in r;
        if r[a] != e {
          var p :| 0 <= p < |init| && init[p] == r[a];
          assert l[p] == init[p];
        }
      }
    }
  }

  /** How many times `x` occurs in `l`. */
  function Count(l: seq<Payment>, x: Payment): nat
  {
    if l == [] then 0 else Count(l[..|l| - 1], x) + (if l[|l| - 1] == x then 1 else 0)
  }

  lemma {:induction false} CountMultiplicity(l: seq<Payment>, x: Payment)
    ensures multiset(l)[x] == Count(l, x)
  {
    if l != [] {
      CountMultiplicity(l[..|l| - 1], x);
      assert l == l[..|l| - 1] + [l[|l| - 1]];
    }
  }

  /** Insertion adds exactly one occurrence of the inserted element. */
  lemma {:induction false} InsertCount(l: seq<Payment>, e: Payment, x: Payment)
    ensures Count(Insert(l, e), x) == Count(l, x) + (if e == x then 1 else 0)
  {
    if l != [] && l[|l| - 1].amount > e.amount {
      var r := Insert(l[..|l| - 1], e);
      InsertCount(l[..|l| - 1], e, x);
      assert (r + [l[|l| - 1]])[..|r|] == r;
    } else if l != [] {
      assert (l + [e])[..|l|] == l;
    }
  }

  lemma {:induction false} InsertTotal(l: seq<Payment>, e: Payment)
    ensures Total(Insert(l, e)) == Total(l) + e.amount
  {
    if l != [] && l[|l| - 1].amount > e.amount {
      var init := l[..|l| - 1];
      InsertTotal(init, e);
      assert (Insert(init, e) + [l[|l| - 1]])[..|Insert(init, e)|] == Insert(init, e);
    } else if l != [] {
      assert (l + [e])[..|l|] == l;
    }
  }

  lemma {:induction false} SortSorted(l: seq<Payment>)
    ensures SortedByAmount(SortByAmount(l))
  {
    if l != [] {
      SortSorted(l[..|l| - 1]);
      InsertSorted(SortByAmount(l[..|l| - 1]), l[|l| - 1]);
    }
  }

  lemma {:induction false} SortCount(l: seq<Payment>, x: Payment)
    ensures Count(SortByAmount(l), x) == Count(l, x)
  {
    if l != [] {
      SortCount(l[..|l| - 1], x);
      InsertCount(SortByAmount(l[..|l| - 1]), l[|l| - 1], x);
    }
  }

  /** The sort is a permutation of the ledger. */
  lemma SortPerm(l: seq<Payment>)
    ensures multiset(SortByAmount(l)) == multiset(l)
  {
    forall x ensures multiset(SortByAmount(l))[x] == multiset(l)[x] {
      SortCount(l, x);
      CountMultiplicity(SortByAmount(l), x);
      CountMultiplicity(l, x);
    }
  }

  lemma {:induction false} SortTotal(l: seq<Payment>)
    ensures Total(SortByAmount(l)) == Total(l)
  {
    if l != [] {
      SortTotal(l[..|l| - 1]);
      InsertTotal(SortByAmount(l[..|l| - 1]), l[|l| - 1]);
    }
  }

  /** The sort yields the ledger's entries in ascending order of amount, with the same total. */
  lemma SortSpec(l: seq<Payment>)
    ensures SortedByAmount(SortByAmount(l))
    ensures multiset(SortByAmount(l)) == multiset(l)
    ensures |SortByAmount(l)| == |l|
    ensures Total(SortByAmount(l)) == Total(l)
  {
    SortSorted(l);
    SortPerm(l);
    SortTotal(l);
    assert |multiset(SortByAmount(l))| == |multiset(l)|;
  }

  lemma {:induction false} InsertKeys(l: seq<Payment>, e: Payment)
    requires DistinctKeys(l)
    requires forall k :: 0 <= k < |l| ==> l[k].name != e.name
    ensures forall x :: x in Insert(l, e) <==> x in l || x == e
    ensures DistinctKeys(Insert(l, e))
  {
    if l != [] && l[|l| - 1].amount > e.amount {
      var init := l[..|l| - 1];
      var last := l[|l| - 1];
      assert l == init + [last];
      InsertKeys(init, e);
      var r := Insert(init, e);
      forall a | 0 <= a < |r| ensures r[a].name != last.name {
        assert r[a] in r;
        if r[a] != e {
          var q :| 0 <= q < |init| && init[q] == r[a];
          assert l[q] == r[a];
        }
      }
    }
  }

  /** The sort keeps the ledger's keys distinct, and holds exactly the ledger's entries. */
  lemma {:induction false} SortKeys(l: seq<Payment>)
    requires DistinctKeys(l)
    ensures forall x :: x in SortByAmount(l) <==> x in l
    ensures DistinctKeys(SortByAmount(l))
  {
    if l != [] {
      var init := l[..|l| - 1];
      var last := l[|l| - 1];
      assert l == init + [last];
      SortKeys(init);
      forall k | 0 <= k < |SortByAmount(init)| ensures SortByAmount(init)[k].name != last.name {
        assert SortByAmount(init)[k] in init;
      }
      InsertKeys(SortByAmount(init), last);
    }
  }

  /** The entries of `l` whose amount is `v`, in order. */
  function WithAmount(l: seq<Payment>, v: real): seq<Payment>
  {
    if l == [] then []
    else WithAmount(l[..|l| - 1], v) + (if l[|l| - 1].amount == v then [l[|l| - 1]] else [])
  }

  lemma {:induction false} InsertStable(l: seq<Payment>, e: Payment, v: real)
    requires SortedByAmount(l)
    ensures WithAmount(Insert(l, e), v) == WithAmount(l, v) + (if e.amount == v then [e] else [])
  {
    if l != [] && l[|l| - 1].amount > e.amount {
      var init := l[..|l| - 1];
      InsertStable(init, e, v);
      var r := Insert(init, e);
      assert (r + [l[|l| - 1]])[..|r|] == r;
    } else if l != [] {
      assert (l + [e])[..|l|] == l;
    }
  }

  /** Stability: entries with equal amounts appear in the sorted list in ledger order. */
  lemma {:induction false} SortStable(l: seq<Payment>, v: real)
    ensures WithAmount(SortByAmount(l), v) == WithAmount(l, v)
  {
    if l != [] {
      SortStable(l[..|l| - 1], v);
      SortSorted(l[..|l| - 1]);
      InsertStable(SortByAmount(l[..|l| - 1]), l[|l| - 1], v);
    }
  }
}
