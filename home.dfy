/**
 * The form state of the split page (app/page.tsx): the list of participant
 * cards, the pure updaters handed to `setParticipants`, the sum of all item
 * prices (`totalAmount`), the three guards of `handleCalculate`, and the lookup
 * of a transaction's recipient among the cards.
 *
 * The React state of the `Home` component is the class `Home`; each handler
 * reassigns one field, as `setParticipants`, `setTransactions` and `setError`
 * do.
 */
module Page {
  import opened Ledger
  import opened Settlement

  datatype Option<T> = None | Some(value: T)

  /** A participant card: a `Participant` plus the `id` the page keys it by. */
  datatype Entry = Entry(id: int, name: string, paymentDetails: string, items: seq<Item>)

  /** What the engine sees of a card: everything but the `id`. */
  function AsParticipant(e: Entry): Participant
  {
    Participant(e.name, e.paymentDetails, e.items)
  }

  function AsParticipants(es: seq<Entry>): seq<Participant>
  {
    seq(|es|, k requires 0 <= k < |es| => AsParticipant(es[k]))
  }

  /** A fresh, empty card. The id is the clock reading `Date.now()`, passed in. */
  function Blank(id: int): Entry
  {
    Entry(id, "", "", [])
  }

  // ---------------------------------------------------------------------------
  // Participant updaters

  /** `addParticipant`: appends an empty card with the given id. */
  function AddParticipant(prev: seq<Entry>, id: int): (next: seq<Entry>)
    ensures |next| == |prev| + 1 && next[..|prev|] == prev
    ensures next[|prev|] == Blank(id)
  {
    prev + [Blank(id)]
  }

  /** The two text fields of a card that `updateParticipant` is called with. */
  datatype ParticipantField = NameField | PaymentDetailsField

  function SetField(e: Entry, key: ParticipantField, value: string): Entry
  {
    match key
    case NameField => e.(name := value)
    case PaymentDetailsField => e.(paymentDetails := value)
  }

  /**
   * `updateParticipant`: every card with the given id gets the new value in
   * the named field; nothing else changes.
   */
  function UpdateParticipant(prev: seq<Entry>, id: int, key: ParticipantField, value: string): (next: seq<Entry>)
    ensures |next| == |prev|
    ensures forall k :: 0 <= k < |prev| ==>
              next[k].id == prev[k].id && next[k].items == prev[k].items &&
              next[k].name == (if prev[k].id == id && key == NameField then value else prev[k].name) &&
              next[k].paymentDetails == (if prev[k].id == id && key == PaymentDetailsField then value else prev[k].paymentDetails)
  {
    seq(|prev|, k requires 0 <= k < |prev| => if prev[k].id == id then SetField(prev[k], key, value) else prev[k])
  }

  /** `removeParticipant`: keeps, in order, exactly the cards whose id differs. */
  function RemoveParticipant(prev: seq<Entry>, id: int): (next: seq<Entry>)
    ensures |next| <= |prev|
    ensures forall e :: e in next <==> e in prev && e.id != id
  {
    if prev == [] then []
    else
      var last := prev[|prev| - 1];
      RemoveParticipant(prev[..|prev| - 1], id) + (if last.id != id then [last] else [])
  }

  lemma {:induction false} RemoveParticipantAppend(a: seq<Entry>, b: seq<Entry>, id: int)
    ensures RemoveParticipant(a + b, id) == RemoveParticipant(a, id) + RemoveParticipant(b, id)
    decreases |b|
  {
    if b == [] {
      assert a + b == a;
    } else {
      var n := |b| - 1;
      var t := if b[n].id != id then [b[n]] else [];
      assert (a + b)[..|a + b| - 1] == a + b[..n];
      RemoveParticipantAppend(a, b[..n], id);
      assert (RemoveParticipant(a, id) + RemoveParticipant(b[..n], id)) + t
             == RemoveParticipant(a, id) + (RemoveParticipant(b[..n], id) + t);
    }
  }

  /** Removing an id no card carries changes nothing. */
  lemma {:induction false} RemoveParticipantAbsent(prev: seq<Entry>, id: int)
    requires forall k :: 0 <= k < |prev| ==> prev[k].id != id
    ensures RemoveParticipant(prev, id) == prev
  {
    if prev != [] {
      var n := |prev| - 1;
      RemoveParticipantAbsent(prev[..n], id);
      assert prev[..n] + [prev[n]] == prev;
    }
  }

  /** Adding a card with a fresh id and then removing that id restores the list. */
  lemma AddThenRemoveParticipant(prev: seq<Entry>, id: int)
    requires forall k :: 0 <= k < |prev| ==> prev[k].id != id
    ensures RemoveParticipant(AddParticipant(prev, id), id) == prev
  {
    RemoveParticipantAppend(prev, [Blank(id)], id);
    RemoveParticipantAbsent(prev, id);
    assert [Blank(id)][..0] == [];
  }

  // ---------------------------------------------------------------------------
  // Item updaters

  /** `addItem`: the card at `participantIndex` gets an empty item at the end. */
  function AddItem(prev: seq<Entry>, participantIndex: int): (next: seq<Entry>)
    ensures |next| == |prev|
    ensures forall k :: 0 <= k < |prev| && k != participantIndex ==> next[k] == prev[k]
    ensures 0 <= participantIndex < |prev| ==>
              var p, q := prev[participantIndex], next[participantIndex];
              q.id == p.id && q.name == p.name && q.paymentDetails == p.paymentDetails &&
              |q.items| == |p.items| + 1 && q.items[..|p.items|] == p.items && q.items[|p.items|] == Item("", 0.0)
  {
    seq(|prev|, k requires 0 <= k < |prev| =>
      if k == participantIndex then prev[k].(items := prev[k].items + [Item("", 0.0)]) else prev[k])
  }

  /** The two fields of an item that `updateItem` is called with, and the new value. */
  datatype ItemEdit = SetItemName(itemName: string) | SetPrice(price: real)

  function EditItem(item: Item, edit: ItemEdit): Item
  {
    match edit
    case SetItemName(n) => item.(itemName := n)
    case SetPrice(v) => item.(price := v)
  }

  /** `updateItem`: only the addressed item of the addressed card changes, in one field. */
  function UpdateItem(prev: seq<Entry>, participantIndex: int, itemIndex: int, edit: ItemEdit): (next: seq<Entry>)
    ensures |next| == |prev|
    ensures forall k :: 0 <= k < |prev| && k != participantIndex ==> next[k] == prev[k]
    ensures 0 <= participantIndex < |prev| ==>
              var p, q := prev[participantIndex], next[participantIndex];
              q.id == p.id && q.name == p.name && q.paymentDetails == p.paymentDetails &&
              |q.items| == |p.items| &&
              forall m :: 0 <= m < |p.items| ==>
                q.items[m] == if m == itemIndex then EditItem(p.items[m], edit) else p.items[m]
  {
    seq(|prev|, k requires 0 <= k < |prev| =>
      if k == participantIndex then
        prev[k].(items := seq(|prev[k].items|, m requires 0 <= m < |prev[k].items| =>
          if m == itemIndex then EditItem(prev[k].items[m], edit) else prev[k].items[m]))
      else prev[k])
  }

  /** `items.filter((_, j) => j !== m)`: drops the item at position `m`, if there is one. */
  function DropIndex(items: seq<Item>, m: int): (r: seq<Item>)
    ensures 0 <= m < |items| ==> r == items[..m] + items[m + 1..]
    ensures !(0 <= m < |items|) ==> r == items
  {
    if items == [] then []
    else
      var n := |items| - 1;
      var r := DropIndex(items[..n], m) + (if m == n then [] else [items[n]]);
      assert 0 <= m < n ==> items[..n][..m] + items[..n][m + 1..] + [items[n]] == items[..m] + items[m + 1..];
      assert m == n ==> items[..n] == items[..m] + items[m + 1..];
      r
  }

  /** `removeItem`: the card at `participantIndex` loses its item at `itemIndex`. */
  function RemoveItem(prev: seq<Entry>, participantIndex: int, itemIndex: int): (next: seq<Entry>)
    ensures |next| == |prev|
    ensures forall k :: 0 <= k < |prev| && k != participantIndex ==> next[k] == prev[k]
    ensures 0 <= participantIndex < |prev| ==>
              var p, q := prev[participantIndex], next[participantIndex];
              q.id == p.id && q.name == p.name && q.paymentDetails == p.paymentDetails &&
              q.items == DropIndex(p.items, itemIndex)
  {
    seq(|prev|, k requires 0 <= k < |prev| =>
      if k == participantIndex then prev[k].(items := DropIndex(prev[k].items, itemIndex)) else prev[k])
  }

  /** Adding an item and removing the last item of the same card restores the list. */
  lemma AddThenRemoveItem(prev: seq<Entry>, participantIndex: int)
    requires 0 <= participantIndex < |prev|
    ensures RemoveItem(AddItem(prev, participantIndex), participantIndex, |prev[participantIndex].items|) == prev
  {
    var next := RemoveItem(AddItem(prev, participantIndex), participantIndex, |prev[participantIndex].items|);
    var items := prev[participantIndex].items;
    assert (items + [Item("", 0.0)])[..|items|] == items;
    assert (items + [Item("", 0.0)])[|items| + 1..] == [];
    assert next[participantIndex] == prev[participantIndex];
  }

  // ---------------------------------------------------------------------------
  // The sum of all item prices (`totalAmount`)

  /** `totalAmount`: the sum over the cards of their item totals, as a left fold. */
  function TotalAmount(es: seq<Entry>): real
  {
    if es == [] then 0.0 else TotalAmount(es[..|es| - 1]) + ItemsTotal(es[|es| - 1].items)
  }

  lemma {:induction false} TotalAmountAppend(a: seq<Entry>, b: seq<Entry>)
    ensures TotalAmount(a + b) == TotalAmount(a) + TotalAmount(b)
    decreases |b|
  {
    if b == [] {
      assert a + b == a;
    } else {
      var n := |b| - 1;
      assert (a + b)[..|a + b| - 1] == a + b[..n];
      TotalAmountAppend(a, b[..n]);
    }
  }

  /** Replacing one card changes the total by the difference of that card's item totals. */
  lemma TotalAmountReplace(es: seq<Entry>, k: nat, e: Entry)
    requires k < |es|
    ensures TotalAmount(es[k := e]) == TotalAmount(es) - ItemsTotal(es[k].items) + ItemsTotal(e.items)
  {
    assert es == es[..k] + [es[k]] + es[k + 1..];
    assert es[k := e] == es[..k] + [e] + es[k + 1..];
    TotalAmountAppend(es[..k] + [es[k]], es[k + 1..]);
    TotalAmountAppend(es[..k] + [e], es[k + 1..]);
    TotalAmountAppend(es[..k], [es[k]]);
    TotalAmountAppend(es[..k], [e]);
    assert [es[k]][..0] == [] && [e][..0] == [];
  }

  /** Replacing one item changes the item total by the difference of the prices. */
  lemma ItemsTotalReplace(items: seq<Item>, m: nat, item: Item)
    requires m < |items|
    ensures ItemsTotal(items[m := item]) == ItemsTotal(items) - items[m].price + item.price
  {
    assert items == items[..m] + [items[m]] + items[m + 1..];
    assert items[m := item] == items[..m] + [item] + items[m + 1..];
    ItemsTotalAppend(items[..m] + [items[m]], items[m + 1..]);
    ItemsTotalAppend(items[..m] + [item], items[m + 1..]);
    ItemsTotalAppend(items[..m], [items[m]]);
    ItemsTotalAppend(items[..m], [item]);
    assert [items[m]][..0] == [] && [item][..0] == [];
  }

  /** Field edits of a card leave the total alone. */
  lemma UpdateParticipantTotal(prev: seq<Entry>, id: int, key: ParticipantField, value: string)
    ensures TotalAmount(UpdateParticipant(prev, id, key, value)) == TotalAmount(prev)
  {
    var next := UpdateParticipant(prev, id, key, value);
    SameItemsSameTotal(prev, next);
  }

  lemma {:induction false} SameItemsSameTotal(a: seq<Entry>, b: seq<Entry>)
    requires |a| == |b| && forall k :: 0 <= k < |a| ==> a[k].items == b[k].items
    ensures TotalAmount(a) == TotalAmount(b)
  {
    if a != [] {
      SameItemsSameTotal(a[..|a| - 1], b[..|b| - 1]);
    }
  }

  /** A new item is priced zero, so the total does not move. */
  lemma AddItemTotal(prev: seq<Entry>, participantIndex: int)
    ensures TotalAmount(AddItem(prev, participantIndex)) == TotalAmount(prev)
  {
    var next := AddItem(prev, participantIndex);
    if 0 <= participantIndex < |prev| {
      var items := prev[participantIndex].items;
      assert next == prev[participantIndex := next[participantIndex]];
      assert next[participantIndex].items == items + [Item("", 0.0)];
      ItemsTotalAppend(items, [Item("", 0.0)]);
      assert [Item("", 0.0)][..0] == [];
      TotalAmountReplace(prev, participantIndex, next[participantIndex]);
    } else {
      assert next == prev;
    }
  }

  /** Editing a price moves the total by the change in price; renaming an item does not move it. */
  lemma UpdateItemTotal(prev: seq<Entry>, participantIndex: int, itemIndex: int, edit: ItemEdit)
    ensures var next := UpdateItem(prev, participantIndex, itemIndex, edit);
            if 0 <= participantIndex < |prev| && 0 <= itemIndex < |prev[participantIndex].items| && edit.SetPrice? then
              TotalAmount(next) == TotalAmount(prev) - prev[participantIndex].items[itemIndex].price + edit.price
            else
              TotalAmount(next) == TotalAmount(prev)
  {
    var next := UpdateItem(prev, participantIndex, itemIndex, edit);
    if 0 <= participantIndex < |prev| {
      var items := prev[participantIndex].items;
      assert next == prev[participantIndex := next[participantIndex]];
      if 0 <= itemIndex < |items| {
        assert next[participantIndex].items == items[itemIndex := EditItem(items[itemIndex], edit)];
        ItemsTotalReplace(items, itemIndex, EditItem(items[itemIndex], edit));
      } else {
        assert next[participantIndex].items == items;
      }
      TotalAmountReplace(prev, participantIndex, next[participantIndex]);
    } else {
      assert next == prev;
    }
  }

  /** Removing an existing item lowers the total by its price; an index out of range changes nothing. */
  lemma RemoveItemTotal(prev: seq<Entry>, participantIndex: int, itemIndex: int)
    ensures var next := RemoveItem(prev, participantIndex, itemIndex);
            if 0 <= participantIndex < |prev| && 0 <= itemIndex < |prev[participantIndex].items| then
              TotalAmount(next) == TotalAmount(prev) - prev[participantIndex].items[itemIndex].price
            else
              next == prev
  {
    var next := RemoveItem(prev, participantIndex, itemIndex);
    if 0 <= participantIndex < |prev| {
      var items := prev[participantIndex].items;
      assert next == prev[participantIndex := next[participantIndex]];
      if 0 <= itemIndex < |items| {
        assert items == items[..itemIndex] + [items[itemIndex]] + items[itemIndex + 1..];
        ItemsTotalAppend(items[..itemIndex] + [items[itemIndex]], items[itemIndex + 1..]);
        ItemsTotalAppend(items[..itemIndex], [items[itemIndex]]);
        ItemsTotalAppend(items[..itemIndex], items[itemIndex + 1..]);
        assert [items[itemIndex]][..0] == [];
        TotalAmountReplace(prev, participantIndex, next[participantIndex]);
      } else {
        assert next[participantIndex] == prev[participantIndex];
        assert next == prev;
      }
    } else {
      assert next == prev;
    }
  }

  lemma {:induction false} TotalOfLedger(es: seq<Entry>, l: seq<Payment>)
    requires |l| == |es| && forall k :: 0 <= k < |es| ==> l[k].amount == ItemsTotal(es[k].items)
    ensures Total(l) == TotalAmount(es)
  {
    if es != [] {
      TotalOfLedger(es[..|es| - 1], l[..|l| - 1]);
    }
  }

  /**
   * When the names are pairwise distinct, the page's total is the engine's
   * `totalAmount` over the ledger.
   */
  lemma TotalAmountMatchesLedger(es: seq<Entry>)
    requires forall a, b :: 0 <= a < b < |es| ==> es[a].name != es[b].name
    ensures TotalAmount(es) == Total(Payments(AsParticipants(es)))
  {
    var ps := AsParticipants(es);
    PaymentsOfDistinct(ps);
    TotalOfLedger(es, Payments(ps));
  }

  // ---------------------------------------------------------------------------
  // The guards of handleCalculate

  /** A character that ECMAScript's `String.prototype.trim` removes (WhiteSpace or LineTerminator). */
  predicate IsSpace(c: char)
  {
    c == '\t' || c == '\n' || c == '\U{000B}' || c == '\U{000C}' || c == '\r' || c == ' ' ||
    c == '\U{00A0}' || c == '\U{1680}' || ('\U{2000}' <= c <= '\U{200A}') ||
    c == '\U{2028}' || c == '\U{2029}' || c == '\U{202F}' || c == '\U{205F}' ||
    c == '\U{3000}' || c == '\U{FEFF}'
  }

  /** `s.trim() === ""`: nothing but white space. */
  predicate IsBlank(s: string)
  {
    forall k :: 0 <= k < |s| ==> IsSpace(s[k])
  }

  /** Some card has items but no name. */
  predicate MissingName(es: seq<Entry>)
  {
    exists k :: 0 <= k < |es| && |es[k].items| > 0 && IsBlank(es[k].name)
  }

  const TooFewParticipants := "Should be more than 1 participants"
  const ZeroTotal := "Total amount is 0"
  const NameRequired := "Name of every participants is required."

  /** The cards pass all three guards and reach the engine. */
  predicate Accepted(es: seq<Entry>)
  {
    |es| >= 2 && TotalAmount(es) != 0.0 && !MissingName(es)
  }

  /**
   * The first guard counts cards, not names: two or more cards under one
   * non-blank name pass every guard exactly when their total is nonzero.
   */
  lemma OneNameAccepted(es: seq<Entry>)
    requires |es| >= 2
    requires forall k :: 0 <= k < |es| ==> es[k].name == es[0].name
    requires !IsBlank(es[0].name)
    ensures Accepted(es) <==> TotalAmount(es) != 0.0
  {
    assert !MissingName(es);
  }

  /** The engine counts distinct names: cards that all share one name settle nothing. */
  lemma OneNameSettlesNothing(es: seq<Entry>)
    requires forall k :: 0 <= k < |es| ==> es[k].name == es[0].name
    ensures Settle(AsParticipants(es)) == []
  {
    var ps := AsParticipants(es);
    forall a, b | 0 <= a < b < |ps| ensures ps[a].name == ps[b].name {
      assert ps[a] == AsParticipant(es[a]) && ps[b] == AsParticipant(es[b]);
    }
    FewerThanTwoNames(ps);
  }

  // ---------------------------------------------------------------------------
  // Showing the result

  /** `participants.find((p) => p.name === name)`: the first card with that name. */
  function FindRecipient(es: seq<Entry>, name: string): (r: Option<Entry>)
    ensures r.None? <==> forall k :: 0 <= k < |es| ==> es[k].name != name
    ensures r.Some? ==> exists k :: 0 <= k < |es| && es[k] == r.value && es[k].name == name &&
                                    forall l :: 0 <= l < k ==> es[l].name != name
  {
    if es == [] then None
    else if es[0].name == name then Some(es[0])
    else
      var r := FindRecipient(es[1..], name);
      assert forall k :: 0 < k < |es| ==> es[k] == es[1..][k - 1];
      r
  }

  /**
   * `recipient?.paymentDetails`: the PayId shown beside a transaction, when the
   * first card named like its recipient has a non-empty one.
   */
  function ShownPayId(es: seq<Entry>, t: Transaction): (r: Option<string>)
    ensures r.Some? ==> r.value != "" && exists k :: 0 <= k < |es| && es[k].name == t.to && es[k].paymentDetails == r.value &&
                                                     forall l :: 0 <= l < k ==> es[l].name != t.to
    ensures r.None? ==> forall k :: 0 <= k < |es| && es[k].name == t.to ==> es[k].paymentDetails == "" || exists l :: 0 <= l < k && es[l].name == t.to
  {
    match FindRecipient(es, t.to)
    case None => None
    case Some(p) => if p.paymentDetails != "" then Some(p.paymentDetails) else None
  }

  /** Every transaction the engine returns for the cards has a recipient card. */
  lemma RecipientFound(es: seq<Entry>)
    ensures forall t :: t in Settle(AsParticipants(es)) ==> FindRecipient(es, t.to).Some?
  {
    var ps := AsParticipants(es);
    var ts := Settle(ps);
    SettleWellFormed(ps);
    forall t | t in ts ensures FindRecipient(es, t.to).Some? {
      var k :| 0 <= k < |ts| && ts[k] == t;
      var p :| 0 <= p < |ps| && ps[p].name == t.to;
      assert es[p].name == t.to;
    }
  }

  // ---------------------------------------------------------------------------
  // The page

  /** The state of the `Home` component. */
  class Home {
    var participants: seq<Entry>
    var transactions: seq<Transaction>
    var error: Option<string>

    /** One empty card, no result, no error. */
    constructor (id: int)
      ensures participants == [Blank(id)] && transactions == [] && error == None
    {
      participants := [Blank(id)];
      transactions := [];
      error := None;
    }

    method OnAddParticipant(id: int)
      modifies this
      ensures participants == AddParticipant(old(participants), id)
      ensures transactions == old(transactions) && error == old(error)
    {
      participants := AddParticipant(participants, id);
    }

    method OnUpdateParticipant(id: int, key: ParticipantField, value: string)
      modifies this
      ensures participants == UpdateParticipant(old(participants), id, key, value)
      ensures TotalAmount(participants) == TotalAmount(old(participants))
      ensures transactions == old(transactions) && error == old(error)
    {
      UpdateParticipantTotal(participants, id, key, value);
      participants := UpdateParticipant(participants, id, key, value);
    }

    method OnRemoveParticipant(id: int)
      modifies this
      ensures participants == RemoveParticipant(old(participants), id)
      ensures transactions == old(transactions) && error == old(error)
    {
      participants := RemoveParticipant(participants, id);
    }

    method OnAddItem(participantIndex: int)
      modifies this
      ensures participants == AddItem(old(participants), participantIndex)
      ensures TotalAmount(participants) == TotalAmount(old(participants))
      ensures transactions == old(transactions) && error == old(error)
    {
      AddItemTotal(participants, participantIndex);
      participants := AddItem(participants, participantIndex);
    }

    method OnUpdateItem(participantIndex: int, itemIndex: int, edit: ItemEdit)
      modifies this
      ensures participants == UpdateItem(old(participants), participantIndex, itemIndex, edit)
      ensures transactions == old(transactions) && error == old(error)
    {
      participants := UpdateItem(participants, participantIndex, itemIndex, edit);
    }

    method OnRemoveItem(participantIndex: int, itemIndex: int)
      modifies this
      ensures participants == RemoveItem(old(participants), participantIndex, itemIndex)
      ensures transactions == old(transactions) && error == old(error)
    {
      participants := RemoveItem(participants, participantIndex, itemIndex);
    }

    /**
     * `handleCalculate`: the first failing guard sets its message and leaves
     * the result alone; when all pass, the error is cleared and the result is
     * what the engine computes from the cards.
     */
    method HandleCalculate()
      modifies this
      ensures participants == old(participants)
      ensures |participants| < 2 ==>
                error == Some(TooFewParticipants) && transactions == old(transactions)
      ensures |participants| >= 2 && TotalAmount(participants) == 0.0 ==>
                error == Some(ZeroTotal) && transactions == old(transactions)
      ensures |participants| >= 2 && TotalAmount(participants) != 0.0 && MissingName(participants) ==>
                error == Some(NameRequired) && transactions == old(transactions)
      ensures Accepted(participants) ==>
                error == None && transactions == Settle(AsParticipants(participants))
    {
      if |participants| < 2 {
        error := Some(TooFewParticipants);
        return;
      }
      if TotalAmount(participants) == 0.0 {
        error := Some(ZeroTotal);
        return;
      }
      if exists k :: 0 <= k < |participants| && |participants[k].items| > 0 && IsBlank(participants[k].name) {
        error := Some(NameRequired);
        return;
      }
      error := None;
      transactions := CalculateTransactions(AsParticipants(participants));
    }
  }
}
