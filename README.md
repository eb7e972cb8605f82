# Bill splitting: settlement engine and form state

This project models a small bill-splitting web page in Dafny.

People are entered as participant cards. Each card has a name, a payment detail (a PayId) and a list of priced items. The engine, `calculateTransactions`, does the following:

- builds a ledger of what each distinct name paid;
- computes the mean;
- sorts the names by amount paid (a stable sort);
- takes each name's net balance (paid − mean);
- runs a greedy two-pointer sweep. The most-indebted name pays the most-owed name `min(debt, credit)`, rounded to cents in the output. Each pointer moves inward once its balance reaches exactly zero.

The page keeps the cards in state and edits them with pure updaters. It shows each card's own item total, and it checks three guards before it calls the engine; the second guard reads the sum of all item prices, which is never shown. For each transaction it looks up the recipient's PayId.

Modules:

- `Ledger` (`ledger.dfy`): the data records, the ledger keyed by name in first-insertion order, and the stable sort by amount.
- `Sweep` (`sweep.dfy`): the sweep as a function `Run` on a sequence of balances, with its invariant and the lemmas about it.
- `Settlement` (`settlement.dfy`): rounding, the mean, the net balances, and the function `Settle` that specifies the engine. It also holds the imperative `CalculateTransactions`, which builds the array of net balances, and `SweepInPlace`, the `while` loop that updates that array in place. Together they are proved equal to `Settle`. The end-to-end properties are lemmas about `Settle`.
- `Page` (`home.dfy`): the cards (`Entry` = participant + id) and the updaters as functions, with the total and guard predicates. The component state is the class `Home`, with fields `participants`, `transactions` and `error`. Its handlers reassign those fields.

Amounts are exact `real`s.

The code differs from a plain reading of the intended behaviour in two places, and the model follows the code:

- A group of two or more names whose balances are already all zero does not get an empty result. The loop still runs and emits ⌊n/2⌋ transactions of amount 0, pairing the k-th lowest payer with the k-th highest (`Settlement.SettledGroup`).
- When two cards share a name, the ledger keeps the item total of the *last* card, at the position of the *first* (`Ledger.PaymentsAmounts`, `Ledger.PaymentsOrder`).

## Model

| member | source | states |
|---|---|---|
| Ledger.FirstIndex | lib/calculateTransaction.ts:26-30 | the position returned holds the name and no earlier position does; this fixes a key's position in the ledger |
| Ledger.LastIndex | lib/calculateTransaction.ts:26-28 | the position returned holds the name and no later position does; this fixes which card's total a key keeps |
| Ledger.KeyIndex | lib/calculateTransaction.ts:24-28 | the index found holds the key and is -1 exactly when the key is absent |
| Ledger.ItemsTotalAppend | lib/calculateTransaction.ts:27 | the item-price fold over a concatenation is the sum of the two folds |
| Ledger.PutKeys | lib/calculateTransaction.ts:27 | assigning a key keeps the keys distinct, adds exactly that key, and either overwrites its entry in place or appends it |
| Ledger.PutNames | lib/calculateTransaction.ts:27 | assigning a key leaves the name at every existing position, and a new key goes last |
| Ledger.PaymentsKeys | lib/calculateTransaction.ts:24-30 | the ledger has pairwise distinct keys, and a name is a key iff some participant carries it |
| Ledger.PaymentsAmounts | lib/calculateTransaction.ts:26-28 | each key's amount is the item total of the last participant with that name |
| Ledger.PaymentsOrder | lib/calculateTransaction.ts:24-30 | keys appear in the order of the names' first occurrences |
| Ledger.PaymentsOfDistinct | lib/calculateTransaction.ts:24-31 | with pairwise distinct names the ledger is, position by position, each participant's name and item total |
| Ledger.OneKey | lib/calculateTransaction.ts:24-30 | when every participant has the same name the ledger has at most one key |
| Ledger.InsertMembers | lib/calculateTransaction.ts:38 | the members after insertion are the old members plus the inserted element |
| Ledger.InsertSorted | lib/calculateTransaction.ts:38 | inserting into a list sorted by amount keeps it sorted |
| Ledger.CountMultiplicity | lib/calculateTransaction.ts:38 | the occurrence count of an element is its multiplicity in the list's multiset |
| Ledger.InsertCount | lib/calculateTransaction.ts:38 | insertion adds exactly one occurrence of the inserted element and leaves every other count alone |
| Ledger.InsertTotal | lib/calculateTransaction.ts:38 | insertion adds the element's amount to the total |
| Ledger.SortSorted | lib/calculateTransaction.ts:38 | the sort yields a list in nondecreasing order of amount |
| Ledger.SortCount | lib/calculateTransaction.ts:38 | every element occurs as often in the sorted list as in the ledger |
| Ledger.SortPerm | lib/calculateTransaction.ts:38 | the sorted list is a permutation of the ledger |
| Ledger.SortTotal | lib/calculateTransaction.ts:38 | the sorted list has the ledger's total |
| Ledger.SortSpec | lib/calculateTransaction.ts:38 | the sort by amount yields a nondecreasing permutation of the same length and total |
| Ledger.InsertStable | lib/calculateTransaction.ts:38 | inserting into a sorted list places the new element after every element of equal amount, so the order among equal amounts is kept |
| Ledger.SortStable | lib/calculateTransaction.ts:38 | the sort is stable: the names with any given amount keep their ledger order |
| Ledger.InsertKeys | lib/calculateTransaction.ts:38 | insertion keeps keys distinct when the new key is fresh, and membership is old members plus the new one |
| Ledger.SortKeys | lib/calculateTransaction.ts:38 | sorting keeps the same members and keeps keys distinct |
| Sweep.Min | lib/calculateTransaction.ts:47 | `Math.min` is at most both operands and equals one of them |
| Sweep.Run | lib/calculateTransaction.ts:41-59 | the sweep keeps the balance list's length and every transfer goes from a lower position to a higher one inside the pointer range |
| Sweep.RunConserves | lib/calculateTransaction.ts:47-49 | each position's final balance is its start balance plus what it paid minus what it received |
| Sweep.RunCount | lib/calculateTransaction.ts:46-58 | every round moves a pointer, so there are at most `j - i` transfers |
| Sweep.SumUpdate | lib/calculateTransaction.ts:48-49 | overwriting one balance changes the sum by the difference |
| Sweep.SumAtLeast | lib/calculateTransaction.ts:46-49 | a sum of non-negative balances is at least each of them |
| Sweep.SumAtMost | lib/calculateTransaction.ts:46-49 | a sum of non-positive balances is at most each of them |
| Sweep.Ends | lib/calculateTransaction.ts:46-47 | under the loop invariant the debtor end is ≤ 0 and the creditor end is ≥ 0 |
| Sweep.Round | lib/calculateTransaction.ts:47-58 | one round (`Pay`, which rewrites only positions `i` and `j`) pays a non-negative debt and keeps the invariant, zero sum included, at the moved pointers |
| Sweep.RunSettles | lib/calculateTransaction.ts:41-59 | from zero-sum, sign-ordered balances the sweep ends with every balance zero and every transfer non-negative |
| Sweep.RunOnSettled | lib/calculateTransaction.ts:46-58 | on all-zero balances the loop pairs positions from the outside in with zero transfers |
| Sweep.ZeroPairsShape | lib/calculateTransaction.ts:46-58 | those pairs number ⌊(j-i+1)/2⌋ and the k-th pairs `i+k` with `j-k` |
| Settlement.Round2 | lib/calculateTransaction.ts:54 | the rounded amount is a whole number of cents within half a cent of the exact amount |
| Settlement.Round2NonNegative | lib/calculateTransaction.ts:54 | rounding a non-negative amount gives a non-negative amount |
| Settlement.TimesIsProduct | lib/calculateTransaction.ts:35 | repeated addition of the mean is the product |
| Settlement.MeanTimesCount | lib/calculateTransaction.ts:34-35 | the mean times the number of distinct names is the total |
| Settlement.EmitAt | lib/calculateTransaction.ts:51-55 | there is one transaction per transfer, and the k-th names the k-th transfer's two ends and carries its rounded amount |
| Settlement.EmitCons | lib/calculateTransaction.ts:51-55 | emitting a transfer in front emits its named, rounded transaction in front |
| Settlement.RoundEmits | lib/calculateTransaction.ts:46-58 | one loop round appends exactly the next transaction of the specified result |
| Settlement.RoundBalances | lib/calculateTransaction.ts:46-58 | one round of the loop moves at least one pointer and leaves the sweep's final balances unchanged |
| Settlement.SweepInPlace | lib/calculateTransaction.ts:41-61 | the loop, updating the balance array in place, returns exactly the named, rounded transfers of the sweep over the array's starting contents, and leaves the array holding the sweep's final balances (all zero from a valid start, by `Sweep.RunSettles`) |
| Settlement.CalculateTransactions | lib/calculateTransaction.ts:22-62 | building the ledger, mean, sorted names and net balances and then running the loop returns exactly `Settle(participants)` |
| Settlement.NetBalancesSum | lib/calculateTransaction.ts:39 | the net balances sum to the total minus count × mean |
| Settlement.SortedPaymentsKeys | lib/calculateTransaction.ts:30-38 | the sorted names are the ledger's keys, distinct, in nondecreasing order of amount |
| Settlement.SortedPaymentsAmounts | lib/calculateTransaction.ts:24-38 | each sorted entry is a participant's name with its last card's total, and every participant name appears |
| Settlement.BalancesAscending | lib/calculateTransaction.ts:38-39 | the initial net balances are nondecreasing |
| Settlement.NetBalancesSumZero | lib/calculateTransaction.ts:34-39 | balances taken against the exact mean of a same-total list sum to zero |
| Settlement.SortedNetBalancesSumZero | lib/calculateTransaction.ts:34-39 | the sorted ledger's net balances sum to zero |
| Settlement.BalancesSumZero | lib/calculateTransaction.ts:34-39 | the engine's initial net balances sum to zero |
| Settlement.BalancesStart | lib/calculateTransaction.ts:39-42 | the sweep invariant holds at `i = 0`, `j = n - 1` |
| Settlement.FewerThanTwoNames | lib/calculateTransaction.ts:24-46 | with one name or none the ledger has at most one key and the result is empty |
| Settlement.SettleCount | lib/calculateTransaction.ts:46-58 | there are at most (distinct names − 1) transactions |
| Settlement.SettleWellFormed | lib/calculateTransaction.ts:46-55 | every transaction is between two different participant names and has a non-negative amount |
| Settlement.SettleConserves | lib/calculateTransaction.ts:39-59 | for every name, unrounded amounts received minus paid equal its net balance, paid − mean |
| Settlement.TotalOfEqual | lib/calculateTransaction.ts:34 | a ledger of equal amounts totals count × amount |
| Settlement.TimesCancel | lib/calculateTransaction.ts:35 | count × x = count × y with a positive count gives x = y |
| Settlement.MeanOfEqual | lib/calculateTransaction.ts:34-35 | the mean of equal amounts is that amount |
| Settlement.SettledBalances | lib/calculateTransaction.ts:34-39 | when every name paid the same, every net balance is zero |
| Settlement.EmitZeroPairs | lib/calculateTransaction.ts:51-55 | naming the outside-in zero pairs of n sorted names gives ⌊n/2⌋ transactions, the k-th from the k-th to the (n−1−k)-th name, of amount 0 |
| Settlement.TransfersSettled | lib/calculateTransaction.ts:39-59 | when every name paid the same, the sweep's transfers are the outside-in zero pairs |
| Settlement.SettledGroup | lib/calculateTransaction.ts:46-58 | when every name paid the same, the result has ⌊n/2⌋ zero transactions pairing the k-th with the (n−1−k)-th sorted name |
| Settlement.EmitDrift | lib/calculateTransaction.ts:54 | rounding moves the sum of the amounts by at most half a cent per transaction |
| Settlement.SettleDrift | lib/calculateTransaction.ts:41-59 | the rounded transaction total is within half a cent per transaction of the unrounded total |
| Page.AddParticipant | app/page.tsx:23-28 | one empty card with the given id is appended and the earlier cards are kept |
| Page.UpdateParticipant | app/page.tsx:31-35 | only the named field of the cards with that id changes; ids, items and other fields stay |
| Page.RemoveParticipant | app/page.tsx:38-40 | a card survives iff it was present and its id differs |
| Page.RemoveParticipantAppend | app/page.tsx:38-40 | removal distributes over concatenation, so order is kept |
| Page.RemoveParticipantAbsent | app/page.tsx:38-40 | removing an id no card has leaves the list unchanged |
| Page.AddThenRemoveParticipant | app/page.tsx:23-40 | adding a card with a fresh id and removing that id restores the list |
| Page.AddItem | app/page.tsx:42-50 | the addressed card gets exactly one empty, zero-priced item at the end; other cards are unchanged, and an out-of-range index changes nothing |
| Page.UpdateItem | app/page.tsx:52-65 | only the addressed item of the addressed card changes, in the edited field |
| Page.DropIndex | app/page.tsx:71 | the item at an in-range position is cut out with the rest in order; an out-of-range position changes nothing |
| Page.RemoveItem | app/page.tsx:67-75 | only the addressed card loses the addressed item; everything else is unchanged |
| Page.AddThenRemoveItem | app/page.tsx:42-75 | adding an item and then removing the last item of that card restores the list |
| Page.TotalAmountAppend | app/page.tsx:77-80 | the total over concatenated card lists is the sum of the totals |
| Page.TotalAmountReplace | app/page.tsx:77-80 | replacing one card moves the total by the difference of the two cards' item totals |
| Page.ItemsTotalReplace | app/page.tsx:78 | replacing one item moves the card's item total by the price difference |
| Page.SameItemsSameTotal | app/page.tsx:77-80 | card lists with the same items position by position have the same total |
| Page.UpdateParticipantTotal | app/page.tsx:31-35 | editing a name or PayId leaves the total unchanged |
| Page.AddItemTotal | app/page.tsx:42-50 | adding an item leaves the total unchanged |
| Page.UpdateItemTotal | app/page.tsx:52-65 | editing a price moves the total by the price change, and renaming an item leaves it unchanged |
| Page.RemoveItemTotal | app/page.tsx:67-80 | removing an existing item lowers the total by its price, and an out-of-range index changes nothing |
| Page.TotalOfLedger | app/page.tsx:77-80 | a ledger matching the cards' item totals position by position has the page's total |
| Page.TotalAmountMatchesLedger | app/page.tsx:77-80 | with distinct names the page's total equals the engine's ledger total |
| Page.OneNameAccepted | app/page.tsx:83-102 | two or more cards under one non-blank name pass every guard exactly when their total is nonzero |
| Page.OneNameSettlesNothing | lib/calculateTransaction.ts:24-46 | cards that all share one name get no transaction from the engine |
| Page.FindRecipient | app/page.tsx:191 | the result is none iff no card has the name, and otherwise is the first card with it |
| Page.ShownPayId | app/page.tsx:191-202 | a PayId is shown only when it is non-empty and belongs to the first card with the recipient's name; none is shown when that first card has an empty PayId or no card has the name |
| Page.RecipientFound | app/page.tsx:191 | every transaction the engine returns for the cards has a recipient card |
| Page.Home.constructor | app/page.tsx:16-20 | the page starts with one empty card, no transactions and no error |
| Page.Home.OnAddParticipant | app/page.tsx:23-28 | the cards become `AddParticipant` of the old cards; result and error are unchanged |
| Page.Home.OnUpdateParticipant | app/page.tsx:31-35 | the cards become `UpdateParticipant` of the old cards, the total is unchanged, and result and error are unchanged |
| Page.Home.OnRemoveParticipant | app/page.tsx:38-40 | the cards become `RemoveParticipant` of the old cards; result and error are unchanged |
| Page.Home.OnAddItem | app/page.tsx:42-50 | the cards become `AddItem` of the old cards, the total is unchanged, and result and error are unchanged |
| Page.Home.OnUpdateItem | app/page.tsx:52-65 | the cards become `UpdateItem` of the old cards; result and error are unchanged |
| Page.Home.OnRemoveItem | app/page.tsx:67-75 | the cards become `RemoveItem` of the old cards; result and error are unchanged |
| Page.Home.HandleCalculate | app/page.tsx:82-103 | the guards are checked in order (fewer than two cards, zero total, a card with items and a blank name); the first that fails sets its message and leaves the result alone; otherwise the error is cleared and the result is `Settle` of the cards |

## Left out

- IEEE-754 arithmetic. Amounts are exact reals, so there is no `NaN`, no `-0` and no drift in the mean or in the `=== 0` tests of lib/calculateTransaction.ts:57-58. In particular `0 / 0` for an empty ledger is `NaN` in the source and `0` in `Settlement.Mean`. The loop never runs in that case, so the result is the same.
- Settlement.Round2: models `toFixed(2)` for non-negative amounts only, as rounding the exact amount half-up to cents. For a negative amount `toFixed` rounds a tie away from zero, while `Round2` rounds it up; the loop rounds only non-negative debts (`Sweep.RunSettles`). It leaves out the double conversion of `toFixed` and `parseFloat`, and the exponent notation `toFixed` uses from 1e21 up.
- The `isNaN(price) ? 0 : price` guard of app/page.tsx:78,165: with real prices it never applies.
- Parsing the price input (`parseFloat` of the text, empty text as 0, app/page.tsx:144). `Page.UpdateItem` takes the parsed value as its `SetPrice` argument.
- Page.UpdateParticipant: covers only the `name` and `paymentDetails` keys, the two the page calls it with (app/page.tsx:115,118). The signature would accept `"items"` with a string value, which would store a string in `items`; the page never makes such a call, so it is not modelled.
- Page.UpdateItem: covers a string for `itemName` and a number for `price`, the two combinations the page uses (app/page.tsx:136,145). Mismatched combinations are not modelled.
- `Date.now()` ids. They are a clock reading, so the id is a parameter and two cards may share one.
- The `Object.keys` rule that puts integer-like keys first. Keys are kept in first-insertion order.
- Ledger.Put: treats every name as an ordinary key. In the source, assigning to `payments["__proto__"]` on a `{}` object calls the inherited `__proto__` setter, which ignores a number, so a participant named `__proto__` never becomes a key (lib/calculateTransaction.ts:27). `Ledger.PaymentsKeys`, `Ledger.PaymentsAmounts` and everything built on the ledger hold only for inputs without that name; with it the model settles a debt to `__proto__` where the source leaves that card out.
- Page.IsBlank: models `trim() === ""` as "every character is ECMAScript white space or a line terminator". Each code point is treated as one character.
- JSX rendering, the UI component library, icons, and the `useState` machinery (app/page.tsx:105-213, except the lookups at 191 and 200). config/site.ts is not part of this model; it holds static site metadata only.
