# co-spending debt ledger, modelled in Dafny

The program (`src/main.rs`) works out who owes whom across a list of shared
expenses. This project models its ledger engine, which sits inside `main`:

1. **Expansion** (`Expansion`, `expansion.dfy`). Each expense has an amount to cover:
   `amount` minus `received_funds`, where a missing `received_funds` counts as 0.
   - If the expense is to be paid by the prepaid-balance holder `"Quincy"` and
     that category has a prepaid balance, it is charged against the balance.
     When the payer is not Quincy, the balance drops by the amount and the
     amount is appended to the (payer, Quincy) list. When the payer is Quincy,
     nothing is recorded.
   - Otherwise the amount is split evenly among the roster members who are
     neither excluded nor the payer. One share is appended to each such
     member's (member, payer) list.
2. **Aggregation** (`Aggregation`, `aggregation.dfy`): every pair's list is
   summed into `netDebts`. The sum is subtracted from the debtor's
   `netBalances` entry and added to the creditor's.
3. **Ordering** (`Ordering`, `ordering.dfy`): the pairs are collected and
   sorted in place by debtor name for the report.

`Engine.Settle` (`engine.dfy`) runs the three in sequence, as `main` does.
The data model (`Domain`, `domain.dfy`) has the expense categories and the
`Expense` record. Amounts are `real`, names are `string`, and the per-pair
lists are a `map<(string, string), seq<real>>`.

Each mutating loop of `main` is a method over map- or array-valued state
with loop invariants. `ProcessExpense` and `ProcessExpenses` are proved
equal to the reference functions `Expand` and `Run`, and lemmas state what
those functions do. `Aggregate` is proved directly against set sums
(`Credit`, `Debit`, `MapSum`). `SortByDebtor` sorts an array in place.

The model does what the code does, including what it does not check:
- there is no reciprocal-debt netting step;
- nothing checks that `received_funds <= amount` (a larger
  `received_funds` gives a negative entry), or that the payer, the
  exclusions and `to_be_paid_by` are roster names;
- routing to a prepaid balance uses the single hard-coded holder `"Quincy"`.

## Model

| member | source | states |
|---|---|---|
| Expansion.Eligible | src/main.rs:79 | the members counted by the split are exactly the roster members who are neither excluded nor the payer, no more than the roster entries, and without duplicates when the roster has none |
| Expansion.EligibleCount | src/main.rs:79-81 | for a roster without duplicates, `split_between` (the divisor of each share) is exactly the number of distinct roster members who are neither excluded nor the payer |
| Expansion.ProcessExpense | src/main.rs:68-93 | the loop body over one expense yields exactly the prepaid map and debt lists of the reference `Expand` (prepaid charge, holder no-op, or in-order split) |
| Expansion.ProcessExpenses | src/main.rs:67-95 | processing the expense list in order from an empty ledger yields exactly `Run`, the left fold of `Expand` |
| Expansion.PrepaidCharge | src/main.rs:71-76 | a routed expense by someone other than Quincy lowers that category's prepaid balance by exactly the amount to cover and appends exactly that amount to the (payer, Quincy) list; no other prepaid entry or list changes |
| Expansion.SelfBilledIsNoOp | src/main.rs:71-76 | a routed expense paid by Quincy changes neither the debts nor the prepaid balances |
| Expansion.SplitShares | src/main.rs:79-93 | an unrouted expense leaves the prepaid map unchanged; with k > 0 sharers, each sharer's (sharer, payer) list becomes the old list (or the empty list) plus one share of amount/k at the end; no other list changes and no other pair appears |
| Expansion.NobodyToSplit | src/main.rs:79-80 | an unrouted expense that nobody on the roster shares in changes neither map |
| Expansion.SplitTouchesOnlySharers | src/main.rs:82-83 | any list changed by an unrouted expense has the payer as creditor and a non-excluded roster member other than the payer as debtor |
| Expansion.SplitAt | src/main.rs:82-91 | the in-order split loop appends exactly one share to each sharing member's list towards the payer, creating it when absent, and leaves every other pair as it was |
| Expansion.SplitSharesSumToAmount | src/main.rs:79-93 | the shares a split appends add up to exactly the amount to cover: the total the roster owes the payer grows by that amount |
| Expansion.EvenSharesCover | src/main.rs:81 | k equal shares amount/k add back up to the amount |
| Expansion.ExpandKeepsShape | src/main.rs:71-93 | one expense keeps every pair's debtor and creditor distinct and every list non-empty, only appends to lists, and never adds a prepaid category |
| Expansion.RunKeepsShape | src/main.rs:67-95 | the same holds across the whole expense list |
| Domain.TotalPush | src/main.rs:101 | appending an amount to a list adds exactly that amount to the list's sum |
| Aggregation.Aggregate | src/main.rs:98-105 | `netDebts` has exactly the pairs of the ledger, each with the sum of its list; `netBalances` has exactly the people in some pair, each with what they are owed minus what they owe; the balances sum to zero |
| Aggregation.AggregateStep | src/main.rs:101-104 | moving one pair's total from its debtor to its creditor keeps every balance equal to its position and keeps the balances summing to zero |
| Aggregation.FlowRemove | src/main.rs:99 | a person's credit or debit total is the same whichever pair the hash-map iteration visits first |
| Aggregation.MapSumUpdate | src/main.rs:103-104 | setting one balance changes the sum of all balances by exactly the difference |
| Ordering.StrLeTotal | src/main.rs:127 | any two names are comparable under the string order |
| Ordering.StrLeTransitive | src/main.rs:127 | the string order is transitive |
| Ordering.InsertDown | src/main.rs:127 | inserting the next pair `a[i]` into the sorted prefix leaves `a[..i + 1]` sorted by debtor, permutes the array, and leaves everything after index `i` untouched |
| Ordering.SortByDebtor | src/main.rs:127 | the in-place sort leaves the array ordered by debtor and a permutation of what it was |
| Ordering.SortedDebtors | src/main.rs:126-127 | the report order holds every pair of the ledger exactly once, ordered non-decreasingly by debtor |
| Engine.Settle | src/main.rs:67-127 | the whole run: the ledger is `Run` of the expenses, well-formed, aggregated as above with balances summing to zero, and its pairs are listed by debtor |

## Left out

- Console output and the table (src/main.rs:107-124, 129-152): these only format values, with `{:.2}` rounding.
- The hard-coded roster, prepaid amounts and expense list (src/main.rs:37-61): they are sample input, not logic. The model takes them as parameters.
- Floating point: amounts are `real`, so `f64` rounding and the summation order within a sum are not modelled.
- Hash-map iteration order: aggregation and key collection may visit pairs in any order, and the model proves its results for every order.
- Ordering.SortedDebtors: makes no claim about the relative order of pairs with the same debtor, because that order comes from hash-map iteration.
- Expansion.SplitShares: stated for a roster without duplicate names, as the program's roster is. With a duplicate, a member would get one share per occurrence.
- Expansion.SplitAt, Expansion.SplitTouchesOnlySharers, Expansion.SplitSharesSumToAmount and Expansion.EligibleCount: stated under the same duplicate-free roster assumption.
- Error checking, reciprocal-debt netting and several prepaid holders: the program has none of these, so the model has none either.
