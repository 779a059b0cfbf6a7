/**
 The data model of the co-spending ledger: expense categories, expenses,
 and the maps that the engine keeps (per-pair debt lists, prepaid balances).
 Amounts are modelled as `real`; the program's `f64` is only a carrier.
 */
module Domain {

  /** Kinds of food expense, the nested sub-category of `ExpenseCategory.Food`. */
  datatype FoodExpense = Groceries | Chef | Restaurant

  /** The closed set of expense categories; used only as keys of the prepaid map. */
  datatype ExpenseCategory =
    | Transport
    | TransportDamange
    | BottleService
    | Liquor
    | Other
    | Backwoods
    | Food(kind: FoodExpense)
    | Restaurant
    | Airbnb

  datatype Option<T> = None | Some(value: T)

  /** One shared expense, as recorded in the expense list. */
  datatype Expense = Expense(
    payer: string,
    amount: real,
    exclusions: seq<string>,
    category: ExpenseCategory,
    receivedFunds: Option<real>,
    toBePaidBy: Option<string>)

  /** An ordered (debtor, creditor) pair. */
  type Pair = (string, string)

  /** Per-pair lists of individual amounts, one entry appended per contributing expense. */
  type Debts = map<Pair, seq<real>>

  /** Remaining prepaid balance per category. */
  type Prepaid = map<ExpenseCategory, real>

  /** The one contributor who holds the prepaid balances. */
  const HOLDER: string := "Quincy"

  /** The list recorded for `k`, or the empty list when the pair has none yet. */
  function Lookup(debts: Debts, k: Pair): seq<real>
  {
    if k in debts then debts[k] else []
  }

  /** Sum of a list of amounts, folded from the left starting at zero. */
  function Total(xs: seq<real>): real
  {
    if xs == [] then 0.0 else Total(xs[..|xs| - 1]) + xs[|xs| - 1]
  }

  /** Appending an amount to a list adds it to the list's sum. */
  lemma TotalPush(xs: seq<real>, x: real)
    ensures Total(xs + [x]) == Total(xs) + x
  {
    assert (xs + [x])[..|xs|] == xs;
  }

  /** Sum of the list recorded for `k` (zero when the pair has none). */
  function TotalAt(debts: Debts, k: Pair): real
  {
    Total(Lookup(debts, k))
  }

  predicate NoDup(s: seq<string>)
  {
    forall i, j :: 0 <= i < j < |s| ==> s[i] != s[j]
  }

  /** Every recorded pair has two different parties and a non-empty list. */
  predicate WellFormed(debts: Debts)
  {
    forall k :: k in debts ==> k.0 != k.1 && |debts[k]| > 0
  }

  /**
   `after` extends `before`: no pair disappears and every list of `before`
   is a prefix of the corresponding list of `after` (appends only).
   */
  predicate Extends(before: Debts, after: Debts)
  {
    && before.Keys <= after.Keys
    && forall k :: k in before ==> before[k] <= after[k]
  }
}
