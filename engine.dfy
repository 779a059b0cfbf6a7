/**
 The ledger run of the program's `main`, without its printing: process every
 expense, fold the lists into per-pair and per-person totals, and order the
 pairs by debtor for the report.
 */
module Engine {
  import opened Domain
  import opened Expansion
  import opened Aggregation
  import opened Ordering

  method Settle(roster: seq<string>, prepaid: Prepaid, data: seq<Expense>)
    returns (prepaid': Prepaid, debts: Debts, netDebts: map<Pair, real>,
             netBalances: map<string, real>, sortedDebtors: seq<Pair>)
    ensures (prepaid', debts) == Run(roster, prepaid, map[], data)
    ensures WellFormed(debts) && prepaid'.Keys == prepaid.Keys
    ensures netDebts.Keys == debts.Keys
    ensures forall k :: k in debts ==> netDebts[k] == Total(debts[k])
    ensures netBalances.Keys == Parties(debts.Keys)
    ensures forall p :: p in netBalances ==> netBalances[p] == Credit(debts, p) - Debit(debts, p)
    ensures MapSum(netBalances) == 0.0
    ensures multiset(sortedDebtors) == multiset(debts.Keys) && SortedByDebtor(sortedDebtors)
  {
    prepaid', debts := ProcessExpenses(roster, prepaid, data);
    RunKeepsShape(roster, prepaid, map[], data);
    netDebts, netBalances := Aggregate(debts);
    sortedDebtors := SortedDebtors(debts);
  }
}
