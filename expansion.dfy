/**
 Expansion of each expense into ledger entries: either a charge against the
 holder's prepaid balance for the expense's category, or an even split of the
 amount among the contributors who share in it.
 */
module Expansion {
  import opened Domain

  /** The amount still to be covered: `amount` minus `receivedFunds` (zero when absent). */
  function AmountToCover(e: Expense): real
  {
    e.amount - (if e.receivedFunds.Some? then e.receivedFunds.value else 0.0)
  }

  /** The expense is to be paid by the holder, and the holder has a prepaid balance for its category. */
  predicate RoutesToPrepaid(prepaid: Prepaid, e: Expense)
  {
    e.toBePaidBy == Some(HOLDER) && e.category in prepaid
  }

  /** `m` shares in the expense: `m` is neither excluded nor its payer. */
  predicate Shares(e: Expense, m: string)
  {
    m !in e.exclusions && m != e.payer
  }

  /** The members of `roster` who share in `e`, in roster order. */
  function Eligible(roster: seq<string>, e: Expense): (r: seq<string>)
    ensures |r| <= |roster|
    ensures forall m :: m in r <==> m in roster && Shares(e, m)
    ensures NoDup(roster) ==> NoDup(r)
  {
    if roster == [] then []
    else (if Shares(e, roster[0]) then [roster[0]] else []) + Eligible(roster[1..], e)
  }

  /** A list without duplicates has as many entries as distinct elements. */
  lemma {:induction false} DistinctCount(s: seq<string>)
    requires NoDup(s)
    ensures |s| == |set m | m in s|
  {
    if s != [] {
      var rest := s[1..];
      assert NoDup(rest);
      DistinctCount(rest);
      assert s[0] !in rest;
      assert (set m | m in s) == {s[0]} + (set m | m in rest);
    }
  }

  /**
   The number of sharers the split divides by is exactly the number of
   distinct roster members who are neither excluded nor the payer.
   */
  lemma EligibleCount(roster: seq<string>, e: Expense)
    requires NoDup(roster)
    ensures |Eligible(roster, e)| == |set m | m in roster && Shares(e, m)|
  {
    var r := Eligible(roster, e);
    DistinctCount(r);
    assert (set m | m in r) == (set m | m in roster && Shares(e, m));
  }

  /** Appends `x` to the list of pair `k`, creating the list when the pair is new. */
  function Push(debts: Debts, k: Pair, x: real): Debts
  {
    debts[k := Lookup(debts, k) + [x]]
  }

  /**
   The split loop run over `members` in order: every member who shares in `e`
   gets `share` appended to its list towards the payer.
   */
  function SplitAmong(debts: Debts, members: seq<string>, e: Expense, share: real): Debts
  {
    if members == [] then debts
    else
      var d := SplitAmong(debts, members[..|members| - 1], e, share);
      var m := members[|members| - 1];
      if Shares(e, m) then Push(d, (m, e.payer), share) else d
  }

  /** Reference definition of processing one expense: the new prepaid balances and debt lists. */
  function Expand(roster: seq<string>, prepaid: Prepaid, debts: Debts, e: Expense): (Prepaid, Debts)
  {
    var amount := AmountToCover(e);
    if RoutesToPrepaid(prepaid, e) then
      if e.payer != HOLDER then
        (prepaid[e.category := prepaid[e.category] - amount], Push(debts, (e.payer, HOLDER), amount))
      else
        (prepaid, debts)
    else
      var k := |Eligible(roster, e)|;
      if k > 0 then (prepaid, SplitAmong(debts, roster, e, amount / k as real))
      else (prepaid, debts)
  }

  /** Reference definition of processing a list of expenses in order. */
  function Run(roster: seq<string>, prepaid: Prepaid, debts: Debts, data: seq<Expense>): (Prepaid, Debts)
  {
    if data == [] then (prepaid, debts)
    else
      var r := Run(roster, prepaid, debts, data[..|data| - 1]);
      Expand(roster, r.0, r.1, data[|data| - 1])
  }

  /** Processes one expense (the body of the expense loop). */
  method ProcessExpense(roster: seq<string>, prepaid: Prepaid, debts: Debts, e: Expense)
    returns (prepaid': Prepaid, debts': Debts)
    ensures (prepaid', debts') == Expand(roster, prepaid, debts, e)
  {
    prepaid', debts' := prepaid, debts;
    var receivedFunds := if e.receivedFunds.Some? then e.receivedFunds.value else 0.0;
    var amountToCover := e.amount - receivedFunds;

    if e.toBePaidBy == Some(HOLDER) && e.category in prepaid' {
      if e.payer != HOLDER {
        prepaid' := prepaid'[e.category := prepaid'[e.category] - amountToCover];
        var k := (e.payer, HOLDER);
        debts' := debts'[k := (if k in debts' then debts'[k] else []) + [amountToCover]];
      }
      return;
    }

    var splitBetween := |Eligible(roster, e)|;
    if splitBetween > 0 {
      var eachContributorOwes := amountToCover / splitBetween as real;
      for i := 0 to |roster|
        invariant debts' == SplitAmong(debts, roster[..i], e, eachContributorOwes)
      {
        var contributor := roster[i];
        assert roster[..i + 1][..i] == roster[..i];
        if contributor !in e.exclusions && contributor != e.payer {
          var k := (contributor, e.payer);
          if k in debts' {
            debts' := debts'[k := debts'[k] + [eachContributorOwes]];
          } else {
            assert [] + [eachContributorOwes] == [eachContributorOwes];
            debts' := debts'[k := [eachContributorOwes]];
          }
        }
      }
      assert roster[..|roster|] == roster;
    }
  }

  /** Processes every expense of `data` in order, starting from an empty ledger. */
  method ProcessExpenses(roster: seq<string>, prepaid: Prepaid, data: seq<Expense>)
    returns (prepaid': Prepaid, debts: Debts)
    ensures (prepaid', debts) == Run(roster, prepaid, map[], data)
  {
    prepaid', debts := prepaid, map[];
    for i := 0 to |data|
      invariant (prepaid', debts) == Run(roster, prepaid, map[], data[..i])
    {
      assert data[..i + 1][..i] == data[..i];
      prepaid', debts := ProcessExpense(roster, prepaid', debts, data[i]);
    }
    assert data[..|data|] == data;
  }

  // ---------------------------------------------------------------------------
  // Properties of one expense
  // ---------------------------------------------------------------------------

  /**
   Routed to the holder by someone else: the category's prepaid balance drops by
   exactly the amount to cover, exactly that amount is appended to the
   (payer, holder) list, and nothing else changes.
   */
  lemma PrepaidCharge(roster: seq<string>, prepaid: Prepaid, debts: Debts, e: Expense)
    requires RoutesToPrepaid(prepaid, e) && e.payer != HOLDER
    ensures var (p, d) := Expand(roster, prepaid, debts, e);
      && p.Keys == prepaid.Keys
      && p[e.category] == prepaid[e.category] - AmountToCover(e)
      && (forall c :: c in prepaid && c != e.category ==> p[c] == prepaid[c])
      && d.Keys == debts.Keys + {(e.payer, HOLDER)}
      && d[(e.payer, HOLDER)] == Lookup(debts, (e.payer, HOLDER)) + [AmountToCover(e)]
      && (forall k :: k in debts && k != (e.payer, HOLDER) ==> d[k] == debts[k])
  {
  }

  /** Routed to the holder and paid by the holder: nothing is recorded at all. */
  lemma SelfBilledIsNoOp(roster: seq<string>, prepaid: Prepaid, debts: Debts, e: Expense)
    requires RoutesToPrepaid(prepaid, e) && e.payer == HOLDER
    ensures Expand(roster, prepaid, debts, e) == (prepaid, debts)
  {
  }

  /** Effect of the split loop on one pair: exactly one append of `share` for a sharing member's pair towards the payer, no change elsewhere. */
  lemma {:induction false} SplitAt(debts: Debts, members: seq<string>, e: Expense, share: real, k: Pair)
    requires NoDup(members)
    ensures var r := SplitAmong(debts, members, e, share);
      && (k in r <==> k in debts || (k.1 == e.payer && k.0 in members && Shares(e, k.0)))
      && Lookup(r, k) == if k.1 == e.payer && k.0 in members && Shares(e, k.0)
                         then Lookup(debts, k) + [share] else Lookup(debts, k)
  {
    if members != [] {
      var init, m := members[..|members| - 1], members[|members| - 1];
      assert members == init + [m];
      assert NoDup(init);
      assert m !in init;
      SplitAt(debts, init, e, share, k);
    }
  }

  /**
   An expense that is not routed to a prepaid balance leaves the prepaid map
   alone, and with k > 0 sharing members appends amount / k to the list of
   each sharing member towards the payer and changes no other list.
   */
  lemma SplitShares(roster: seq<string>, prepaid: Prepaid, debts: Debts, e: Expense, k: Pair)
    requires NoDup(roster) && !RoutesToPrepaid(prepaid, e) && |Eligible(roster, e)| > 0
    ensures var (p, d) := Expand(roster, prepaid, debts, e);
      var share := AmountToCover(e) / |Eligible(roster, e)| as real;
      && p == prepaid
      && (k in d <==> k in debts || (k.1 == e.payer && k.0 in roster && Shares(e, k.0)))
      && Lookup(d, k) == if k.1 == e.payer && k.0 in roster && Shares(e, k.0)
                         then Lookup(debts, k) + [share] else Lookup(debts, k)
  {
    SplitAt(debts, roster, e, AmountToCover(e) / |Eligible(roster, e)| as real, k);
  }

  /** With nobody left to share an unrouted expense, neither map changes. */
  lemma NobodyToSplit(roster: seq<string>, prepaid: Prepaid, debts: Debts, e: Expense)
    requires !RoutesToPrepaid(prepaid, e) && forall m :: m in roster ==> !Shares(e, m)
    ensures Expand(roster, prepaid, debts, e) == (prepaid, debts)
  {
    if |Eligible(roster, e)| > 0 {
      var m := Eligible(roster, e)[0];
      assert m in Eligible(roster, e);
    }
  }

  /**
   The split only touches lists whose debtor is a sharing roster member and
   whose creditor is the payer; in particular never the payer's own list, an
   excluded contributor's list, or a list with equal debtor and creditor.
   */
  lemma SplitTouchesOnlySharers(roster: seq<string>, prepaid: Prepaid, debts: Debts, e: Expense, k: Pair)
    requires NoDup(roster) && !RoutesToPrepaid(prepaid, e)
    requires Lookup(Expand(roster, prepaid, debts, e).1, k) != Lookup(debts, k)
    ensures k.1 == e.payer && k.0 in roster && k.0 !in e.exclusions && k.0 != k.1
  {
    if |Eligible(roster, e)| > 0 {
      SplitShares(roster, prepaid, debts, e, k);
    }
  }

  /** Sum of the totals owed to `creditor` by each of `members`. */
  function OwedTo(debts: Debts, members: seq<string>, creditor: string): real
  {
    if members == [] then 0.0
    else TotalAt(debts, (members[0], creditor)) + OwedTo(debts, members[1..], creditor)
  }

  /** `n` copies of `share` added up. */
  function Repeat(share: real, n: nat): real
  {
    if n == 0 then 0.0 else Repeat(share, n - 1) + share
  }

  lemma {:induction false} RepeatIsProduct(share: real, n: nat)
    ensures Repeat(share, n) == share * n as real
  {
    if n > 0 {
      RepeatIsProduct(share, n - 1);
      assert share * n as real == share * (n - 1) as real + share;
    }
  }

  lemma {:induction false} OwedToGrowth(before: Debts, after: Debts, members: seq<string>, e: Expense, share: real)
    requires forall m :: m in members ==>
      TotalAt(after, (m, e.payer)) == TotalAt(before, (m, e.payer)) + (if Shares(e, m) then share else 0.0)
    ensures OwedTo(after, members, e.payer) == OwedTo(before, members, e.payer) + Repeat(share, |Eligible(members, e)|)
  {
    if members != [] {
      var m, rest := members[0], members[1..];
      OwedToGrowth(before, after, rest, e, share);
      if Shares(e, m) {
        assert Eligible(members, e) == [m] + Eligible(rest, e);
      } else {
        assert Eligible(members, e) == Eligible(rest, e);
      }
    }
  }

  /** The shares appended by a split add up to exactly the amount to cover. */
  lemma SplitSharesSumToAmount(roster: seq<string>, prepaid: Prepaid, debts: Debts, e: Expense)
    requires NoDup(roster) && !RoutesToPrepaid(prepaid, e) && |Eligible(roster, e)| > 0
    ensures OwedTo(Expand(roster, prepaid, debts, e).1, roster, e.payer)
         == OwedTo(debts, roster, e.payer) + AmountToCover(e)
  {
    var k := |Eligible(roster, e)|;
    var share := AmountToCover(e) / k as real;
    var d := SplitAmong(debts, roster, e, share);
    assert Expand(roster, prepaid, debts, e).1 == d;
    forall m | m in roster
      ensures TotalAt(d, (m, e.payer)) == TotalAt(debts, (m, e.payer)) + (if Shares(e, m) then share else 0.0)
    {
      SplitTotalAt(debts, roster, e, share, m);
    }
    OwedToGrowth(debts, d, roster, e, share);
    EvenSharesCover(AmountToCover(e), k);
  }

  lemma SplitTotalAt(debts: Debts, roster: seq<string>, e: Expense, share: real, m: string)
    requires NoDup(roster) && m in roster
    ensures TotalAt(SplitAmong(debts, roster, e, share), (m, e.payer))
         == TotalAt(debts, (m, e.payer)) + (if Shares(e, m) then share else 0.0)
  {
    SplitAt(debts, roster, e, share, (m, e.payer));
    TotalPush(Lookup(debts, (m, e.payer)), share);
  }

  /** `k` equal shares of `amount` add back up to `amount`. */
  lemma EvenSharesCover(amount: real, k: nat)
    requires k > 0
    ensures Repeat(amount / k as real, k) == amount
  {
    var n := k as real;
    RepeatIsProduct(amount / n, k);
    assert (amount / n) * n == amount;
  }

  // ---------------------------------------------------------------------------
  // Shape of the ledger across expenses
  // ---------------------------------------------------------------------------

  lemma {:induction false} SplitKeepsShape(debts: Debts, members: seq<string>, e: Expense, share: real)
    requires WellFormed(debts)
    ensures WellFormed(SplitAmong(debts, members, e, share))
    ensures Extends(debts, SplitAmong(debts, members, e, share))
  {
    if members != [] {
      SplitKeepsShape(debts, members[..|members| - 1], e, share);
    }
  }

  /**
   One expense keeps every pair's debtor and creditor distinct and every list
   non-empty, only appends to lists, and keeps the prepaid categories.
   */
  lemma ExpandKeepsShape(roster: seq<string>, prepaid: Prepaid, debts: Debts, e: Expense)
    requires WellFormed(debts)
    ensures var (p, d) := Expand(roster, prepaid, debts, e);
      WellFormed(d) && Extends(debts, d) && p.Keys == prepaid.Keys
  {
    var k := |Eligible(roster, e)|;
    if !RoutesToPrepaid(prepaid, e) && k > 0 {
      SplitKeepsShape(debts, roster, e, AmountToCover(e) / k as real);
    }
  }

  /** A whole run keeps the same shape guarantees as each of its expenses. */
  lemma {:induction false} RunKeepsShape(roster: seq<string>, prepaid: Prepaid, debts: Debts, data: seq<Expense>)
    requires WellFormed(debts)
    ensures var (p, d) := Run(roster, prepaid, debts, data);
      WellFormed(d) && Extends(debts, d) && p.Keys == prepaid.Keys
  {
    if data != [] {
      var init := data[..|data| - 1];
      RunKeepsShape(roster, prepaid, debts, init);
      var r := Run(roster, prepaid, debts, init);
      ExpandKeepsShape(roster, r.0, r.1, data[|data| - 1]);
    }
  }
}
