/**
 Aggregation of the per-pair debt lists into one total per pair (`netDebts`)
 and one signed position per person (`netBalances`): negative for a net payer,
 positive for a net receiver.
 */
module Aggregation {
  import opened Domain

  datatype Side = Debtor | Creditor

  function PartyOf(k: Pair, side: Side): string
  {
    if side == Debtor then k.0 else k.1
  }

  /** What pair `k` adds to the sum of `p`'s pairs on `side`. */
  function Share(debts: Debts, k: Pair, p: string, side: Side): real
  {
    if PartyOf(k, side) == p then TotalAt(debts, k) else 0.0
  }

  /** Sum of the list totals of the pairs in `keys` that have `p` on `side`. */
  ghost function Flow(debts: Debts, keys: set<Pair>, p: string, side: Side): real
    decreases keys
  {
    if keys == {} then 0.0
    else
      var k :| k in keys;
      Share(debts, k, p, side) + Flow(debts, keys - {k}, p, side)
  }

  /** Total of the lists in which `p` is the creditor. */
  ghost function Credit(debts: Debts, p: string): real
  {
    Flow(debts, debts.Keys, p, Creditor)
  }

  /** Total of the lists in which `p` is the debtor. */
  ghost function Debit(debts: Debts, p: string): real
  {
    Flow(debts, debts.Keys, p, Debtor)
  }

  /** Everybody who appears in some pair of `keys`, as debtor or as creditor. */
  ghost function Parties(keys: set<Pair>): set<string>
  {
    (set k | k in keys :: k.0) + (set k | k in keys :: k.1)
  }

  /** The amount recorded for `x`, zero when `x` has no entry yet (`entry(x).or_insert(0.0)`). */
  function ValueAt<X>(m: map<X, real>, x: X): real
  {
    if x in m then m[x] else 0.0
  }

  /** Sum of the balances of the people in `people`. */
  ghost function SumOver(balances: map<string, real>, people: set<string>): real
    decreases people
  {
    if people == {} then 0.0
    else
      var p :| p in people;
      ValueAt(balances, p) + SumOver(balances, people - {p})
  }

  /** Sum of all recorded balances. */
  ghost function MapSum(balances: map<string, real>): real
  {
    SumOver(balances, balances.Keys)
  }

  // ---------------------------------------------------------------------------
  // The sums do not depend on the element the fold picks first
  // ---------------------------------------------------------------------------

  lemma {:induction false} FlowRemove(debts: Debts, keys: set<Pair>, p: string, side: Side, x: Pair)
    requires x in keys
    ensures Flow(debts, keys, p, side) == Share(debts, x, p, side) + Flow(debts, keys - {x}, p, side)
    decreases keys
  {
    var y :| y in keys && Flow(debts, keys, p, side) == Share(debts, y, p, side) + Flow(debts, keys - {y}, p, side);
    if y != x {
      FlowRemove(debts, keys - {y}, p, side, x);
      FlowRemove(debts, keys - {x}, p, side, y);
      assert keys - {y} - {x} == keys - {x} - {y};
    }
  }

  /** Someone who is party to none of `keys` has nothing on either side. */
  lemma {:induction false} FlowOfStranger(debts: Debts, keys: set<Pair>, p: string, side: Side)
    requires p !in Parties(keys)
    ensures Flow(debts, keys, p, side) == 0.0
    decreases keys
  {
    if keys != {} {
      var k :| k in keys && Flow(debts, keys, p, side) == Share(debts, k, p, side) + Flow(debts, keys - {k}, p, side);
      assert k.0 in Parties(keys) && k.1 in Parties(keys);
      assert Share(debts, k, p, side) == 0.0;
      assert Parties(keys - {k}) <= Parties(keys);
      FlowOfStranger(debts, keys - {k}, p, side);
    }
  }

  lemma {:induction false} SumOverRemove(balances: map<string, real>, people: set<string>, x: string)
    requires x in people
    ensures SumOver(balances, people) == ValueAt(balances, x) + SumOver(balances, people - {x})
    decreases people
  {
    var y :| y in people && SumOver(balances, people) == ValueAt(balances, y) + SumOver(balances, people - {y});
    if y != x {
      SumOverRemove(balances, people - {y}, x);
      SumOverRemove(balances, people - {x}, y);
      assert people - {y} - {x} == people - {x} - {y};
    }
  }

  /** The sum over `people` only reads the balances of `people`. */
  lemma {:induction false} SumOverFrame(a: map<string, real>, b: map<string, real>, people: set<string>)
    requires forall p :: p in people ==> ValueAt(a, p) == ValueAt(b, p)
    ensures SumOver(a, people) == SumOver(b, people)
    decreases people
  {
    if people != {} {
      var p :| p in people && SumOver(a, people) == ValueAt(a, p) + SumOver(a, people - {p});
      SumOverRemove(b, people, p);
      SumOverFrame(a, b, people - {p});
    }
  }

  /** Setting one balance changes the sum of all balances by the difference. */
  lemma MapSumUpdate(balances: map<string, real>, x: string, v: real)
    ensures MapSum(balances[x := v]) == MapSum(balances) - ValueAt(balances, x) + v
  {
    var after := balances[x := v];
    var rest := balances.Keys - {x};
    assert after.Keys - {x} == rest;
    SumOverRemove(after, after.Keys, x);
    SumOverFrame(after, balances, rest);
    if x in balances {
      SumOverRemove(balances, balances.Keys, x);
    } else {
      assert rest == balances.Keys;
    }
  }

  // ---------------------------------------------------------------------------
  // The aggregation loop
  // ---------------------------------------------------------------------------

  /** `p`'s signed position over the pairs in `keys`: what p is owed minus what p owes. */
  ghost function Position(debts: Debts, keys: set<Pair>, p: string): real
  {
    Flow(debts, keys, p, Creditor) - Flow(debts, keys, p, Debtor)
  }

  /** `balances` holds exactly the positions of the parties of `keys`, and they cancel out. */
  ghost predicate Balanced(debts: Debts, keys: set<Pair>, balances: map<string, real>)
  {
    && balances.Keys == Parties(keys)
    && (forall p :: p in balances ==> balances[p] == Position(debts, keys, p))
    && MapSum(balances) == 0.0
  }

  /** Moving pair `k`'s total from its debtor to its creditor keeps every recorded position right. */
  lemma PositionsStep(debts: Debts, done: set<Pair>, k: Pair, before: map<string, real>, after: map<string, real>)
    requires k !in done
    requires before.Keys == Parties(done)
    requires forall p :: p in before ==> before[p] == Position(debts, done, p)
    requires forall p :: p in after ==>
      after[p] == ValueAt(before, p) + Share(debts, k, p, Creditor) - Share(debts, k, p, Debtor)
    ensures forall p :: p in after ==> after[p] == Position(debts, done + {k}, p)
  {
    var done' := done + {k};
    assert done' - {k} == done;
    forall p | p in after
      ensures after[p] == Position(debts, done', p)
    {
      FlowRemove(debts, done', p, Creditor, k);
      FlowRemove(debts, done', p, Debtor, k);
      if p !in before {
        FlowOfStranger(debts, done, p, Creditor);
        FlowOfStranger(debts, done, p, Debtor);
      }
    }
  }

  /** One step of the loop keeps the balances right and cancelling out. */
  lemma AggregateStep(debts: Debts, done: set<Pair>, k: Pair, before: map<string, real>, after: map<string, real>)
    requires k !in done && Balanced(debts, done, before)
    requires var middle := before[k.0 := ValueAt(before, k.0) - TotalAt(debts, k)];
      after == middle[k.1 := ValueAt(middle, k.1) + TotalAt(debts, k)]
    ensures Balanced(debts, done + {k}, after)
  {
    var (debtor, creditor) := k;
    var total := TotalAt(debts, k);
    var middle := before[debtor := ValueAt(before, debtor) - total];
    MapSumUpdate(before, debtor, ValueAt(before, debtor) - total);
    MapSumUpdate(middle, creditor, ValueAt(middle, creditor) + total);
    assert MapSum(after) == 0.0;
    PositionsStep(debts, done, k, before, after);
    assert Parties(done + {k}) == Parties(done) + {debtor, creditor};
  }

  /**
   Folds every pair's list into `netDebts` and `netBalances`, visiting the pairs
   in an unspecified order (the order of a hash map).
   */
  method Aggregate(debts: Debts) returns (netDebts: map<Pair, real>, netBalances: map<string, real>)
    ensures netDebts.Keys == debts.Keys
    ensures forall k :: k in debts ==> netDebts[k] == Total(debts[k])
    ensures netBalances.Keys == Parties(debts.Keys)
    ensures forall p :: p in netBalances ==> netBalances[p] == Credit(debts, p) - Debit(debts, p)
    ensures MapSum(netBalances) == 0.0
  {
    netDebts, netBalances := map[], map[];
    var remaining := debts.Keys;
    ghost var done: set<Pair> := {};
    assert Parties(done) == {};
    while remaining != {}
      invariant remaining <= debts.Keys && done == debts.Keys - remaining
      invariant netDebts.Keys == done
      invariant forall k :: k in done ==> netDebts[k] == Total(debts[k])
      invariant Balanced(debts, done, netBalances)
      decreases remaining
    {
      var k :| k in remaining;
      var (debtor, creditor) := k;
      var total := Total(debts[k]);

      netDebts := netDebts[k := ValueAt(netDebts, k) + total];

      ghost var before := netBalances;
      netBalances := netBalances[debtor := ValueAt(netBalances, debtor) - total];
      netBalances := netBalances[creditor := ValueAt(netBalances, creditor) + total];
      AggregateStep(debts, done, k, before, netBalances);

      remaining := remaining - {k};
      done := done + {k};
    }
  }
}
