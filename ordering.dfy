/**
 The report order: the ledger's pairs collected into a list and sorted in
 place by debtor name. Pairs with the same debtor keep no promised order
 among themselves (they come out of a hash map).
 */
module Ordering {
  import opened Domain

  /**
   Lexicographic order on strings, character by character, a proper prefix
   first. Comparing code points agrees with comparing UTF-8 bytes.
   */
  predicate StrLe(a: string, b: string)
  {
    a == [] || (b != [] && (a[0] < b[0] || (a[0] == b[0] && StrLe(a[1..], b[1..]))))
  }

  lemma {:induction false} StrLeTotal(a: string, b: string)
    ensures StrLe(a, b) || StrLe(b, a)
  {
    if a != [] && b != [] && a[0] == b[0] {
      StrLeTotal(a[1..], b[1..]);
    }
  }

  lemma {:induction false} StrLeTransitive(a: string, b: string, c: string)
    requires StrLe(a, b) && StrLe(b, c)
    ensures StrLe(a, c)
  {
    if a != [] && a[0] == b[0] && b[0] == c[0] {
      StrLeTransitive(a[1..], b[1..], c[1..]);
    }
  }

  predicate DebtorLe(x: Pair, y: Pair)
  {
    StrLe(x.0, y.0)
  }

  predicate SortedByDebtor(s: seq<Pair>)
  {
    forall i, j :: 0 <= i < j < |s| ==> DebtorLe(s[i], s[j])
  }

  /** Exchanges the neighbours `a[j - 1]` and `a[j]`. */
  method SwapDown(a: array<Pair>, j: int)
    requires 0 < j < a.Length
    modifies a
    ensures a[..] == old(a[..])[j - 1 := old(a[j])][j := old(a[j - 1])]
    ensures multiset(a[..]) == old(multiset(a[..]))
  {
    a[j - 1], a[j] := a[j], a[j - 1];
  }

  /** Moves `a[i]` down into the sorted prefix `a[..i]`, leaving `a[..i + 1]` sorted. */
  method InsertDown(a: array<Pair>, i: int)
    requires 0 <= i < a.Length && SortedByDebtor(a[..i])
    modifies a
    ensures SortedByDebtor(a[..i + 1])
    ensures multiset(a[..]) == old(multiset(a[..]))
    ensures a[i + 1..] == old(a[i + 1..])
  {
    var j := i;
    while j > 0 && !DebtorLe(a[j - 1], a[j])
      invariant 0 <= j <= i
      invariant multiset(a[..]) == old(multiset(a[..]))
      invariant a[i + 1..] == old(a[i + 1..])
      invariant forall p, q :: 0 <= p < q <= i && p != j && q != j ==> DebtorLe(a[p], a[q])
      invariant forall q :: j < q <= i ==> DebtorLe(a[j], a[q])
    {
      StrLeTotal(a[j - 1].0, a[j].0);
      SwapDown(a, j);
      j := j - 1;
    }
    forall p, q | 0 <= p < q <= i
      ensures DebtorLe(a[p], a[q])
    {
      if q == j && p < j - 1 {
        StrLeTransitive(a[p].0, a[j - 1].0, a[j].0);
      }
    }
  }

  /** Sorts `a` in place by debtor (a stable insertion sort). */
  method SortByDebtor(a: array<Pair>)
    modifies a
    ensures SortedByDebtor(a[..])
    ensures multiset(a[..]) == old(multiset(a[..]))
  {
    for i := 0 to a.Length
      invariant SortedByDebtor(a[..i])
      invariant multiset(a[..]) == old(multiset(a[..]))
    {
      InsertDown(a, i);
    }
    assert a[..a.Length] == a[..];
  }

  /** The pairs of `debts`, each exactly once, ordered by debtor. */
  method SortedDebtors(debts: Debts) returns (sorted: seq<Pair>)
    ensures multiset(sorted) == multiset(debts.Keys)
    ensures SortedByDebtor(sorted)
  {
    var keys: seq<Pair> := [];
    var rest := debts.Keys;
    while rest != {}
      invariant rest <= debts.Keys
      invariant multiset(keys) == multiset(debts.Keys - rest)
      decreases rest
    {
      var k :| k in rest;
      assert debts.Keys - (rest - {k}) == (debts.Keys - rest) + {k};
      keys := keys + [k];
      rest := rest - {k};
    }
    var a := new Pair[|keys|](i requires 0 <= i < |keys| => keys[i]);
    assert a[..] == keys;
    SortByDebtor(a);
    sorted := a[..];
  }
}
