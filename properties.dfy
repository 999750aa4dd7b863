/**
 What the settlement promises about its result: balances that cancel out,
 a lone payer who owes nothing, signs that say who owes whom, and a result
 that does not depend on the order of the expense rows.
 */
module SettlementProperties {
  import opened Rounding
  import opened Settlement

  /** A list that names every payer of `rows` exactly once. */
  ghost predicate Enumerates(ps: seq<int>, rows: seq<Expense>) {
    Distinct(ps) && forall p :: p in ps <==> p in Payers(rows)
  }

  /** The payers in first-seen order are one such list. */
  lemma FirstSeenEnumerates(rows: seq<Expense>)
    ensures Enumerates(FirstSeen(rows), rows)
  {
  }

  lemma {:induction false} SumOverDiff(ps: seq<int>, m: map<int, real>, k: map<int, real>, d: map<int, real>)
    requires forall p :: p in ps ==> p in m && p in k && p in d && d[p] == m[p] - k[p]
    ensures SumOver(ps, d) == SumOver(ps, m) - SumOver(ps, k)
  {
    if ps != [] {
      var last := ps[|ps| - 1];
      assert last in ps;
      SumOverDiff(ps[..|ps| - 1], m, k, d);
    }
  }

  lemma {:induction false} SumOverConstant(ps: seq<int>, k: map<int, real>, c: real)
    requires forall p :: p in ps ==> p in k && k[p] == c
    ensures SumOver(ps, k) == |ps| as real * c
  {
    if ps != [] {
      var last := ps[|ps| - 1];
      assert last in ps;
      SumOverConstant(ps[..|ps| - 1], k, c);
    }
  }

  lemma {:induction false} SumOverRounded(ps: seq<int>, m: map<int, real>, m': map<int, real>)
    requires forall p :: p in ps ==> p in m && p in m' && m'[p] == Round2(m[p])
    ensures Abs(SumOver(ps, m') - SumOver(ps, m)) <= |ps| as real * 0.005
  {
    if ps != [] {
      var last := ps[|ps| - 1];
      assert last in ps;
      SumOverRounded(ps[..|ps| - 1], m, m');
    }
  }

  /** The equal shares of all payers add back up to the total. */
  lemma SharesMakeTotal(rows: seq<Expense>, ps: seq<int>)
    requires Enumerates(ps, rows)
    ensures SumOver(ps, map p | p in ps :: Share(rows)) == Total(rows)
  {
    var shares := map p | p in ps :: Share(rows);
    SumOverConstant(ps, shares, Share(rows));
    SameSetSameSize(ps, Payers(rows));
    if rows != [] {
      assert rows[0].payer in Payers(rows);
      var n, total := |ps| as real, Total(rows);
      assert n > 0.0;
      assert Share(rows) == total / n;
    }
  }

  /** Before rounding, the balances add up to exactly zero. */
  lemma RawBalancesSumToZero(rows: seq<Expense>, ps: seq<int>)
    requires Enumerates(ps, rows)
    ensures SumOver(ps, RawBalances(rows)) == 0.0
  {
    var paid := map p | p in ps :: PaidBy(rows, p);
    var shares := map p | p in ps :: Share(rows);
    var raw := RawBalances(rows);
    SumOfPaidIsTotal(rows, ps, paid);
    SharesMakeTotal(rows, ps);
    forall p | p in ps ensures p in raw && raw[p] == paid[p] - shares[p] {
      assert p in Payers(rows);
    }
    SumOverDiff(ps, paid, shares, raw);
  }

  /** After rounding, the balances add up to within half a cent per payer of zero. */
  lemma SettlementSumNearZero(rows: seq<Expense>, ps: seq<int>)
    requires Enumerates(ps, rows)
    ensures Abs(SumOver(ps, SettlementOf(rows))) <= |Payers(rows)| as real * 0.005
  {
    RawBalancesSumToZero(rows, ps);
    SameSetSameSize(ps, Payers(rows));
    if rows == [] {
      assert ps == [];
    } else {
      SumOverRounded(ps, RawBalances(rows), SettlementOf(rows));
    }
  }

  /**
   Summed in the order the settlement dictionary holds its keys (the order
   of first appearance), the unrounded balances cancel exactly and the
   rounded ones to within half a cent per payer.
   */
  lemma KeyOrderSumNearZero(rows: seq<Expense>)
    ensures SumOver(FirstSeen(rows), RawBalances(rows)) == 0.0
    ensures Abs(SumOver(FirstSeen(rows), SettlementOf(rows))) <= |Payers(rows)| as real * 0.005
  {
    FirstSeenEnumerates(rows);
    RawBalancesSumToZero(rows, FirstSeen(rows));
    SettlementSumNearZero(rows, FirstSeen(rows));
  }

  /** Everything one payer alone paid is everything that was paid. */
  lemma {:induction false} SolePayerPaidTotal(rows: seq<Expense>, q: int)
    requires forall i :: 0 <= i < |rows| ==> rows[i].payer == q
    ensures PaidBy(rows, q) == Total(rows)
  {
    if rows != [] {
      SolePayerPaidTotal(rows[..|rows| - 1], q);
    }
  }

  /** When every row has the same payer, that payer's balance is 0.0. */
  lemma SolePayerOwesNothing(rows: seq<Expense>, q: int)
    requires rows != []
    requires forall i :: 0 <= i < |rows| ==> rows[i].payer == q
    ensures SettlementOf(rows) == map[q := 0.0]
  {
    assert rows[0].payer == q;
    assert Payers(rows) == {q};
    SolePayerPaidTotal(rows, q);
    assert Balance(rows, q) == 0.0;
    Round2Exact(0.0);
  }

  /**
   A positive balance means the payer paid more than the equal share and a
   negative one that they paid less; a difference of more than half a cent
   always shows in the sign.
   */
  lemma BalanceSign(rows: seq<Expense>, p: int)
    requires p in Payers(rows)
    ensures p in SettlementOf(rows)
    ensures SettlementOf(rows)[p] > 0.0 ==> PaidBy(rows, p) > Share(rows)
    ensures SettlementOf(rows)[p] < 0.0 ==> PaidBy(rows, p) < Share(rows)
    ensures PaidBy(rows, p) > Share(rows) + 0.005 ==> SettlementOf(rows)[p] > 0.0
    ensures PaidBy(rows, p) < Share(rows) - 0.005 ==> SettlementOf(rows)[p] < 0.0
  {
  }

  /** Splitting the rows anywhere splits what each payer paid. */
  lemma {:induction false} PaidByAppend(a: seq<Expense>, b: seq<Expense>, p: int)
    ensures PaidBy(a + b, p) == PaidBy(a, p) + PaidBy(b, p)
  {
    if b == [] {
      assert a + b == a;
    } else {
      assert (a + b)[..|a + b| - 1] == a + b[..|b| - 1];
      PaidByAppend(a, b[..|b| - 1], p);
    }
  }

  /** Taking out the row at `j` takes its amount out of what its payer paid. */
  lemma PaidByRemove(rows: seq<Expense>, j: nat, p: int)
    requires j < |rows|
    ensures PaidBy(rows, p) == PaidBy(rows[..j] + rows[j + 1..], p) + (if rows[j].payer == p then rows[j].amount else 0.0)
  {
    var before, row, after := rows[..j], rows[j], rows[j + 1..];
    assert rows == before + ([row] + after);
    PaidByAppend(before, [row] + after, p);
    PaidByPrepend(row, after, p);
    PaidByAppend(before, after, p);
  }

  lemma PaidByPrepend(row: Expense, rows: seq<Expense>, p: int)
    ensures PaidBy([row] + rows, p) == (if row.payer == p then row.amount else 0.0) + PaidBy(rows, p)
  {
    PaidByAppend([row], rows, p);
    assert [row][..0] == [];
  }

  /** What a payer paid does not depend on the order of the rows. */
  lemma {:induction false} PaidByPermutation(rows: seq<Expense>, rows': seq<Expense>, p: int)
    requires multiset(rows) == multiset(rows')
    ensures PaidBy(rows, p) == PaidBy(rows', p)
    decreases |rows|
  {
    if rows == [] {
      assert |multiset(rows')| == 0;
    } else {
      var init, last := rows[..|rows| - 1], rows[|rows| - 1];
      assert rows == init + [last];
      assert last in multiset(rows');
      var j :| 0 <= j < |rows'| && rows'[j] == last;
      var rest := rows'[..j] + rows'[j + 1..];
      assert rows' == rows'[..j] + [last] + rows'[j + 1..];
      assert multiset(init) == multiset(rows) - multiset{last};
      assert multiset(rest) == multiset(rows') - multiset{last};
      PaidByPermutation(init, rest, p);
      PaidByRemove(rows', j, p);
    }
  }

  /** The payers do not depend on the order of the rows. */
  lemma PayersPermutation(rows: seq<Expense>, rows': seq<Expense>)
    requires multiset(rows) == multiset(rows')
    ensures Payers(rows) == Payers(rows')
  {
    forall p | p in Payers(rows) ensures p in Payers(rows') {
      var i :| 0 <= i < |rows| && rows[i].payer == p;
      assert rows[i] in multiset(rows');
      var j :| 0 <= j < |rows'| && rows'[j] == rows[i];
    }
    forall p | p in Payers(rows') ensures p in Payers(rows) {
      var j :| 0 <= j < |rows'| && rows'[j].payer == p;
      assert rows'[j] in multiset(rows);
      var i :| 0 <= i < |rows| && rows[i] == rows'[j];
    }
  }

  /** The total, and so the equal share, do not depend on the order of the rows. */
  lemma SharePermutation(rows: seq<Expense>, rows': seq<Expense>)
    requires multiset(rows) == multiset(rows')
    ensures Total(rows) == Total(rows')
    ensures Share(rows) == Share(rows')
  {
    PayersPermutation(rows, rows');
    var ps := FirstSeen(rows);
    var paid := map p | p in ps :: PaidBy(rows, p);
    SumOfPaidIsTotal(rows, ps, paid);
    forall p | p in ps ensures paid[p] == PaidBy(rows', p) {
      PaidByPermutation(rows, rows', p);
    }
    SumOfPaidIsTotal(rows', ps, paid);
    assert rows == [] <==> rows' == [] by {
      assert |rows| == |multiset(rows)| == |multiset(rows')| == |rows'|;
    }
  }

  /** Reordering the expense rows does not change the settlement. */
  lemma SettlementPermutation(rows: seq<Expense>, rows': seq<Expense>)
    requires multiset(rows) == multiset(rows')
    ensures SettlementOf(rows) == SettlementOf(rows')
  {
    PayersPermutation(rows, rows');
    SharePermutation(rows, rows');
    assert |rows| == |multiset(rows)| == |multiset(rows')| == |rows'|;
    if rows != [] {
      var s, s' := SettlementOf(rows), SettlementOf(rows');
      forall p | p in Payers(rows) ensures s[p] == s'[p] {
        PaidByPermutation(rows, rows', p);
      }
      assert s.Keys == s'.Keys;
    }
  }

  /** Payer 1 paid 10 and payer 2 paid 20: payer 1 owes 5, payer 2 is owed 5. */
  lemma TwoPayerExample()
    ensures SettlementOf([Expense(1, 10.0), Expense(2, 20.0)]) == map[1 := -5.0, 2 := 5.0]
  {
    var rows := [Expense(1, 10.0), Expense(2, 20.0)];
    assert rows[..1] == [Expense(1, 10.0)];
    assert rows[..1][..0] == [];
    PayersLast(rows);
    PayersLast(rows[..1]);
    assert Payers(rows) == {1, 2};
    assert |Payers(rows)| == 2;
    assert Total(rows) == 30.0;
    assert Share(rows) == 15.0;
    assert PaidBy(rows, 1) == 10.0;
    assert PaidBy(rows, 2) == 20.0;
    assert Balance(rows, 1) == -5.0;
    assert Balance(rows, 2) == 5.0;
    Round2Exact(-5.0);
    Round2Exact(5.0);
  }

  /** The same two expenses in the other order give the same balances. */
  lemma TwoPayerExampleReordered()
    ensures SettlementOf([Expense(2, 20.0), Expense(1, 10.0)]) == map[1 := -5.0, 2 := 5.0]
  {
    var rows := [Expense(1, 10.0), Expense(2, 20.0)];
    var rows' := [Expense(2, 20.0), Expense(1, 10.0)];
    assert multiset(rows) == multiset(rows');
    SettlementPermutation(rows, rows');
    TwoPayerExample();
  }
}
