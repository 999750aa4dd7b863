/**
 The settlement of one group's expenses (`calculate_settlement`): every
 distinct payer is given the balance "what they paid minus an equal share
 of everything that was paid", rounded to cents. A positive balance means
 the payer paid more than their share and is owed money; a negative one
 means they owe.

 Amounts are exact reals; the accumulation dictionary, which Python keeps
 in insertion order, is a map together with the sequence of its keys in
 the order they were first inserted.
 */
module Settlement {
  import opened Rounding

  /** One expense row of a group: who paid, and how much. */
  datatype Expense = Expense(payer: int, amount: real)

  predicate Distinct(ps: seq<int>) {
    forall j, k :: 0 <= j < k < |ps| ==> ps[j] != ps[k]
  }

  // ----- Reference definitions, independent of the order of the rows -----

  /** The distinct payer ids appearing in `rows`. */
  ghost function Payers(rows: seq<Expense>): set<int> {
    set i | 0 <= i < |rows| :: rows[i].payer
  }

  /** The sum of the amounts that `p` paid. */
  ghost function PaidBy(rows: seq<Expense>, p: int): real {
    if rows == [] then 0.0
    else
      var last := rows[|rows| - 1];
      PaidBy(rows[..|rows| - 1], p) + (if last.payer == p then last.amount else 0.0)
  }

  /** The sum of all amounts paid. */
  ghost function Total(rows: seq<Expense>): real {
    if rows == [] then 0.0 else Total(rows[..|rows| - 1]) + rows[|rows| - 1].amount
  }

  /** The equal share of the total that falls to each distinct payer. */
  ghost function Share(rows: seq<Expense>): real {
    if rows == [] then 0.0
    else
      assert rows[0].payer in Payers(rows);
      Total(rows) / |Payers(rows)| as real
  }

  /** The balance of `p` before rounding. */
  ghost function Balance(rows: seq<Expense>, p: int): real {
    PaidBy(rows, p) - Share(rows)
  }

  /** The unrounded balance of every payer. */
  ghost function RawBalances(rows: seq<Expense>): map<int, real> {
    map p | p in Payers(rows) :: Balance(rows, p)
  }

  /** What the settlement of `rows` is: every payer's balance, rounded to cents. */
  ghost function SettlementOf(rows: seq<Expense>): map<int, real> {
    if rows == [] then map[]
    else map p | p in Payers(rows) :: Round2(Balance(rows, p))
  }

  /** The payer ids in the order they first appear in `rows`. */
  ghost function FirstSeen(rows: seq<Expense>): (ps: seq<int>)
    ensures Distinct(ps)
    ensures forall p :: p in ps <==> p in Payers(rows)
  {
    if rows == [] then []
    else
      PayersLast(rows);
      var ps := FirstSeen(rows[..|rows| - 1]);
      var q := rows[|rows| - 1].payer;
      if q in ps then ps else ps + [q]
  }

  /** Someone who paid nothing has paid 0.0 in total. */
  lemma {:induction false} PaidByNonPayer(rows: seq<Expense>, p: int)
    requires p !in Payers(rows)
    ensures PaidBy(rows, p) == 0.0
  {
    if rows != [] {
      PayersLast(rows);
      PaidByNonPayer(rows[..|rows| - 1], p);
    }
  }

  lemma PayersLast(rows: seq<Expense>)
    requires rows != []
    ensures Payers(rows) == Payers(rows[..|rows| - 1]) + {rows[|rows| - 1].payer}
  {
  }

  // ----- The computation -----

  /** The sum of `m`'s values at the keys `ps`, added up from left to right. */
  function SumOver(ps: seq<int>, m: map<int, real>): real
    requires forall p :: p in ps ==> p in m
  {
    if ps == [] then 0.0
    else
      var last := ps[|ps| - 1];
      assert last in ps;
      SumOver(ps[..|ps| - 1], m) + m[last]
  }

  /**
   The accumulation loop: what every payer paid, in a defaultdict whose keys
   `people` lists in insertion order.
   */
  method AccumulateTotals(rows: seq<Expense>) returns (people: seq<int>, totals: map<int, real>)
    ensures people == FirstSeen(rows)
    ensures totals.Keys == Payers(rows)
    ensures forall p :: p in totals ==> totals[p] == PaidBy(rows, p)
  {
    people, totals := [], map[];
    for i := 0 to |rows|
      invariant people == FirstSeen(rows[..i])
      invariant totals.Keys == Payers(rows[..i])
      invariant forall p :: p in totals ==> totals[p] == PaidBy(rows[..i], p)
    {
      assert rows[..i + 1][..i] == rows[..i];
      var payer, amount := rows[i].payer, rows[i].amount;
      // A key that is not in the dict yet starts at 0.0 and goes last.
      if payer !in totals {
        PaidByNonPayer(rows[..i], payer);
        people := people + [payer];
      }
      var before := if payer in totals then totals[payer] else 0.0;
      totals := totals[payer := before + amount];
      assert forall p :: PaidBy(rows[..i + 1], p) == PaidBy(rows[..i], p) + (if p == payer then amount else 0.0);
    }
    assert rows[..|rows|] == rows;
  }

  /**
   The balance map built from the accumulated totals: nothing for no people
   (and then no division), otherwise each person's total minus the mean of
   the totals, rounded to cents.
   */
  function Balances(people: seq<int>, totals: map<int, real>): (b: map<int, real>)
    requires forall p :: p in people ==> p in totals
    ensures b.Keys == set p | p in people
  {
    if |people| == 0 then map[]
    else
      var share := SumOver(people, totals) / |people| as real;
      map p | p in people :: Round2(totals[p] - share)
  }

  /** `calculate_settlement`: the balance of every payer of the group. */
  method CalculateSettlement(rows: seq<Expense>) returns (balances: map<int, real>)
    ensures balances == SettlementOf(rows)
    ensures balances.Keys == Payers(rows)
    ensures balances == map[] <==> rows == []
  {
    var people, totals := AccumulateTotals(rows);
    balances := Balances(people, totals);
    BalancesAreSettlement(rows, people, totals);
  }

  // ----- Lemmas the computation rests on -----

  /** The balance map of the accumulated totals is the settlement of the rows. */
  lemma BalancesAreSettlement(rows: seq<Expense>, people: seq<int>, totals: map<int, real>)
    requires Distinct(people)
    requires forall p :: p in people <==> p in Payers(rows)
    requires totals.Keys == Payers(rows)
    requires forall p :: p in totals ==> totals[p] == PaidBy(rows, p)
    ensures Balances(people, totals) == SettlementOf(rows)
  {
    SameSetSameSize(people, Payers(rows));
    if rows == [] {
      assert Payers(rows) == {};
    } else {
      MeanOfTotalsIsShare(rows, people, totals);
      var b, s := Balances(people, totals), SettlementOf(rows);
      assert b.Keys == s.Keys;
      forall p | p in s ensures b[p] == s[p] {
        BalanceOfPayer(rows, people, totals, p);
      }
    }
  }

  lemma BalanceOfPayer(rows: seq<Expense>, people: seq<int>, totals: map<int, real>, p: int)
    requires rows != [] && |people| > 0 && p in people
    requires forall q :: q in people ==> q in totals
    requires totals[p] == PaidBy(rows, p)
    requires SumOver(people, totals) / |people| as real == Share(rows)
    ensures p in Balances(people, totals)
    ensures Balances(people, totals)[p] == Round2(Balance(rows, p))
  {
  }

  /** The mean of the accumulated totals is the equal share of the rows. */
  lemma MeanOfTotalsIsShare(rows: seq<Expense>, people: seq<int>, totals: map<int, real>)
    requires rows != []
    requires Distinct(people)
    requires forall p :: p in people <==> p in Payers(rows)
    requires totals.Keys == Payers(rows)
    requires forall p :: p in totals ==> totals[p] == PaidBy(rows, p)
    ensures |people| > 0
    ensures SumOver(people, totals) / |people| as real == Share(rows)
  {
    assert rows[0].payer in people;
    SumOfPaidIsTotal(rows, people, totals);
    SameSetSameSize(people, Payers(rows));
  }

  /** A sequence without repetitions has as many elements as the set it enumerates. */
  lemma {:induction false} DistinctCard(ps: seq<int>)
    requires Distinct(ps)
    ensures |set p | p in ps| == |ps|
  {
    if ps != [] {
      var init, last := ps[..|ps| - 1], ps[|ps| - 1];
      DistinctCard(init);
      assert (set p | p in ps) == (set p | p in init) + {last};
      assert last !in (set p | p in init);
    }
  }

  /** A sequence without repetitions that enumerates `s` has `|s|` elements. */
  lemma SameSetSameSize(ps: seq<int>, s: set<int>)
    requires Distinct(ps)
    requires forall p :: p in ps <==> p in s
    ensures |ps| == |s|
  {
    DistinctCard(ps);
    assert (set p | p in ps) == s;
  }

  lemma {:induction false} SumOverZero(ps: seq<int>, m: map<int, real>)
    requires forall p :: p in ps ==> p in m && m[p] == 0.0
    ensures SumOver(ps, m) == 0.0
  {
    if ps != [] {
      assert ps[|ps| - 1] in ps;
      SumOverZero(ps[..|ps| - 1], m);
    }
  }

  lemma {:induction false} SumOverSame(ps: seq<int>, m: map<int, real>, m': map<int, real>)
    requires forall p :: p in ps ==> p in m && p in m' && m[p] == m'[p]
    ensures SumOver(ps, m) == SumOver(ps, m')
  {
    if ps != [] {
      assert ps[|ps| - 1] in ps;
      SumOverSame(ps[..|ps| - 1], m, m');
    }
  }

  /** Adding `a` at the one position of `q` adds `a` to the sum. */
  lemma {:induction false} SumOverBump(ps: seq<int>, m: map<int, real>, m': map<int, real>, q: int, a: real)
    requires Distinct(ps) && q in ps
    requires forall p :: p in ps ==> p in m && p in m' && m'[p] == m[p] + (if p == q then a else 0.0)
    ensures SumOver(ps, m') == SumOver(ps, m) + a
  {
    var init, last := ps[..|ps| - 1], ps[|ps| - 1];
    assert forall p :: p in init ==> p in ps;
    if last == q {
      assert q !in init;
      SumOverSame(init, m, m');
    } else {
      assert q in init;
      SumOverBump(init, m, m', q, a);
    }
  }

  /**
   Adding up what each payer paid, over any repetition-free list that names
   every payer, gives the total of all amounts.
   */
  lemma {:induction false} SumOfPaidIsTotal(rows: seq<Expense>, ps: seq<int>, m: map<int, real>)
    requires Distinct(ps)
    requires forall p :: p in Payers(rows) ==> p in ps
    requires forall p :: p in ps ==> p in m && m[p] == PaidBy(rows, p)
    ensures SumOver(ps, m) == Total(rows)
  {
    if rows == [] {
      SumOverZero(ps, m);
    } else {
      var init, last := rows[..|rows| - 1], rows[|rows| - 1];
      PayersLast(rows);
      var m' := map p | p in ps :: PaidBy(init, p);
      SumOfPaidIsTotal(init, ps, m');
      SumOverBump(ps, m', m, last.payer, last.amount);
    }
  }
}
