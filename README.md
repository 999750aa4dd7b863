# Expense-splitter settlement, modelled in Dafny

The expense splitter lets a group of people log who paid for what and then
asks for a settlement. The settlement function, `calculate_settlement`,
takes the group's expense rows as `(payer_id, amount)` pairs. It adds up
what each distinct payer paid. It splits the grand total equally among those
payers. Each payer then gets the balance `round(paid - share, 2)`. A positive
balance means the payer paid more than their share and is owed money. A
negative balance means they owe money. No rows give an empty settlement.

The project has three modules:

- `Rounding` (`rounding.dfy`) models Python's `round(x, 2)`. It rounds to the
  nearest hundredth, and a tie goes to the even neighbour.
- `Settlement` (`settlement.dfy`) holds the expense row datatype and a
  reference definition of the settlement (`SettlementOf`). That definition is
  built from the distinct payers, what each paid, the total and the equal
  share, and does not depend on the order of the rows. The module also holds
  the computation as the source performs it. `AccumulateTotals` is the loop
  that fills the accumulation dictionary. `Balances` is the empty check, the
  share and the balance comprehension. `CalculateSettlement` puts the two
  together and is proved equal to `SettlementOf`.
- `SettlementProperties` (`properties.dfy`) proves what the settlement
  promises. The unrounded balances sum to exactly zero. The rounded ones sum
  to within half a cent per payer of zero. A lone payer's balance is 0. The
  sign of a balance says who owes whom. With exact arithmetic, reordering the
  rows changes nothing.
  It also proves the test case `[(1, 10), (2, 20)]`.

Amounts are exact `real`s and payer ids are `int`s. The Python dictionary
keeps its keys in insertion order, and the model represents it as a
`map<int, real>` plus the sequence of its keys in that order (`people`).
The share is computed over that key order, as the source does.

## Model

| member | source | states |
|---|---|---|
| `Rounding.RoundHalfEven` | app/non_crud_lib/settlement.py:24 | the result is an integer within 0.5 of the input; at exactly 0.5 away it is even; an integral input is returned unchanged |
| `Rounding.RoundHalfEvenNearest` | app/non_crud_lib/settlement.py:24 | no integer is nearer to the input than the rounded value |
| `Rounding.Round2` | app/non_crud_lib/settlement.py:24 | `round(x, 2)` is within 0.005 of `x` and is a whole number of hundredths |
| `Rounding.Round2Nearest` | app/non_crud_lib/settlement.py:24 | no whole number of hundredths is nearer to `x` than `round(x, 2)` |
| `Rounding.Round2Exact` | app/non_crud_lib/settlement.py:24 | a value that is already a whole number of cents is left unchanged |
| `Rounding.Round2Sign` | app/non_crud_lib/settlement.py:24 | rounding never flips a sign; a value more than half a cent away from zero keeps its sign after rounding |
| `Settlement.FirstSeen` | app/non_crud_lib/settlement.py:13-16 | the dictionary's keys in insertion order name every payer, and only payers, exactly once |
| `Settlement.PaidByNonPayer` | app/non_crud_lib/settlement.py:10-14 | an id that has not paid yet has accumulated 0.0 (the `defaultdict(float)` default) |
| `Settlement.AccumulateTotals` | app/non_crud_lib/settlement.py:10-14 | after the loop, the keys of `totals` are exactly the distinct payers, `totals[p]` is the sum of every amount paid by `p`, and the key order is the order of first appearance |
| `Settlement.Balances` | app/non_crud_lib/settlement.py:16-24 | the balance map has exactly the accumulated people as keys; no people give `{}` and no division is done; the share is `SumOver(people, totals)` (`sum(totals.values())`, added left to right in key order, whose value `Settlement.SumOfPaidIsTotal` states) divided by `len(people)` |
| `Settlement.CalculateSettlement` | app/non_crud_lib/settlement.py:3-26 | the result is the settlement of the rows: keys are exactly the distinct payers (non-payers never appear), it is `{}` exactly when there are no rows, and each value is `round(paid - total / number of payers, 2)` |
| `Settlement.BalancesAreSettlement` | app/non_crud_lib/settlement.py:20-24 | the map built from the accumulated totals gives each payer `round(totals[p] - sum(totals) / len(people), 2)`, which is the payer's rounded balance |
| `Settlement.MeanOfTotalsIsShare` | app/non_crud_lib/settlement.py:20-21 | there is at least one person when there are rows, and `sum(totals.values()) / len(people)` is the grand total divided by the number of distinct payers |
| `Settlement.SumOfPaidIsTotal` | app/non_crud_lib/settlement.py:20 | adding up the per-payer totals, in any order that lists each payer once, gives the sum of all amounts |
| `SettlementProperties.SharesMakeTotal` | app/non_crud_lib/settlement.py:20-21 | the equal shares of all payers add back up to the grand total |
| `SettlementProperties.RawBalancesSumToZero` | app/non_crud_lib/settlement.py:20-24 | before rounding, the balances of all payers sum to exactly zero |
| `SettlementProperties.SettlementSumNearZero` | app/non_crud_lib/settlement.py:20-24 | after rounding, the balances sum to within `number of payers * 0.005` of zero |
| `SettlementProperties.KeyOrderSumNearZero` | app/non_crud_lib/settlement.py:10-24 | summed in the result dictionary's own key order (first appearance), the unrounded balances total exactly zero and the rounded ones are within `number of payers * 0.005` of zero |
| `SettlementProperties.SolePayerOwesNothing` | app/non_crud_lib/settlement.py:20-24 | when every row has the same payer, the settlement is that payer with balance 0.0 |
| `SettlementProperties.BalanceSign` | app/non_crud_lib/settlement.py:6-8 | a positive balance means the payer paid more than the equal share, a negative one means less; paying more than half a cent above (below) the share always gives a positive (negative) balance |
| `SettlementProperties.PaidByPermutation` | app/non_crud_lib/settlement.py:12-14 | what a payer paid does not depend on the order of the rows |
| `SettlementProperties.PayersPermutation` | app/non_crud_lib/settlement.py:13-16 | the set of payers does not depend on the order of the rows |
| `SettlementProperties.SharePermutation` | app/non_crud_lib/settlement.py:20-21 | the grand total and the equal share do not depend on the order of the rows |
| `SettlementProperties.SettlementPermutation` | app/non_crud_lib/settlement.py:13-24 | with exact arithmetic, reordering the rows leaves the settlement unchanged |
| `SettlementProperties.TwoPayerExample` | tests/test_settlement.py:3-7 | `[(1, 10), (2, 20)]` settles to `{1: -5.0, 2: 5.0}` |
| `SettlementProperties.TwoPayerExampleReordered` | tests/test_settlement.py:3-7 | the same rows in the other order give the same result |

## Left out

- Floating point: amounts are exact reals. The model does not capture float accumulation order, representation error, or what `round` does with a binary value that is not exactly a decimal tie.
- `int(payer)` and `float(amount)` coercion: the model takes typed rows (`int` payer, `real` amount). Python's own `ValueError` and `TypeError` on rows it cannot convert are not modelled. The code defines no error type of its own and does not reject infinity or NaN amounts; the model's exact reals cannot express them.
- The `/settle/<group_id>` HTTP handler (`app/main.py:288-296`) only fetches rows from sqlite and serializes the result; it is I/O and is not modelled.
- The rest of `app/main.py`, `app/models.py` and `app/routes.py` (routes, schema, CRUD SQL, password hashing) is persistence and web plumbing outside the settlement.
- `app/non_crud_lib/currency.py` is a float conversion helper that no settlement path calls; it is not part of this model.
- Idempotence: `CalculateSettlement` ensures `balances == SettlementOf(rows)`, so two calls on the same rows agree; no separate lemma states it.
- The key order of the returned dictionary (first appearance, as at `app/non_crud_lib/settlement.py:24`) is not modelled: the result is a `map`, which has no order. Nothing in the settlement relies on it; the handler only serializes it.
