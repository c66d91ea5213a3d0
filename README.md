# Points ledger

A model of the points service in `server.py`. The service keeps one table of
`Transaction` rows. A row holds a payer, the amount of points the request
asked for (negative for a clawback), the part of that amount still unspent
(`current_points`) and a timestamp.

The model covers three request handlers:

- **add** (`create_transaction`):
  - A non-negative amount stores a grant with all of its points unspent.
  - A negative amount is a clawback. It walks the same payer's rows that
    still have unspent points, oldest first, and takes the clawback's size
    from them. Then it stores a row of its own with nothing unspent.
  - When the payer does not hold enough, the request is refused.
- **spend** (`spend_points`):
  - A non-positive amount is refused, and so is an amount larger than the
    unspent total.
  - Otherwise the handler walks every row, oldest first, taking
    `min(unspent, still to spend)` from each row.
  - It answers, per payer, the negative amount charged. Payers appear in
    the order in which the walk first charged them.
  - A walk that ends short would be answered with an "unexpected" error.
    The model keeps that branch and proves it is never taken.
- **balance** (`get_balance`): the unspent total of each payer that has at
  least one row. Payers are ordered by their earliest timestamp.

## Structure

| module | file | what it holds |
|---|---|---|
| `Records` | records.dfy | `Txn`, `Error`, `Result`, `Outcome`; the field invariant `RecordOk`; the sums `Total`, `PayerTotal` and `SumCur`; `EarliestTimestamp` |
| `Lists` | lists.dfy | `Distinct`, `FirstOccurrences` (insertion-ordered keys of a Python dict) |
| `Dicts` | dicts.dfy | an insertion-ordered dict from payer to points as `seq<Entry>`; `Subtract` is `d[p] = d.get(p, 0) - x` |
| `Ordering` | ordering.dfy | the ordered scans: `ScanAll` (every row) and `PayerScan` (one payer's rows with unspent points), both sorted by (timestamp, id) |
| `Fifo` | fifo.dfy | `Drain`: the row-by-row walk shared by clawback and spend; `Taken`: a closed form of what the walk takes from each row |
| `Grants` | grants.dfy | the add request as written (`Create`) and with the refusal rolled back (`CreateAtomic`) |
| `Spending` | spend.dfy | the spend request (`Spend`) and the charges it answers (`Debits`) |
| `Balances` | balance.dfy | the balance answer (`Balance`) |
| `Server` | ledger.dfy | class `Ledger`: the table as a field; the handlers as methods running the handlers' loops and updating rows in place |

The row id of a row is its position in the table plus 1. Rows are never
deleted, so ids follow insertion order. Both scans order rows by timestamp.
SQL leaves the order of equal timestamps unspecified; the model breaks such
ties by id. Timestamps are integers: any totally ordered value would do.

Each `Ledger` method is proved to leave the table and give the answer that
the matching pure definition states:

- `CreateTransaction` matches `Create`;
- `CreateTransactionAtomic` matches `CreateAtomic`;
- `SpendPoints` matches `Spend`;
- `GetBalance` matches `Balance`.

The lemmas state what those definitions promise.

## Model

| member | source | states |
|---|---|---|
| Records.EarliestTimestamp | server.py:188 | `MIN(timestamp)` over a payer's rows: one of its rows carries it and none is earlier |
| Records.TotalNonNegative | server.py:137-139 | under the field invariant the unspent total, and every payer's, is never negative, so `SUM(current_points)` cannot fall below 0 |
| Records.TotalWithinGranted | server.py:17-32 | with every row's unspent part between 0 and its positive amount, the unspent total lies between 0 and the total granted |
| Ordering.ScanAll | server.py:141 | the scan lists every row exactly once |
| Ordering.ScanAllSorted | server.py:141 | the scan of every row is ordered by timestamp, ties by id |
| Ordering.ScanAllSum | server.py:137-141 | the rows of the scan hold the table's whole unspent total |
| Ordering.PayerScan | server.py:73 | the clawback query lists, once each, exactly the rows of the payer that have unspent points |
| Ordering.PayerScanSorted | server.py:73 | the clawback query is ordered by timestamp, ties by id |
| Ordering.PayerScanSum | server.py:73 | the rows the clawback query lists hold the payer's whole unspent total |
| Records.Total | server.py:137 | `SUM(current_points)` over the whole table, 0 for an empty table; `Records.TotalNonNegative`, `Ordering.ScanAllSum` and `Fifo.DrainTotal` state its properties |
| Records.PayerTotal | server.py:187 | the per-payer `SUM(current_points)` of the grouped query; `Records.TotalNonNegative`, `Ordering.PayerScanSum`, `Fifo.DrainScoped` and `Balances.BalanceValues` state its properties |
| Fifo.Drain | server.py:76-88 | the walk shared by the clawback loop and the spend loop (server.py:144-161): from each listed row in turn, while something is still wanted and the row has unspent points, take `min(unspent, wanted)`; it keeps the table's length and never leaves more wanted than at the start; its other properties are the `Fifo` lemmas below |
| Fifo.Taken | server.py:153 | the closed form of FIFO consumption: row k of the list gives all its unspent points, or whatever the rows before it left wanted; `Fifo.DrainAt` proves the walk takes exactly this |
| Fifo.DrainKeepsGrants | server.py:79-83 | the walk never changes payer, amount or timestamp; it only lowers the unspent part and never takes it below 0, so it keeps the field invariant |
| Fifo.DrainFrame | server.py:76-88 | rows the walk does not list are left as they were |
| Fifo.DrainLeft | server.py:76-88 | after k rows the walk still wants the need minus what those rows held, or 0 |
| Fifo.DrainAt | server.py:153-160 | the walk takes from each row exactly the closed form `Taken`: all of the row, or what the earlier rows left over |
| Fifo.DrainTotal | server.py:159-160 | the unspent total drops by exactly what the walk covered |
| Fifo.DrainScoped | server.py:73-83 | a walk over one payer's rows moves only that payer's total, by what it covered |
| Fifo.DrainFifo | server.py:76-88 | first in, first out: a row loses points only if every row before it in the walk ends with nothing unspent |
| Fifo.DrainExhausts | server.py:76-91 | a walk that could not cover the need has emptied every row it lists |
| Fifo.DrainOnePartial | server.py:78-80 | at most one row ends partly consumed |
| Fifo.DrainDone | server.py:87-88 | once the need is met, the rest of the walk changes nothing (the early `break`) |
| Grants.Create | server.py:71-99 | the add request as written: a grant appends a row; a clawback runs the walk over the payer's scan and either appends its row or is refused keeping the drained rows; its properties are stated by `Grants.CreateGrant`, `Grants.CreateClawback`, `Grants.CreateMovesTotals`, `Grants.CreateKeepsFields` and `Grants.FailedClawbackDrains` |
| Grants.CreateAtomic | server.py:71-99 | the corrected add: a clawback the payer cannot cover is refused with the table as it was; its properties are stated by `Grants.CreateAtomicAllOrNothing` |
| Grants.NewRow | server.py:93-95 | the row an add stores: a clawback with nothing unspent, a grant with all its points unspent; `Grants.CreateGrant` and `Grants.CreateClawback` state what is appended |
| Grants.Clawback | server.py:73-88 | the clawback query followed by its loop: the walk over the payer's unspent rows in (timestamp, id) order; `Grants.ClawbackLeft`, `Grants.ClawbackTotals`, `Grants.ClawbackScope`, `Grants.ClawbackOldestFirst` and `Grants.ClawbackOnePartial` state its properties |
| Grants.ClawbackLeft | server.py:76-90 | the clawback falls short by its size minus what the payer holds, or 0 |
| Grants.ClawbackTotals | server.py:73-83 | a clawback lowers only its own payer's total, by the amount it covered |
| Grants.ClawbackScope | server.py:73-83 | a clawback touches only rows of its own payer, and only their unspent parts, which it lowers and keeps non-negative |
| Grants.ClawbackOldestFirst | server.py:73-88 | a payer's row loses points only once every earlier row of that payer is empty |
| Grants.ClawbackOnePartial | server.py:78-80 | at most one row ends partly consumed by a clawback |
| Grants.CreateGrant | server.py:94-99 | a grant appends one row with all its points unspent, answers the new id, and leaves every earlier row unchanged |
| Grants.CreateClawback | server.py:71-99 | a clawback succeeds exactly when the payer holds enough; it then appends a row with nothing unspent, answers the new id, lowers the payer's total by its size and leaves every other payer's total alone |
| Grants.CreateMovesTotals | server.py:71-99 | a successful add moves the unspent total, and its payer's, by exactly the amount asked for |
| Grants.CreateKeepsFields | server.py:71-97 | every add keeps the field invariant, and changes no existing row except to lower its unspent part |
| Grants.FailedClawbackDrains | server.py:85-91 | as written, a refused clawback adds no row but has already emptied every row of its payer |
| Grants.FailedClawbackExample | server.py:85-91 | a DANNON grant of 5, then a clawback of 10: refused, and the row is left with 0 unspent |
| Grants.CreateAtomicAllOrNothing | server.py:71-99 | corrected add: refused exactly when a clawback exceeds what the payer holds, and then the table is unchanged; otherwise it is the add as written |
| Spending.Spend | server.py:133-167 | the spend request: refuses a non-positive amount and an amount above the unspent total, otherwise walks every row in scan order and answers the charges, or "unexpected" if the walk ends short; it keeps the table's length; its properties are stated by `Spending.SpendOutcome`, `Spending.SpendCovers`, `Spending.SpendConserves`, `Spending.SpendCharges`, `Spending.SpendFirstTouch` and `Spending.SpendOldestFirst` |
| Spending.Debits | server.py:155-158 | the `spending_transactions` dict after a prefix of the walk: each row that gives up points charges them to its payer; its properties are stated by `Spending.DebitsLookup`, `Spending.DebitsSum`, `Spending.DebitsShape` and `Spending.DebitsFirstTouch` |
| Spending.DebitsShape | server.py:155-158 | every charge in the dict is negative and each payer appears once |
| Spending.DebitsFirstTouch | server.py:155-158 | the dict's payers come in the order in which the walk first lowered one of their rows |
| Dicts.Subtract | server.py:155-158 | `d[p] = d.get(p, 0) - x` on an insertion-ordered dict; `Dicts.SubtractKeys`, `Dicts.SubtractLookup` and `Dicts.SubtractSum` state its effect |
| Dicts.SubtractKeys | server.py:155-156 | a payer already present keeps its place; a new payer is added at the end |
| Dicts.SubtractLookup | server.py:158 | the payer's value drops by x and every other payer's value is unchanged |
| Dicts.SubtractSum | server.py:158 | the values' sum drops by x |
| Spending.SpendOutcome | server.py:133-139 | a spend succeeds exactly when 0 < amount <= the unspent total; a non-positive amount and an uncoverable amount are refused with their own errors and leave the table unchanged |
| Spending.SpendCovers | server.py:137-167 | once the availability check passes, the walk covers the whole amount, so the "unexpected error" answer is never given |
| Spending.SpendConserves | server.py:153-161 | a successful spend lowers the unspent total by exactly the amount; rows keep the field invariant and change only by lowering their unspent part |
| Spending.SpendCharges | server.py:152-165 | the answer has one negative entry per payer, the entries add up to minus the amount, and each payer is charged exactly what its rows lost |
| Spending.SpendFirstTouch | server.py:155-164 | payers appear in the answer in the order in which the walk first charged one of their rows |
| Spending.SpendOldestFirst | server.py:141-161 | spending is first in, first out across payers: a row loses points only if every row before it in scan order ends empty |
| Spending.DebitsLookup | server.py:155-158 | partway through the walk, each payer's charge equals what its rows have lost so far |
| Spending.DebitsSum | server.py:158-159 | the charges add up to minus what the walk has covered |
| Balances.BalanceOrder | server.py:188 | the payers in the order the balance lists them: first appearance in the scan by (timestamp, id); `Balances.BalancePayers` and `Balances.BalanceOrdered` state its properties |
| Balances.Balance | server.py:185-192 | the balance answer: each payer in `BalanceOrder` with its unspent total; `Balances.BalancePayers`, `Balances.BalanceValues` and `Balances.BalanceSum` state its properties |
| Balances.Tally | server.py:190-192 | the dict filled from the grouped query: one entry per listed payer, in list order, holding its unspent total; its keys are the listed payers, and `Balances.TallyLookup` and `Balances.TallyTotal` state its values |
| Balances.TallyLookup | server.py:191-192 | a listed payer's entry holds that payer's unspent total |
| Balances.TallyTotal | server.py:185-192 | over distinct payers that cover every row, the entries add up to the table's unspent total |
| Balances.BalancePayers | server.py:185-188 | the balance lists each payer with at least one row exactly once, including a payer whose rows are all spent, and lists no other payer |
| Balances.BalanceValues | server.py:186-192 | each payer's balance is the sum of its rows' unspent points |
| Balances.BalanceSum | server.py:185-192 | the balances add up to the table's unspent total |
| Balances.BalanceOrdered | server.py:188 | payers are listed by ascending earliest timestamp |
| Server.Ledger.constructor | server.py:34-35 | a fresh database starts with an empty table |
| Server.Ledger.Claw | server.py:74-88 | the clawback loop updates the rows in place, and its result is the walk `Drain` over the scanned rows; the field invariant is kept |
| Server.Ledger.CreateTransaction | server.py:71-99 | the add handler leaves exactly the table, and gives exactly the answer, that `Create` states |
| Server.Ledger.CreateTransactionAtomic | server.py:71-99 | the add handler with the refusal rolled back leaves the table, and gives the answer, that `CreateAtomic` states |
| Server.Ledger.SpendWalk | server.py:142-161 | the spend loop updates the rows in place; its result is the walk `Drain`, and its per-payer charges are `Debits` over the whole list |
| Server.Ledger.SpendPoints | server.py:133-167 | the spend handler leaves the table, and gives the answer, that `Spend` states |
| Server.Ledger.GetBalance | server.py:185-192 | read-only: the payers in balance order, each with its unspent total, together adding up to the table's unspent total |

## Left out

- The Flask layer is not modelled: the routes, the home endpoint, JSON
  parsing, the missing-key checks, HTTP status codes, the response bodies
  and `app.run`. A refused request is a `Result.Err`; the error messages
  are not modelled.
- Timestamp parsing (`datetime.fromisoformat`) and the `utcnow` default
  are left out. A timestamp is a caller-supplied integer.
- The model does not check the type of `points`. It is an unbounded
  integer, so SQLite's 64-bit `INTEGER` limit is not modelled: neither an
  insert whose amount overflows it nor a `SUM(current_points)` that does
  (server.py:137). The `String(75)` length limit on payer is not modelled.
- SQLAlchemy sessions are not modelled. Committing is modelled only by its
  effect: each clawback step persists even when the request is then
  refused. Concurrent requests are not modelled; each request runs alone.
- Equal timestamps: SQL leaves the order of rows with equal timestamps
  unspecified. The model fixes it as id order. The balance's order among
  payers with equal earliest timestamps follows from the same choice.
- `SUM` over an empty table is `None` in SQL, and the handler then refuses
  the spend. The model's total of an empty table is 0. This refuses the
  same spends, because every accepted amount is positive.

## Findings

| source | as written | input that shows it | evidently intended | confidence | as-written member | corrected member |
|---|---|---|---|---|---|---|
| server.py:85-91 | the clawback loop commits each row's decrement before the handler checks whether the clawback was covered, so a refused clawback still drains the payer's rows | a DANNON row of 5 points, then an add of -10 for DANNON | a refused clawback leaves the table unchanged | not executed | Grants.FailedClawbackExample | Grants.CreateAtomicAllOrNothing |

A refused add is evidently meant to leave the table as it was: the answer
"Not enough points to complete the transaction." (server.py:91) reports
that nothing was done. The code has committed the partial decrements by
then. The model follows the code: `Create` and
`Server.Ledger.CreateTransaction` keep the committed decrements (see
`Grants.FailedClawbackDrains`). The corrected behaviour is `CreateAtomic`,
run by `Server.Ledger.CreateTransactionAtomic`.
