# Expense splitting and debt simplification, in Dafny

This project models the money arithmetic of a small shared-expenses service.
Users of a group record expenses. Each expense has one payer and is split
among users. The service then reports who should pay whom to settle up.

Two parts of the service are modelled:

- **The split calculator** of the expense service (`expense_service.dfy`).
  It takes the total of a new expense, a split type and the caller's ordered
  list of split requests. It returns one allocation per request, or an error.
  - EQUAL gives everyone the floor of total/count. The leftover cents go one
    each to the first requests in caller order.
  - EXACT takes the requested amounts verbatim. It first checks that every
    amount is present and non-zero, and that the amounts add up to the total.
  - PERCENTAGE gives each request its percentage of the total, rounded to the
    cent. It checks that the percentages add up to 100%.
  - The guard of the expense service refuses an empty list of requests.
- **The group balance** of the balance service.
  - `balance_aggregation.dfy` credits every payer and debits every split user
    into one net balance per user.
  - `debt_simplifier.dfy` drops zero balances and splits the rest into
    creditors and debtors. It sorts both lists largest first, then runs a
    greedy two-cursor loop that emits transfers.
  - `settlement.dfy` states that loop as a function on values.
  - `party_sort.dfy` is the stable in-place sort.
  - `balance_service.dfy` ties the pieces together.
  - `ledger.dfy` holds the shared notions: parties, sums, and the balance
    record with its enumeration order. `outcomes.dfy` holds the Option and
    Result types.

Money is integer cents and percentages are integer basis points (hundredths
of a percent). The source works on floating-point numbers and repairs them
with `Math.round(x * 100) / 100` and 0.01 tolerances. In cents those repairs
are exact:
- "differs by more than 0.01" is "differs by more than one cent";
- "`Math.abs(x) < 0.01`" is "x is zero";
- a rounded percentage share is `Math.round(total * bp / 10000)`, with halves
  rounded up, as `Math.round` does.

Each imperative routine of the source is a method proved equal to a
reference function. The properties are proved about those functions.

- `CalculateSplitAmounts` and its three branch methods use loops that push
  allocations, count a remainder down and accumulate sums.
- `AggregateBalances` uses two loops that update a map.
- `Partition` enumerates the record in ascending key order and pushes to two
  lists.
- `SortByAmountDesc` sorts an array in place.
- `SettleGreedy` and `Pay` run a while loop that lowers array elements in
  place and advances two cursors.

The enumeration order matters for the result. `Object.entries` on a record
keyed by integers lists the keys in ascending numeric order, as
OrdinaryOwnPropertyKeys of ECMA-262 prescribes. `Array.prototype.sort` is
stable. Together these order parties with equal amounts by ascending user id,
and the model proves it (`DebtSimplifier.Lists`).

The split types differ in how closely the allocations must match the total.
EQUAL allocations add up to the total exactly, by construction. EXACT ones
must add up to it within a cent (src/services/ExpenseService.ts:84).
PERCENTAGE only checks that the percentages add up to 100%
(src/services/ExpenseService.ts:94). It never compares its rounded shares
with the total.
- `ExpenseService.PercentageTotalDriftExample` shows 1.00 split at 16.67% four
  times and 16.66% twice. It is accepted, and the shares add up to 1.02.
- `ExpenseService.PercentageTotalBound` bounds that drift.

## Model

| member | source | states |
|---|---|---|
| ExpenseService.ValidateSplits | src/services/ExpenseService.ts:100-105 | passes exactly when the request list is non-empty; the failure is SplitsRequired |
| ExpenseService.AddExpenseSplits | src/services/ExpenseService.ts:19-45 | an empty request list fails with SplitsRequired before anything is computed; otherwise the result is the calculator's |
| ExpenseService.CalculateSplitAmounts | src/services/ExpenseService.ts:58-98 | the result is the reference split of the split type (EQUAL, EXACT or PERCENTAGE) |
| ExpenseService.EqualSplitAmounts | src/services/ExpenseService.ts:61-75 | the remainder countdown loop gives exactly the reference EQUAL allocations |
| ExpenseService.ExactSplitAmounts | src/services/ExpenseService.ts:77-84 | the loop that fails at the first missing amount, then checks the sum, gives exactly the reference EXACT outcome |
| ExpenseService.PercentageSplitAmounts | src/services/ExpenseService.ts:86-94 | the loop that fails at the first missing percentage, then checks the sum, gives exactly the reference PERCENTAGE outcome |
| ExpenseService.RoundHalfUpNearest | src/services/ExpenseService.ts:91 | `Math.round(n / d)` is within one half of n/d, halves rounded up: 2dr - d <= 2n < 2dr + d |
| ExpenseService.RoundHalfUpUnique | src/services/ExpenseService.ts:91 | no other integer meets that bound, so the rounding is fully determined |
| ExpenseService.PercentShareNearest | src/services/ExpenseService.ts:91 | a percentage share is within half a cent of total * percentage, halves rounded up |
| ExpenseService.EqualSplitProperties | src/services/ExpenseService.ts:62-75 | one allocation per request, same users in the same order; every amount is floor(total/n) or one more; exactly the first total mod n requests get the extra cent; the amounts add up to the total exactly |
| ExpenseService.EqualSplitIsUnique | src/services/ExpenseService.ts:62-73 | any non-increasing division of the total whose shares differ by at most one cent has exactly the EQUAL amounts |
| ExpenseService.DivModUnique | src/services/ExpenseService.ts:63-64 | base and remainder with total = n*base + remainder and 0 <= remainder < n are the floor quotient and remainder |
| ExpenseService.EqualSplitExample | test_verification.ts:111-112 | 100.00 over three requests gives 33.34, 33.33, 33.33 |
| ExpenseService.ExactSplitProperties | src/services/ExpenseService.ts:78-84 | a missing or zero amount fails with AmountRequired whatever the sum; otherwise the split fails iff the sum differs from the total by more than a cent, with AmountMismatch(sum, total); a success returns the requested amounts verbatim in order, within a cent of the total |
| ExpenseService.RequestedAmountsTotal | src/services/ExpenseService.ts:81-82 | allocations carrying the requested amounts add up to the accumulated sum |
| ExpenseService.ExactMismatchExample | src/services/ExpenseService.ts:84 | 60.00 + 60.00 against 100.00 fails with AmountMismatch(12000, 10000) |
| ExpenseService.ExactZeroAmountExample | src/services/ExpenseService.ts:80 | an amount of 0 is refused as missing even when the amounts add up |
| ExpenseService.PercentageSplitProperties | src/services/ExpenseService.ts:88-94 | a missing or zero percentage fails with PercentageRequired; otherwise the split fails iff the percentages differ from 100% by more than 0.01%, with PercentageMismatch(sum); a success keeps each request's user and percentage, with the amount rounded half-up to the cent |
| ExpenseService.RoundingAccumulates | src/services/ExpenseService.ts:91-92 | the sum of the rounded shares is within half a cent per request of total * (sum of percentages) |
| ExpenseService.PercentageTotalBound | src/services/ExpenseService.ts:94 | an accepted PERCENTAGE split misses the total by at most half a cent per request plus what the 0.01% tolerance lets through |
| ExpenseService.PercentageSplitExample | test_verification.ts:89-91 | 200.00 at 20%, 30%, 50% gives 40.00, 60.00, 100.00, each carrying its percentage |
| ExpenseService.PercentageMismatchExample | src/services/ExpenseService.ts:94 | 20% and 30% fails with PercentageMismatch(5000) |
| ExpenseService.PercentageTotalDriftExample | src/services/ExpenseService.ts:94 | an accepted PERCENTAGE split of 1.00 whose allocations add up to 1.02 |
| BalanceAggregation.AggregateBalances | src/services/BalanceService.ts:31-41 | the two forEach loops build exactly the net balance record |
| BalanceAggregation.CreditPayers | src/services/BalanceService.ts:34-36 | the first loop leaves every payer credited with all it paid, and no one else in the record |
| BalanceAggregation.DebitConsumers | src/services/BalanceService.ts:39-41 | the second loop, from the credited record, leaves exactly the net balance record |
| BalanceAggregation.CreditPayer | src/services/BalanceService.ts:35 | the last expense adds its amount to its payer's balance, starting from 0, and changes no other entry |
| BalanceAggregation.DebitConsumer | src/services/BalanceService.ts:40 | the last split subtracts its amount from its user's balance, starting from 0, and changes no other entry |
| BalanceAggregation.BalanceOfEachUser | src/services/BalanceService.ts:31-41 | a user has a balance iff it paid an expense or has a split; the balance is what it paid minus what it consumed |
| BalanceAggregation.Conservation | src/services/BalanceService.ts:34-41 | the balances add up to all expense amounts minus all split amounts |
| BalanceAggregation.BalancedExpensesConserve | src/services/BalanceService.ts:34-41 | when each expense's splits add up to its amount, the balances add up to zero |
| PartySort.SortByAmountDesc | src/services/BalanceService.ts:68-69 | the in-place sort leaves the array equal to the stable sort by non-increasing amount of its old contents |
| PartySort.InsertLast | src/services/BalanceService.ts:68-69 | one insertion pass places the new element in the sorted prefix and leaves the rest of the array alone |
| PartySort.SortDescFacts | src/services/BalanceService.ts:68-69 | the sort is a permutation: same multiset, length, total and users |
| PartySort.SortDescAmount | src/services/BalanceService.ts:68-69 | the sort keeps every user's amount |
| PartySort.SortDescDistinct | src/services/BalanceService.ts:68-69 | the sort keeps each user at most once |
| PartySort.SortDescOrdered | src/services/BalanceService.ts:68-69 | a list in ascending user order sorts into non-increasing amounts, with equal amounts in ascending user order |
| PartySort.OrderedIsUnique | src/services/BalanceService.ts:68-69 | two lists ordered by amount then user with the same parties are equal, so the sorted order is fully determined |
| Settlement.SettleLength | src/services/BalanceService.ts:71-88 | no transfer without both a debtor and a creditor; at most debtors + creditors - 1 transfers |
| Settlement.SettleTransfers | src/services/BalanceService.ts:72-81 | every transfer goes from a debtor to a creditor and moves a strictly positive amount |
| Settlement.PaymentFacts | src/services/BalanceService.ts:83-87 | a payment of at most the head's remainder keeps all remainders positive and takes exactly that amount off the head's user and the total |
| Settlement.SettleTransferred | src/services/BalanceService.ts:71-88 | the money moved is the smaller of the total debt and the total credit |
| Settlement.SettleDebtor | src/services/BalanceService.ts:71-88 | no debtor pays more than it owes; when debts do not exceed credits, each debtor pays exactly what it owes |
| Settlement.SettleCreditor | src/services/BalanceService.ts:71-88 | no creditor receives more than it is owed; when credits do not exceed debts, each creditor receives exactly its credit |
| Settlement.SettleDebtorOrder | src/services/BalanceService.ts:86 | the payers' positions in the debtor list never decrease along the transfers |
| Settlement.SettleCreditorOrder | src/services/BalanceService.ts:87 | the receivers' positions in the creditor list never decrease along the transfers |
| DebtSimplifier.SimplifyDebts | src/services/BalanceService.ts:47-91 | partition, in-place sorts and greedy loop together return exactly the simplified transfers of the record |
| DebtSimplifier.Partition | src/services/BalanceService.ts:51-58 | enumerating the record in ascending key order and pushing gives exactly the debtor and creditor lists of its entries |
| DebtSimplifier.SettleGreedy | src/services/BalanceService.ts:71-88 | the while loop over two arrays returns exactly the greedy settlement of their old contents |
| DebtSimplifier.Pay | src/services/BalanceService.ts:72-87 | one round emits the first transfer of the pending settlement, advances at least one cursor, and leaves the rest of the settlement pending |
| DebtSimplifier.PartitionAppend | src/services/BalanceService.ts:51-58 | pushing while enumerating: one more entry appends its own classification |
| DebtSimplifier.CreditorMembers | src/services/BalanceService.ts:52-55 | the creditors are exactly the entries with a positive balance |
| DebtSimplifier.DebtorMembers | src/services/BalanceService.ts:52-57 | the debtors are exactly the entries with a negative balance, holding its magnitude |
| DebtSimplifier.PartitionFacts | src/services/BalanceService.ts:51-58 | every remainder starts positive; credits minus debts is the sum of the entries |
| DebtSimplifier.PartitionAscending | src/services/BalanceService.ts:51-58 | both lists keep the ascending user order of the enumeration |
| DebtSimplifier.PartitionAmount | src/services/BalanceService.ts:51-58 | each user's creditor amount is the positive part of its balance and its debtor amount the negative part |
| DebtSimplifier.Lists | src/services/BalanceService.ts:51-69 | the sorted debtors are exactly the users with a negative balance, holding its magnitude, and the creditors those with a positive one; each user appears once; all remainders are positive; both lists are ordered largest first with ties by ascending user id |
| DebtSimplifier.ListAmounts | src/services/BalanceService.ts:51-69 | each user's amount in the debtor list is what it owes and in the creditor list what it is owed; credits minus debts is the sum of all balances |
| DebtSimplifier.SimplifiedTransfers | src/services/BalanceService.ts:71-81 | every transfer goes from a user with a negative balance to a different user with a positive balance, with a positive amount |
| DebtSimplifier.SimplifiedCount | src/services/BalanceService.ts:71-88 | fewer transfers than users with a non-zero balance; none unless there is a debtor and a creditor |
| DebtSimplifier.SimplifiedPerUser | src/services/BalanceService.ts:71-88 | nobody pays more than it owes or receives more than it is owed; debtors pay exactly when the balances add up to zero or more, creditors receive exactly when they add up to zero or less |
| DebtSimplifier.SimplifiedSettlesEveryone | src/services/BalanceService.ts:71-88 | when the balances add up to zero, every user ends even after the transfers |
| DebtSimplifier.SimplifiedTransferred | src/services/BalanceService.ts:71-88 | the money moved is the smaller of all debts and all credits |
| DebtSimplifier.SimplifiedOrder | src/services/BalanceService.ts:71-88 | the debtor and creditor cursors never move back along the transfers |
| BalanceService.GetGroupBalance | src/services/BalanceService.ts:15-45 | no expenses gives no transfers; otherwise the simplified transfers of the aggregated balances |
| BalanceService.GroupBalanceSettles | src/services/BalanceService.ts:31-88 | when each expense's splits add up to its amount, after the transfers every user has paid exactly what it consumed |
| BalanceService.GroupBalancesExample | test_verification.ts:134-141 | following the comment's two-expense calculation, the balances are Alice +150.00, Bob -50.00, Charlie -100.00 |
| BalanceService.SimplifiedExample | test_verification.ts:142-147 | following the comment's two-expense calculation, those balances simplify to Charlie pays Alice 100.00, then Bob pays Alice 50.00 |
| BalanceService.GroupBalanceExample | test_verification.ts:132-147 | following the comment's two-expense calculation, the balance query returns [C->A 100.00, B->A 50.00] |
| BalanceService.DriverBalancesExample | test_verification.ts:89-149 | with the PERCENTAGE expense and the 100/3 EQUAL expense added, the queried group's balances are Alice +176.66, Bob -143.33, Charlie -33.33 |
| BalanceService.DriverSimplifiedExample | test_verification.ts:89-149 | those balances simplify to Bob pays Alice 143.33, then Charlie pays Alice 33.33 |
| BalanceService.DriverGroupBalanceExample | test_verification.ts:149 | the balance query over all four expenses the driver posts returns [B->A 143.33, C->A 33.33] |
| Ledger.EntriesFirst | src/services/BalanceService.ts:51 | enumeration starts with the smallest user id, followed by the enumeration of the rest |
| Ledger.EntriesFaithful | src/services/BalanceService.ts:51 | enumerating the record lists every entry once and nothing else, in strictly ascending user id order |
| Ledger.EntriesAmount | src/services/BalanceService.ts:51 | reading a user's amount off the enumeration gives its balance |
| Ledger.BalanceTotalUpdate | src/services/BalanceService.ts:35 | setting one user's balance changes the sum of all balances by the difference |

## Left out

- Persistence is not modelled: the store, the SQL, and the reads and writes in
  both services. The balance model takes the group's expenses and the splits
  of those expenses as input sequences. The splits are assumed to be exactly
  the rows the query at src/services/BalanceService.ts:25-28 returns.
- The HTTP layer is not modelled: src/app.ts and the controllers.
- The end-to-end driver test_verification.ts is not modelled. The expenses
  it posts and its comments serve only as the worked examples above.
- Floating-point drift is not modelled, because money is integer cents
  throughout:
  - `remainder -= 0.01` in the EQUAL loop;
  - the binary rounding of `Math.round`;
  - `Math.round(amount * 100) / 100` in the greedy loop, which is the
    identity on whole cents.
- Percentages are whole basis points. A percentage with more than two
  decimals cannot be expressed.
- The empty loop at src/services/ExpenseService.ts:32-41 does nothing and is
  not modelled.
- ExpenseService.AddExpenseSplits does not model the expense insert at
  src/services/ExpenseService.ts:24. That insert happens before the
  calculation can fail, so a failed split leaves an expense row behind. That
  is a storage-ordering effect, not arithmetic.
- An unrecognised split type string makes calculateSplitAmounts return an
  empty list. The model's split type is a closed datatype, so this cannot
  arise.
- `!splits` in validateSplits, a missing list, cannot arise with a Dafny
  sequence.
- The non-finite quotient of the EQUAL branch on an empty list is not
  modelled. In the source it is never used, and the model returns no
  allocations there, as the source does.
- PartySort.SortByAmountDesc is insertion sort. The source calls the engine's
  `Array.prototype.sort`. Only its observable result matters, and that result
  is fixed because the sort is stable.
- Ledger.Entries enumerates all integer keys in ascending order. ECMA-262
  orders keys that way only for array-index keys, meaning non-negative
  integers below 2^32 - 1. User ids are such keys.
- DebtSimplifier.Partition finds each next entry by taking the smallest
  remaining key. The source uses the engine's enumeration, which gives the
  same order.
