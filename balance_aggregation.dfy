/** The balance accumulation of the balance service: every stored expense
    credits its payer and every stored split debits its user, giving one
    signed net balance per user (positive: the group owes the user; negative:
    the user owes the group). Amounts are integer cents. */
module BalanceAggregation {
  import opened Ledger

  /** A stored expense (only the columns the balance computation reads). */
  datatype Expense = Expense(id: int, payerId: UserId, amount: int)

  /** A stored split: the share of an expense consumed by one user. */
  datatype ExpenseSplit = ExpenseSplit(expenseId: int, userId: UserId, amount: int)

  /** What a user paid, over all expenses. */
  function AmountPaid(expenses: seq<Expense>, u: UserId): int
  {
    if expenses == [] then 0
    else
      var last := expenses[|expenses| - 1];
      AmountPaid(expenses[..|expenses| - 1], u) + (if last.payerId == u then last.amount else 0)
  }

  /** What a user consumed, over all splits. */
  function AmountConsumed(splits: seq<ExpenseSplit>, u: UserId): int
  {
    if splits == [] then 0
    else
      var last := splits[|splits| - 1];
      AmountConsumed(splits[..|splits| - 1], u) + (if last.userId == u then last.amount else 0)
  }

  function TotalPaid(expenses: seq<Expense>): int
  {
    if expenses == [] then 0 else TotalPaid(expenses[..|expenses| - 1]) + expenses[|expenses| - 1].amount
  }

  function TotalConsumed(splits: seq<ExpenseSplit>): int
  {
    if splits == [] then 0 else TotalConsumed(splits[..|splits| - 1]) + splits[|splits| - 1].amount
  }

  function Payers(expenses: seq<Expense>): set<UserId>
  {
    set e | e in expenses :: e.payerId
  }

  function Consumers(splits: seq<ExpenseSplit>): set<UserId>
  {
    set s | s in splits :: s.userId
  }

  /** The net balances: one entry for every payer and every split user, each
      the amount the user paid minus the amount the user consumed. */
  function Balances(expenses: seq<Expense>, splits: seq<ExpenseSplit>): map<UserId, int>
  {
    map u | u in Payers(expenses) + Consumers(splits) :: AmountPaid(expenses, u) - AmountConsumed(splits, u)
  }

  lemma {:induction false} NonPayerPaysNothing(expenses: seq<Expense>, u: UserId)
    requires u !in Payers(expenses)
    ensures AmountPaid(expenses, u) == 0
  {
    if expenses != [] {
      var init := expenses[..|expenses| - 1];
      assert Payers(init) <= Payers(expenses);
      NonPayerPaysNothing(init, u);
    }
  }

  lemma {:induction false} NonConsumerConsumesNothing(splits: seq<ExpenseSplit>, u: UserId)
    requires u !in Consumers(splits)
    ensures AmountConsumed(splits, u) == 0
  {
    if splits != [] {
      var init := splits[..|splits| - 1];
      assert Consumers(init) <= Consumers(splits);
      NonConsumerConsumesNothing(init, u);
    }
  }

  lemma PayersOfLast(expenses: seq<Expense>)
    requires expenses != []
    ensures Payers(expenses) == Payers(expenses[..|expenses| - 1]) + {expenses[|expenses| - 1].payerId}
  {
    assert expenses == expenses[..|expenses| - 1] + [expenses[|expenses| - 1]];
  }

  lemma ConsumersOfLast(splits: seq<ExpenseSplit>)
    requires splits != []
    ensures Consumers(splits) == Consumers(splits[..|splits| - 1]) + {splits[|splits| - 1].userId}
  {
    assert splits == splits[..|splits| - 1] + [splits[|splits| - 1]];
  }

  /** One more expense credits its payer with its amount and changes nothing
      else. */
  lemma CreditPayer(expenses: seq<Expense>)
    requires expenses != []
    ensures var init, e := expenses[..|expenses| - 1], expenses[|expenses| - 1];
      Balances(expenses, []) == Balances(init, [])[e.payerId := Lookup(Balances(init, []), e.payerId) + e.amount]
  {
    var init, e := expenses[..|expenses| - 1], expenses[|expenses| - 1];
    var before, after := Balances(init, []), Balances(expenses, []);
    var credited := before[e.payerId := Lookup(before, e.payerId) + e.amount];
    PayersOfLast(expenses);
    assert after.Keys == credited.Keys;
    assert forall u :: u in after ==> after[u] == credited[u] by {
      forall u | u in after
        ensures after[u] == credited[u]
      {
        if u == e.payerId && u !in Payers(init) {
          NonPayerPaysNothing(init, u);
        }
      }
    }
  }

  /** One more split debits its user with its amount and changes nothing
      else. */
  lemma DebitConsumer(expenses: seq<Expense>, splits: seq<ExpenseSplit>)
    requires splits != []
    ensures var init, s := splits[..|splits| - 1], splits[|splits| - 1];
      Balances(expenses, splits) == Balances(expenses, init)[s.userId := Lookup(Balances(expenses, init), s.userId) - s.amount]
  {
    var init, s := splits[..|splits| - 1], splits[|splits| - 1];
    var before, after := Balances(expenses, init), Balances(expenses, splits);
    var debited := before[s.userId := Lookup(before, s.userId) - s.amount];
    ConsumersOfLast(splits);
    assert after.Keys == debited.Keys;
    assert forall u :: u in after ==> after[u] == debited[u] by {
      forall u | u in after
        ensures after[u] == debited[u]
      {
        if u == s.userId && u !in before {
          NonPayerPaysNothing(expenses, u);
          NonConsumerConsumesNothing(init, u);
        }
      }
    }
  }

  /** getGroupBalance, lines that build the record: credit every payer, then
      debit every split user, starting each user from 0. */
  method AggregateBalances(expenses: seq<Expense>, splits: seq<ExpenseSplit>) returns (balances: map<UserId, int>)
    ensures balances == Balances(expenses, splits)
  {
    balances := CreditPayers(expenses);
    balances := DebitConsumers(expenses, splits, balances);
  }

  /** The first loop: every expense adds its amount to its payer. */
  method CreditPayers(expenses: seq<Expense>) returns (balances: map<UserId, int>)
    ensures balances == Balances(expenses, [])
  {
    balances := map[];
    for k := 0 to |expenses|
      invariant balances == Balances(expenses[..k], [])
    {
      var expense := expenses[k];
      CreditPayer(expenses[..k + 1]);
      assert expenses[..k + 1][..k] == expenses[..k] && expenses[..k + 1][k] == expense;
      balances := balances[expense.payerId := Lookup(balances, expense.payerId) + expense.amount];
    }
    assert expenses[..|expenses|] == expenses;
  }

  /** The second loop: every split subtracts its amount from its user. */
  method DebitConsumers(expenses: seq<Expense>, splits: seq<ExpenseSplit>, credited: map<UserId, int>)
    returns (balances: map<UserId, int>)
    requires credited == Balances(expenses, [])
    ensures balances == Balances(expenses, splits)
  {
    balances := credited;
    for k := 0 to |splits|
      invariant balances == Balances(expenses, splits[..k])
    {
      var split := splits[k];
      DebitConsumer(expenses, splits[..k + 1]);
      assert splits[..k + 1][..k] == splits[..k] && splits[..k + 1][k] == split;
      balances := balances[split.userId := Lookup(balances, split.userId) - split.amount];
    }
    assert splits[..|splits|] == splits;
  }

  /** What a user paid over two runs of expenses is the sum of both. */
  lemma {:induction false} AmountPaidAppend(first: seq<Expense>, second: seq<Expense>, u: UserId)
    ensures AmountPaid(first + second, u) == AmountPaid(first, u) + AmountPaid(second, u)
  {
    if second == [] {
      assert first + second == first;
    } else {
      var init := second[..|second| - 1];
      AmountPaidAppend(first, init, u);
      assert (first + second)[..|first + second| - 1] == first + init;
    }
  }

  /** What a user consumed over two runs of splits is the sum of both. */
  lemma {:induction false} AmountConsumedAppend(first: seq<ExpenseSplit>, second: seq<ExpenseSplit>, u: UserId)
    ensures AmountConsumed(first + second, u) == AmountConsumed(first, u) + AmountConsumed(second, u)
  {
    if second == [] {
      assert first + second == first;
    } else {
      var init := second[..|second| - 1];
      AmountConsumedAppend(first, init, u);
      assert (first + second)[..|first + second| - 1] == first + init;
    }
  }

  /** Who has a balance, and what it is: exactly the payers and the split
      users, each with what they paid minus what they consumed; everyone else
      counts as 0. */
  lemma BalanceOfEachUser(expenses: seq<Expense>, splits: seq<ExpenseSplit>, u: UserId)
    ensures u in Balances(expenses, splits) <==> u in Payers(expenses) || u in Consumers(splits)
    ensures Lookup(Balances(expenses, splits), u) == AmountPaid(expenses, u) - AmountConsumed(splits, u)
  {
    if u !in Payers(expenses) + Consumers(splits) {
      NonPayerPaysNothing(expenses, u);
      NonConsumerConsumesNothing(splits, u);
    }
  }

  lemma {:induction false} CreditsConserve(expenses: seq<Expense>)
    ensures BalanceTotal(Balances(expenses, [])) == TotalPaid(expenses)
  {
    if expenses == [] {
      assert Balances(expenses, []) == map[];
      assert Entries(map[]) == [];
    } else {
      var init, e := expenses[..|expenses| - 1], expenses[|expenses| - 1];
      CreditsConserve(init);
      CreditPayer(expenses);
      var before := Balances(init, []);
      BalanceTotalUpdate(before, e.payerId, Lookup(before, e.payerId) + e.amount);
    }
  }

  /** Money is conserved: the balances add up to everything paid minus
      everything consumed. */
  lemma {:induction false} Conservation(expenses: seq<Expense>, splits: seq<ExpenseSplit>)
    ensures BalanceTotal(Balances(expenses, splits)) == TotalPaid(expenses) - TotalConsumed(splits)
  {
    if splits == [] {
      CreditsConserve(expenses);
    } else {
      var init, s := splits[..|splits| - 1], splits[|splits| - 1];
      Conservation(expenses, init);
      DebitConsumer(expenses, splits);
      var before := Balances(expenses, init);
      BalanceTotalUpdate(before, s.userId, Lookup(before, s.userId) - s.amount);
    }
  }

  // ---------------------------------------------------------------------
  // Balanced expenses
  // ---------------------------------------------------------------------

  /** What the splits of one expense add up to. */
  function ConsumedFor(splits: seq<ExpenseSplit>, expenseId: int): int
  {
    if splits == [] then 0
    else
      var last := splits[|splits| - 1];
      ConsumedFor(splits[..|splits| - 1], expenseId) + (if last.expenseId == expenseId then last.amount else 0)
  }

  /** The split totals of the expenses, added up expense by expense. */
  function ConsumedPerExpense(expenses: seq<Expense>, splits: seq<ExpenseSplit>): int
  {
    if expenses == [] then 0
    else ConsumedPerExpense(expenses[..|expenses| - 1], splits) + ConsumedFor(splits, expenses[|expenses| - 1].id)
  }

  /** How many expenses carry an id. */
  function CountWithId(expenses: seq<Expense>, expenseId: int): nat
  {
    if expenses == [] then 0
    else CountWithId(expenses[..|expenses| - 1], expenseId) + (if expenses[|expenses| - 1].id == expenseId then 1 else 0)
  }

  lemma {:induction false} UniqueId(expenses: seq<Expense>, expenseId: int)
    requires forall p, q :: 0 <= p < q < |expenses| ==> expenses[p].id != expenses[q].id
    requires exists e :: e in expenses && e.id == expenseId
    ensures CountWithId(expenses, expenseId) == 1
  {
    var init := expenses[..|expenses| - 1];
    var last := expenses[|expenses| - 1];
    if last.id == expenseId {
      AbsentId(init, expenseId);
    } else {
      var e :| e in expenses && e.id == expenseId;
      assert e in init;
      UniqueId(init, expenseId);
    }
  }

  lemma {:induction false} AbsentId(expenses: seq<Expense>, expenseId: int)
    requires forall e :: e in expenses ==> e.id != expenseId
    ensures CountWithId(expenses, expenseId) == 0
  {
    if expenses != [] {
      AbsentId(expenses[..|expenses| - 1], expenseId);
    }
  }

  /** One more split adds its amount once for every expense that has its id. */
  lemma {:induction false} ConsumedPerExpenseStep(expenses: seq<Expense>, splits: seq<ExpenseSplit>, s: ExpenseSplit)
    ensures ConsumedPerExpense(expenses, splits + [s])
         == ConsumedPerExpense(expenses, splits) + s.amount * CountWithId(expenses, s.expenseId)
  {
    var more := splits + [s];
    assert more[..|more| - 1] == splits;
    if expenses != [] {
      var init := expenses[..|expenses| - 1];
      ConsumedPerExpenseStep(init, splits, s);
      var c := CountWithId(init, s.expenseId);
      assert s.amount * (c + 1) == s.amount * c + s.amount;
    }
  }

  lemma {:induction false} SplitsBelongToExpenses(expenses: seq<Expense>, splits: seq<ExpenseSplit>)
    requires forall p, q :: 0 <= p < q < |expenses| ==> expenses[p].id != expenses[q].id
    requires forall s :: s in splits ==> exists e :: e in expenses && e.id == s.expenseId
    ensures TotalConsumed(splits) == ConsumedPerExpense(expenses, splits)
  {
    if splits == [] {
      ConsumedNothing(expenses);
    } else {
      var init := splits[..|splits| - 1];
      var s := splits[|splits| - 1];
      assert splits == init + [s];
      assert forall t :: t in init ==> t in splits;
      SplitsBelongToExpenses(expenses, init);
      ConsumedPerExpenseStep(expenses, init, s);
      UniqueId(expenses, s.expenseId);
    }
  }

  lemma {:induction false} ConsumedNothing(expenses: seq<Expense>)
    ensures ConsumedPerExpense(expenses, []) == 0
  {
    if expenses != [] {
      ConsumedNothing(expenses[..|expenses| - 1]);
    }
  }

  lemma {:induction false} PaidAsConsumed(expenses: seq<Expense>, splits: seq<ExpenseSplit>)
    requires forall e :: e in expenses ==> ConsumedFor(splits, e.id) == e.amount
    ensures ConsumedPerExpense(expenses, splits) == TotalPaid(expenses)
  {
    if expenses != [] {
      PaidAsConsumed(expenses[..|expenses| - 1], splits);
    }
  }

  /** When the splits of every expense add up to its amount (and every split
      belongs to exactly one of the expenses), the balances add up to zero. */
  lemma BalancedExpensesConserve(expenses: seq<Expense>, splits: seq<ExpenseSplit>)
    requires forall p, q :: 0 <= p < q < |expenses| ==> expenses[p].id != expenses[q].id
    requires forall s :: s in splits ==> exists e :: e in expenses && e.id == s.expenseId
    requires forall e :: e in expenses ==> ConsumedFor(splits, e.id) == e.amount
    ensures BalanceTotal(Balances(expenses, splits)) == 0
  {
    Conservation(expenses, splits);
    SplitsBelongToExpenses(expenses, splits);
    PaidAsConsumed(expenses, splits);
  }
}
