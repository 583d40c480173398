/** The balance service's group balance: the expenses of the group and the
    splits of those expenses, already read from the store, are aggregated
    into net balances, which the debt simplifier turns into transfers. */
module BalanceService {
  import opened Ledger
  import opened BalanceAggregation
  import opened Settlement
  import opened DebtSimplifier
  import PartySort

  /** getGroupBalance: a group without expenses owes nothing; otherwise the
      simplified transfers of the aggregated balances. */
  method GetGroupBalance(expenses: seq<Expense>, splits: seq<ExpenseSplit>) returns (transactions: seq<Transaction>)
    ensures expenses == [] ==> transactions == []
    ensures expenses != [] ==> transactions == Simplified(Balances(expenses, splits))
  {
    if |expenses| == 0 {
      return [];
    }
    var balances := AggregateBalances(expenses, splits);
    transactions := SimplifyDebts(balances);
  }

  /** When the splits of every expense add up to its amount, carrying out the
      transfers leaves every user having paid exactly what it consumed. */
  lemma GroupBalanceSettles(expenses: seq<Expense>, splits: seq<ExpenseSplit>, u: UserId)
    requires forall p, q :: 0 <= p < q < |expenses| ==> expenses[p].id != expenses[q].id
    requires forall s :: s in splits ==> exists e :: e in expenses && e.id == s.expenseId
    requires forall e :: e in expenses ==> ConsumedFor(splits, e.id) == e.amount
    ensures var txs := Simplified(Balances(expenses, splits));
      AmountPaid(expenses, u) + Outgoing(txs, u) == AmountConsumed(splits, u) + Incoming(txs, u)
  {
    BalancedExpensesConserve(expenses, splits);
    BalanceOfEachUser(expenses, splits, u);
    SimplifiedSettlesEveryone(Balances(expenses, splits), u);
  }

  // ---------------------------------------------------------------------
  // The worked group of the verification driver's closing comment
  // (test_verification.ts): Alice (1) pays 300.00 shared equally by all
  // three, Bob (2) pays 100.00 shared by Bob and Alice. This follows the
  // comment's two-expense calculation; the driver's own query also covers
  // two further expenses, which the second example adds.
  // ---------------------------------------------------------------------

  function GroupExpenses(): seq<Expense>
  {
    [Expense(1, 1, 30000), Expense(2, 2, 10000)]
  }

  function GroupSplits(): seq<ExpenseSplit>
  {
    [ExpenseSplit(1, 1, 10000), ExpenseSplit(1, 2, 10000), ExpenseSplit(1, 3, 10000),
     ExpenseSplit(2, 2, 5000), ExpenseSplit(2, 1, 5000)]
  }

  lemma GroupPaid(u: UserId)
    ensures AmountPaid(GroupExpenses(), u) == (if u == 1 then 30000 else if u == 2 then 10000 else 0)
  {
    var es := GroupExpenses();
    assert es[..1] == [Expense(1, 1, 30000)] && es[..1][..0] == [];
    assert AmountPaid(es[..1], u) == (if u == 1 then 30000 else 0);
  }

  lemma GroupConsumed(u: UserId)
    ensures AmountConsumed(GroupSplits(), u) == (if u == 1 || u == 2 then 15000 else if u == 3 then 10000 else 0)
  {
    var ss := GroupSplits();
    var s4, s3, s2, s1 := ss[..4], ss[..3], ss[..2], ss[..1];
    assert s4[..3] == s3 && s3[..2] == s2 && s2[..1] == s1 && s1[..0] == [];
    assert AmountConsumed(s1, u) == (if u == 1 then 10000 else 0);
    assert AmountConsumed(s2, u) == (if u == 1 || u == 2 then 10000 else 0);
    assert AmountConsumed(s3, u) == (if u == 1 || u == 2 || u == 3 then 10000 else 0);
  }

  /** The net balances of the worked group: Alice +150.00, Bob -50.00,
      Charlie -100.00. */
  lemma GroupBalancesExample()
    ensures Balances(GroupExpenses(), GroupSplits()) == map[1 := 15000, 2 := -5000, 3 := -10000]
  {
    assert Payers(GroupExpenses()) == {1, 2};
    assert Consumers(GroupSplits()) == {1, 2, 3};
    forall u | u in {1, 2, 3}
      ensures AmountPaid(GroupExpenses(), u) - AmountConsumed(GroupSplits(), u)
           == (if u == 1 then 15000 else if u == 2 then -5000 else -10000)
    {
      GroupPaid(u);
      GroupConsumed(u);
    }
  }

  /** Three users with ids 1, 2 and 3 enumerate in id order. */
  lemma EntriesOfThree(a: int, b: int, c: int)
    ensures Entries(map[1 := a, 2 := b, 3 := c]) == [Party(1, a), Party(2, b), Party(3, c)]
  {
    var m: map<UserId, int> := map[1 := a, 2 := b, 3 := c];
    var m1 := m - {1};
    var m2 := m1 - {2};
    assert m1 == map[2 := b, 3 := c] && m2 == map[3 := c];
    EntriesFirst(m, 1);
    EntriesFirst(m1, 2);
    EntriesFirst(m2, 3);
    assert m2 - {3} == map[];
  }

  /** With user 1 the only creditor, enumeration pushes it as a creditor and
      users 2 and 3, in that order, as debtors. */
  lemma PartitionOfThree(a: int, b: int, c: int)
    requires a >= 1 && b <= -1 && c <= -1
    ensures Creditors([Party(1, a), Party(2, b), Party(3, c)]) == [Party(1, a)]
    ensures Debtors([Party(1, a), Party(2, b), Party(3, c)]) == [Party(2, -b), Party(3, -c)]
  {
    var es := [Party(1, a), Party(2, b), Party(3, c)];
    assert !Settled(a) && !Settled(b) && !Settled(c);
    assert es[1..] == [Party(2, b), Party(3, c)];
    assert es[1..][1..] == [Party(3, c)];
    assert es[1..][1..][1..] == [];
    assert Debtors(es[1..][1..][1..]) == [] && Creditors(es[1..][1..][1..]) == [];
    assert Creditors(es[1..][1..]) == [] && Debtors(es[1..][1..]) == [Party(3, -c)];
    assert Creditors(es[1..]) == [] && Debtors(es[1..]) == [Party(2, -b), Party(3, -c)];
  }

  /** The sort keeps a single party and orders two by amount, keeping their
      order on a tie. */
  lemma SortOfTwo(x: Party, y: Party)
    ensures PartySort.SortDesc([x]) == [x]
    ensures PartySort.SortDesc([x, y]) == if x.amount >= y.amount then [x, y] else [y, x]
  {
    assert [x][..0] == [];
    assert [x, y][..1] == [x];
    if x.amount < y.amount {
      assert PartySort.Insert([x], y) == PartySort.Insert([], y) + [x];
    }
  }

  /** Alice is the one creditor; Charlie, who owes more, is the first debtor. */
  lemma ExampleLists()
    ensures DebtorList(map[1 := 15000, 2 := -5000, 3 := -10000]) == [Party(3, 10000), Party(2, 5000)]
    ensures CreditorList(map[1 := 15000, 2 := -5000, 3 := -10000]) == [Party(1, 15000)]
  {
    EntriesOfThree(15000, -5000, -10000);
    PartitionOfThree(15000, -5000, -10000);
    SortOfTwo(Party(2, 5000), Party(3, 10000));
    SortOfTwo(Party(1, 15000), Party(1, 15000));
  }

  /** The transfers of the worked group: Charlie pays Alice 100.00 first
      (the larger debt), then Bob pays Alice 50.00. */
  lemma SimplifiedExample()
    ensures Simplified(map[1 := 15000, 2 := -5000, 3 := -10000]) ==
      [Transaction(3, 1, 10000), Transaction(2, 1, 5000)]
  {
    ExampleLists();
    var ds, cs := [Party(3, 10000), Party(2, 5000)], [Party(1, 15000)];
    assert AfterPayment(ds, 10000) == [Party(2, 5000)];
    assert AfterPayment(cs, 10000) == [Party(1, 5000)];
    assert Settle([Party(2, 5000)], [Party(1, 5000)]) == [Transaction(2, 1, 5000)];
    assert Settle(ds, cs) == [Transaction(3, 1, 10000)] + Settle([Party(2, 5000)], [Party(1, 5000)]);
  }

  /** getGroupBalance on the worked group returns [C->A 100.00, B->A 50.00]. */
  lemma GroupBalanceExample()
    ensures Simplified(Balances(GroupExpenses(), GroupSplits())) ==
      [Transaction(3, 1, 10000), Transaction(2, 1, 5000)]
  {
    GroupBalancesExample();
    SimplifiedExample();
  }

  // ---------------------------------------------------------------------
  // The group the driver actually queries: after the two expenses above and
  // before the query it posts a PERCENTAGE expense, Charlie (3) paying
  // 200.00 split 20/30/50, and an EQUAL expense, Alice paying 100.00 three
  // ways (the first user takes the leftover cent).
  // ---------------------------------------------------------------------

  function LaterExpenses(): seq<Expense>
  {
    [Expense(3, 3, 20000), Expense(4, 1, 10000)]
  }

  function LaterSplits(): seq<ExpenseSplit>
  {
    [ExpenseSplit(3, 1, 4000), ExpenseSplit(3, 2, 6000), ExpenseSplit(3, 3, 10000),
     ExpenseSplit(4, 1, 3334), ExpenseSplit(4, 2, 3333), ExpenseSplit(4, 3, 3333)]
  }

  function DriverExpenses(): seq<Expense>
  {
    GroupExpenses() + LaterExpenses()
  }

  function DriverSplits(): seq<ExpenseSplit>
  {
    GroupSplits() + LaterSplits()
  }

  lemma LaterPaid(u: UserId)
    ensures AmountPaid(LaterExpenses(), u) == (if u == 1 then 10000 else if u == 3 then 20000 else 0)
  {
    var es := LaterExpenses();
    assert es[..1] == [Expense(3, 3, 20000)] && es[..1][..0] == [];
    assert AmountPaid(es[..1], u) == (if u == 3 then 20000 else 0);
  }

  lemma LaterConsumed(u: UserId)
    ensures AmountConsumed(LaterSplits(), u)
         == (if u == 1 then 7334 else if u == 2 then 9333 else if u == 3 then 13333 else 0)
  {
    var ss := LaterSplits();
    var s5, s4, s3, s2, s1 := ss[..5], ss[..4], ss[..3], ss[..2], ss[..1];
    assert s5[..4] == s4 && s4[..3] == s3 && s3[..2] == s2 && s2[..1] == s1 && s1[..0] == [];
    assert AmountConsumed(s1, u) == (if u == 1 then 4000 else 0);
    assert AmountConsumed(s2, u) == (if u == 1 then 4000 else if u == 2 then 6000 else 0);
    assert AmountConsumed(s3, u) == (if u == 1 then 4000 else if u == 2 then 6000 else if u == 3 then 10000 else 0);
    assert AmountConsumed(s4, u) == (if u == 1 then 7334 else if u == 2 then 6000 else if u == 3 then 10000 else 0);
  }

  /** The net balances of the queried group: Alice +176.66, Bob -143.33,
      Charlie -33.33. */
  lemma DriverBalancesExample()
    ensures Balances(DriverExpenses(), DriverSplits()) == map[1 := 17666, 2 := -14333, 3 := -3333]
  {
    assert Payers(DriverExpenses()) == {1, 2, 3};
    assert Consumers(DriverSplits()) == {1, 2, 3};
    forall u | u in {1, 2, 3}
      ensures AmountPaid(DriverExpenses(), u) - AmountConsumed(DriverSplits(), u)
           == (if u == 1 then 17666 else if u == 2 then -14333 else -3333)
    {
      AmountPaidAppend(GroupExpenses(), LaterExpenses(), u);
      AmountConsumedAppend(GroupSplits(), LaterSplits(), u);
      GroupPaid(u);
      GroupConsumed(u);
      LaterPaid(u);
      LaterConsumed(u);
    }
  }

  /** Alice is the one creditor; Bob, who owes more, is the first debtor. */
  lemma DriverLists()
    ensures DebtorList(map[1 := 17666, 2 := -14333, 3 := -3333]) == [Party(2, 14333), Party(3, 3333)]
    ensures CreditorList(map[1 := 17666, 2 := -14333, 3 := -3333]) == [Party(1, 17666)]
  {
    EntriesOfThree(17666, -14333, -3333);
    PartitionOfThree(17666, -14333, -3333);
    SortOfTwo(Party(2, 14333), Party(3, 3333));
    SortOfTwo(Party(1, 17666), Party(1, 17666));
  }

  /** The transfers of the queried group: Bob pays Alice 143.33, then
      Charlie pays Alice 33.33. */
  lemma DriverSimplifiedExample()
    ensures Simplified(map[1 := 17666, 2 := -14333, 3 := -3333]) ==
      [Transaction(2, 1, 14333), Transaction(3, 1, 3333)]
  {
    DriverLists();
    var ds, cs := [Party(2, 14333), Party(3, 3333)], [Party(1, 17666)];
    assert AfterPayment(ds, 14333) == [Party(3, 3333)];
    assert AfterPayment(cs, 14333) == [Party(1, 3333)];
    assert Settle([Party(3, 3333)], [Party(1, 3333)]) == [Transaction(3, 1, 3333)];
    assert Settle(ds, cs) == [Transaction(2, 1, 14333)] + Settle([Party(3, 3333)], [Party(1, 3333)]);
  }

  /** getGroupBalance on the queried group returns [B->A 143.33, C->A 33.33]. */
  lemma DriverGroupBalanceExample()
    ensures Simplified(Balances(DriverExpenses(), DriverSplits())) ==
      [Transaction(2, 1, 14333), Transaction(3, 1, 3333)]
  {
    DriverBalancesExample();
    DriverSimplifiedExample();
  }
}
