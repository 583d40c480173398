/** The debt simplifier of the balance service: users with a zero balance
    are dropped, positive balances become creditors and negative balances
    debtors (holding what they owe as a positive amount), both lists are
    sorted largest first, and a greedy two-cursor loop pays creditors from
    debtors. */
module DebtSimplifier {
  import opened Ledger
  import opened PartySort
  import opened Settlement

  /** What the user is owed: the positive part of a balance. */
  function Credit(balance: int): int
  {
    if balance > 0 then balance else 0
  }

  /** What the user owes: the negative part of a balance, as a magnitude. */
  function Debt(balance: int): int
  {
    if balance < 0 then -balance else 0
  }

  /** The creditors pushed while enumerating the entries, in enumeration
      order. */
  function Creditors(es: seq<Party>): seq<Party>
  {
    if es == [] then []
    else (if !Settled(es[0].amount) && es[0].amount > 0 then [es[0]] else []) + Creditors(es[1..])
  }

  /** The debtors pushed while enumerating the entries, in enumeration
      order, each with the magnitude of its balance. */
  function Debtors(es: seq<Party>): seq<Party>
  {
    if es == [] then []
    else (if !Settled(es[0].amount) && !(es[0].amount > 0) then [Party(es[0].userId, -es[0].amount)] else []) + Debtors(es[1..])
  }

  /** The debtors after the sort. */
  ghost function DebtorList(balances: map<UserId, int>): seq<Party>
  {
    SortDesc(Debtors(Entries(balances)))
  }

  /** The creditors after the sort. */
  ghost function CreditorList(balances: map<UserId, int>): seq<Party>
  {
    SortDesc(Creditors(Entries(balances)))
  }

  /** The transfers the simplifier returns for a balance record. */
  ghost function Simplified(balances: map<UserId, int>): seq<Transaction>
  {
    Settle(DebtorList(balances), CreditorList(balances))
  }

  /** simplifyDebts: partition the entries of the record, sort both lists
      in place, then run the greedy loop. */
  method SimplifyDebts(balances: map<UserId, int>) returns (transactions: seq<Transaction>)
    ensures transactions == Simplified(balances)
  {
    var debtors, creditors := Partition(balances);
    var debtorArray := new Party[|debtors|](k requires 0 <= k < |debtors| => debtors[k]);
    var creditorArray := new Party[|creditors|](k requires 0 <= k < |creditors| => creditors[k]);
    assert debtorArray[..] == debtors;
    assert creditorArray[..] == creditors;
    SortByAmountDesc(debtorArray);
    SortByAmountDesc(creditorArray);
    transactions := SettleGreedy(debtorArray, creditorArray);
  }

  /** The partition loop over `Object.entries(balances)`: the entries come in
      ascending user order (the smallest remaining key each time); a zero
      balance is skipped, a positive one pushed to the creditors, a negative
      one pushed to the debtors as its magnitude. */
  method Partition(balances: map<UserId, int>) returns (debtors: seq<Party>, creditors: seq<Party>)
    ensures debtors == Debtors(Entries(balances))
    ensures creditors == Creditors(Entries(balances))
  {
    debtors, creditors := [], [];
    var rest := balances;
    ghost var seen: seq<Party> := [];
    while rest.Keys != {}
      invariant Entries(balances) == seen + Entries(rest)
      invariant debtors == Debtors(seen) && creditors == Creditors(seen)
      decreases |rest.Keys|
    {
      MinKeyExists(rest.Keys);
      var userId :| userId in rest && forall j :: j in rest ==> userId <= j;
      var amount := rest[userId];
      EntriesFirst(rest, userId);
      PartitionAppend(seen, Party(userId, amount));
      Regroup(seen, Party(userId, amount), Entries(rest - {userId}));
      seen := seen + [Party(userId, amount)];
      if Settled(amount) {
        // a zero balance takes part in no transfer
      } else if amount > 0 {
        creditors := creditors + [Party(userId, amount)];
      } else {
        debtors := debtors + [Party(userId, -amount)];
      }
      rest := rest - {userId};
    }
    assert seen + Entries(rest) == seen;
  }

  lemma Regroup(s: seq<Party>, x: Party, t: seq<Party>)
    ensures s + ([x] + t) == (s + [x]) + t
  {
  }

  /** The greedy loop: the current debtor pays the current creditor the
      smaller of their remainders, both remainders are lowered in place, and
      each cursor advances once its remainder is below a cent. The amount
      is already whole cents, so the source's rounding to cents changes
      nothing. */
  method SettleGreedy(debtors: array<Party>, creditors: array<Party>) returns (transactions: seq<Transaction>)
    requires debtors != creditors
    modifies debtors, creditors
    ensures transactions == Settle(old(debtors[..]), old(creditors[..]))
  {
    transactions := [];
    var i, j := 0, 0;
    ghost var goal := Settle(debtors[..], creditors[..]);
    assert debtors[i..] == debtors[..] && creditors[j..] == creditors[..];
    while i < debtors.Length && j < creditors.Length
      invariant 0 <= i <= debtors.Length && 0 <= j <= creditors.Length
      invariant transactions + Settle(debtors[i..], creditors[j..]) == goal
      decreases debtors.Length - i + creditors.Length - j
    {
      ghost var pending := Settle(debtors[i..], creditors[j..]);
      var t, i', j' := Pay(debtors, creditors, i, j);
      PushTransaction(transactions, t, Settle(debtors[i'..], creditors[j'..]), pending);
      transactions := transactions + [t];
      i, j := i', j';
    }
    assert Settle(debtors[i..], creditors[j..]) == [];
  }

  /** One round of the greedy loop: the debtor at cursor i pays the creditor
      at cursor j the smaller remainder, both remainders are lowered in
      place, and a cursor whose remainder is now below a cent advances. */
  method Pay(debtors: array<Party>, creditors: array<Party>, i: int, j: int) returns (t: Transaction, i': int, j': int)
    requires debtors != creditors && 0 <= i < debtors.Length && 0 <= j < creditors.Length
    modifies debtors, creditors
    ensures i <= i' <= debtors.Length && j <= j' <= creditors.Length && (i < i' || j < j')
    ensures [t] + Settle(debtors[i'..], creditors[j'..]) == Settle(old(debtors[i..]), old(creditors[j..]))
  {
    ghost var ds, cs := debtors[..], creditors[..];
    var debtor := debtors[i];
    var creditor := creditors[j];
    var amount := Min(debtor.amount, creditor.amount);
    t := Transaction(debtor.userId, creditor.userId, amount);
    SettleUnfold(ds[i..], cs[j..]);
    debtors[i] := Party(debtor.userId, debtor.amount - amount);
    creditors[j] := Party(creditor.userId, creditor.amount - amount);
    ghost var ds', cs' := debtors[..], creditors[..];
    assert ds' == ds[i := Party(debtor.userId, debtor.amount - amount)];
    assert cs' == cs[j := Party(creditor.userId, creditor.amount - amount)];
    PaymentInPlace(ds, ds', i, amount);
    PaymentInPlace(cs, cs', j, amount);
    i', j' := i, j;
    if Abs(debtors[i].amount) < 1 {
      i' := i + 1;
    }
    if Abs(creditors[j].amount) < 1 {
      j' := j + 1;
    }
    assert ds'[i'..] == AfterPayment(ds[i..], amount);
    assert cs'[j'..] == AfterPayment(cs[j..], amount);
  }

  lemma PushTransaction(done: seq<Transaction>, t: Transaction, rest: seq<Transaction>, pending: seq<Transaction>)
    requires [t] + rest == pending
    ensures (done + [t]) + rest == done + pending
  {
  }

  lemma SettleUnfold(ds: seq<Party>, cs: seq<Party>)
    requires ds != [] && cs != []
    ensures var m := Min(ds[0].amount, cs[0].amount);
      Settle(ds, cs) == [Transaction(ds[0].userId, cs[0].userId, m)] + Settle(AfterPayment(ds, m), AfterPayment(cs, m))
  {
  }

  /** Lowering the remainder at the cursor in place leaves, from the cursor
      on (or from past it, once that remainder is below a cent), the list
      after the payment. */
  lemma PaymentInPlace(before: seq<Party>, after: seq<Party>, i: int, m: int)
    requires 0 <= i < |before| && after == before[i := Party(before[i].userId, before[i].amount - m)]
    ensures Settled(before[i].amount - m) ==> after[i + 1..] == AfterPayment(before[i..], m)
    ensures !Settled(before[i].amount - m) ==> after[i..] == AfterPayment(before[i..], m)
  {
    if Settled(before[i].amount - m) {
      assert after[i + 1..] == before[i..][1..];
    } else {
      assert after[i..] == [after[i]] + before[i..][1..];
    }
  }

  // ---------------------------------------------------------------------
  // The partition
  // ---------------------------------------------------------------------

  /** Pushing while enumerating: one more entry adds its own classification
      at the end. */
  lemma {:induction false} PartitionAppend(es: seq<Party>, e: Party)
    ensures Creditors(es + [e]) == Creditors(es) + (if !Settled(e.amount) && e.amount > 0 then [e] else [])
    ensures Debtors(es + [e]) == Debtors(es) + (if !Settled(e.amount) && !(e.amount > 0) then [Party(e.userId, -e.amount)] else [])
  {
    if es != [] {
      assert (es + [e])[1..] == es[1..] + [e];
      PartitionAppend(es[1..], e);
    } else {
      assert es + [e] == [e];
      assert [e][1..] == [];
    }
  }

  /** Zero entries are dropped and positive entries are the creditors. */
  lemma {:induction false} CreditorMembers(es: seq<Party>)
    ensures forall x :: x in Creditors(es) <==> x in es && x.amount > 0
  {
    if es != [] {
      CreditorMembers(es[1..]);
      assert forall x :: x in es <==> x == es[0] || x in es[1..];
    }
  }

  /** Negative entries are the debtors, holding the magnitude of their
      balance. */
  lemma {:induction false} DebtorMembers(es: seq<Party>)
    ensures forall x :: x in Debtors(es) <==> Party(x.userId, -x.amount) in es && x.amount > 0
  {
    if es != [] {
      DebtorMembers(es[1..]);
      var e := es[0];
      var head := if !Settled(e.amount) && !(e.amount > 0) then [Party(e.userId, -e.amount)] else [];
      assert Debtors(es) == head + Debtors(es[1..]);
      forall x ensures x in Debtors(es) <==> Party(x.userId, -x.amount) in es && x.amount > 0 {
        var y := Party(x.userId, -x.amount);
        assert y in es <==> y == e || y in es[1..];
        if y == e {
          assert x == Party(e.userId, -e.amount);
        }
      }
    }
  }

  /** Every remainder starts strictly positive, and the partition keeps all
      the money: credits minus debts is the sum of the entries. */
  lemma {:induction false} PartitionFacts(es: seq<Party>)
    ensures AllPositive(Creditors(es)) && AllPositive(Debtors(es))
    ensures SumOf(Creditors(es)) - SumOf(Debtors(es)) == SumOf(es)
  {
    CreditorMembers(es);
    DebtorMembers(es);
    var c, d := Creditors(es), Debtors(es);
    forall k | 0 <= k < |c| ensures c[k].amount > 0 {
      assert c[k] in c;
    }
    forall k | 0 <= k < |d| ensures d[k].amount > 0 {
      assert d[k] in d;
    }
    PartitionSum(es);
  }

  lemma {:induction false} PartitionSum(es: seq<Party>)
    ensures SumOf(Creditors(es)) - SumOf(Debtors(es)) == SumOf(es)
  {
    if es != [] {
      PartitionSum(es[1..]);
      var head := if !Settled(es[0].amount) && es[0].amount > 0 then [es[0]] else [];
      var headD := if !Settled(es[0].amount) && !(es[0].amount > 0) then [Party(es[0].userId, -es[0].amount)] else [];
      SumOfAppend(head, Creditors(es[1..]));
      SumOfAppend(headD, Debtors(es[1..]));
    }
  }

  /** Enumeration order is ascending user order, and so is each list it
      pushes to. */
  lemma {:induction false} PartitionAscending(es: seq<Party>)
    requires AscendingUsers(es)
    ensures AscendingUsers(Creditors(es)) && AscendingUsers(Debtors(es))
    ensures UsersOf(Creditors(es)) <= UsersOf(es) && UsersOf(Debtors(es)) <= UsersOf(es)
  {
    if es != [] {
      var tail := es[1..];
      assert AscendingUsers(tail);
      PartitionAscending(tail);
      assert UsersOf(tail) <= UsersOf(es);
      forall u | u in UsersOf(tail) ensures es[0].userId < u {
        var y :| y in tail && y.userId == u;
        var k :| 0 <= k < |tail| && tail[k] == y;
        assert es[k + 1] == y;
      }
      var head := if !Settled(es[0].amount) && es[0].amount > 0 then [es[0]] else [];
      var headD := if !Settled(es[0].amount) && !(es[0].amount > 0) then [Party(es[0].userId, -es[0].amount)] else [];
      PrependAscending(head, Creditors(tail), es[0].userId, UsersOf(tail));
      PrependAscending(headD, Debtors(tail), es[0].userId, UsersOf(tail));
    }
  }

  /** A list of at most one party for user v, followed by an ascending list
      of users above v, is ascending. */
  lemma PrependAscending(head: seq<Party>, tail: seq<Party>, v: UserId, above: set<UserId>)
    requires |head| <= 1 && forall x :: x in head ==> x.userId == v
    requires AscendingUsers(tail) && UsersOf(tail) <= above && forall u :: u in above ==> v < u
    ensures AscendingUsers(head + tail)
  {
    var r := head + tail;
    forall p, q | 0 <= p < q < |r| ensures r[p].userId < r[q].userId {
      assert r[q] == tail[q - |head|];
      assert r[q] in tail;
      assert r[q].userId in UsersOf(tail);
      if p >= |head| {
        assert r[p] == tail[p - |head|];
      } else {
        assert r[p] in head;
      }
    }
  }

  /** Each user's creditor amount and debtor amount are the two parts of its
      entry. */
  lemma {:induction false} PartitionAmount(es: seq<Party>, u: UserId)
    requires AscendingUsers(es)
    ensures AmountOf(Creditors(es), u) == Credit(AmountOf(es, u))
    ensures AmountOf(Debtors(es), u) == Debt(AmountOf(es, u))
  {
    if es != [] {
      assert AscendingUsers(es[1..]);
      PartitionAmount(es[1..], u);
      var head := if !Settled(es[0].amount) && es[0].amount > 0 then [es[0]] else [];
      AmountOfAppend(head, Creditors(es[1..]), u);
      var headD := if !Settled(es[0].amount) && !(es[0].amount > 0) then [Party(es[0].userId, -es[0].amount)] else [];
      AmountOfAppend(headD, Debtors(es[1..]), u);
      if es[0].userId == u {
        forall y | y in es[1..] ensures y.userId != u {
          var k :| 0 <= k < |es[1..]| && es[1..][k] == y;
          assert es[k + 1] == y;
        }
        AmountOfAbsent(es[1..], u);
      }
    }
  }

  // ---------------------------------------------------------------------
  // The debtor and creditor lists of a balance record
  // ---------------------------------------------------------------------

  /** The debtors are exactly the users with a negative balance, holding its
      magnitude; the creditors exactly those with a positive balance; each
      list names each user once, every remainder is positive, and both are
      ordered largest first with ties in ascending user order. */
  lemma Lists(balances: map<UserId, int>)
    ensures forall x :: x in DebtorList(balances) <==>
      x.userId in balances && balances[x.userId] < 0 && x.amount == -balances[x.userId]
    ensures forall x :: x in CreditorList(balances) <==>
      x.userId in balances && balances[x.userId] > 0 && x.amount == balances[x.userId]
    ensures AllPositive(DebtorList(balances)) && AllPositive(CreditorList(balances))
    ensures DistinctUsers(DebtorList(balances)) && DistinctUsers(CreditorList(balances))
    ensures OrderedByAmountThenUser(DebtorList(balances)) && OrderedByAmountThenUser(CreditorList(balances))
  {
    var es := Entries(balances);
    EntriesFaithful(balances);
    PartitionFacts(es);
    CreditorMembers(es);
    DebtorMembers(es);
    PartitionAscending(es);
    var ds, cs := Debtors(es), Creditors(es);
    SortDescFacts(ds);
    SortDescFacts(cs);
    SortDescDistinct(ds);
    SortDescDistinct(cs);
    SortDescOrdered(ds);
    SortDescOrdered(cs);
    forall x ensures x in DebtorList(balances) <==> x in ds {
      assert x in DebtorList(balances) <==> x in multiset(DebtorList(balances));
    }
    forall x ensures x in CreditorList(balances) <==> x in cs {
      assert x in CreditorList(balances) <==> x in multiset(CreditorList(balances));
    }
    AllPositiveSorted(ds);
    AllPositiveSorted(cs);
  }

  lemma AllPositiveSorted(s: seq<Party>)
    requires AllPositive(s)
    ensures AllPositive(SortDesc(s))
  {
    SortDescFacts(s);
    var r := SortDesc(s);
    forall k | 0 <= k < |r| ensures r[k].amount > 0 {
      assert r[k] in multiset(s);
      var p :| 0 <= p < |s| && s[p] == r[k];
    }
  }

  /** Each user's amount in the debtor list is what it owes, and in the
      creditor list what it is owed; the creditors' total exceeds the
      debtors' by the sum of all balances. */
  lemma ListAmounts(balances: map<UserId, int>, u: UserId)
    ensures AmountOf(DebtorList(balances), u) == Debt(Lookup(balances, u))
    ensures AmountOf(CreditorList(balances), u) == Credit(Lookup(balances, u))
    ensures SumOf(CreditorList(balances)) - SumOf(DebtorList(balances)) == BalanceTotal(balances)
  {
    var es := Entries(balances);
    EntriesFaithful(balances);
    EntriesAmount(balances, u);
    PartitionAmount(es, u);
    PartitionFacts(es);
    SortDescAmount(Debtors(es), u);
    SortDescAmount(Creditors(es), u);
    SortDescFacts(Debtors(es));
    SortDescFacts(Creditors(es));
  }

  // ---------------------------------------------------------------------
  // What the simplifier returns
  // ---------------------------------------------------------------------

  /** Every transfer goes from a user with a negative balance to a user with
      a positive balance, so never to the payer itself, and moves a strictly
      positive amount. */
  lemma SimplifiedTransfers(balances: map<UserId, int>)
    ensures forall t :: t in Simplified(balances) ==>
      Lookup(balances, t.from) < 0 < Lookup(balances, t.to) && t.from != t.to && t.amount > 0
  {
    Lists(balances);
    var ds, cs := DebtorList(balances), CreditorList(balances);
    SettleTransfers(ds, cs);
    forall t | t in Simplified(balances)
      ensures Lookup(balances, t.from) < 0 < Lookup(balances, t.to)
    {
      var x :| x in ds && x.userId == t.from;
      var y :| y in cs && y.userId == t.to;
    }
  }

  /** Each step settles at least one debtor or creditor: there are fewer
      transfers than users with a non-zero balance, and none unless there
      is both a debtor and a creditor. */
  lemma SimplifiedCount(balances: map<UserId, int>)
    ensures DebtorList(balances) == [] || CreditorList(balances) == [] ==> Simplified(balances) == []
    ensures DebtorList(balances) != [] && CreditorList(balances) != [] ==>
      |Simplified(balances)| <= |DebtorList(balances)| + |CreditorList(balances)| - 1
  {
    SettleLength(DebtorList(balances), CreditorList(balances));
  }

  /** No user pays more than it owes or receives more than it is owed. When
      the balances add up to zero or more, every debtor pays exactly what it
      owes; when they add up to zero or less, every creditor receives
      exactly what it is owed. */
  lemma SimplifiedPerUser(balances: map<UserId, int>, u: UserId)
    ensures Outgoing(Simplified(balances), u) <= Debt(Lookup(balances, u))
    ensures Incoming(Simplified(balances), u) <= Credit(Lookup(balances, u))
    ensures BalanceTotal(balances) >= 0 ==> Outgoing(Simplified(balances), u) == Debt(Lookup(balances, u))
    ensures BalanceTotal(balances) <= 0 ==> Incoming(Simplified(balances), u) == Credit(Lookup(balances, u))
  {
    Lists(balances);
    ListAmounts(balances, u);
    SettleDebtor(DebtorList(balances), CreditorList(balances), u);
    SettleCreditor(DebtorList(balances), CreditorList(balances), u);
  }

  /** When the balances add up to zero, carrying out the transfers leaves
      every user even. */
  lemma SimplifiedSettlesEveryone(balances: map<UserId, int>, u: UserId)
    requires BalanceTotal(balances) == 0
    ensures Lookup(balances, u) + Outgoing(Simplified(balances), u) - Incoming(Simplified(balances), u) == 0
  {
    SimplifiedPerUser(balances, u);
  }

  /** The money moved is the smaller of all debts and all credits. */
  lemma SimplifiedTransferred(balances: map<UserId, int>)
    ensures Transferred(Simplified(balances)) == Min(SumOf(DebtorList(balances)), SumOf(CreditorList(balances)))
  {
    Lists(balances);
    SettleTransferred(DebtorList(balances), CreditorList(balances));
  }

  /** The cursors never move back: along the transfers, the payers'
      positions in the sorted debtor list and the receivers' positions in
      the sorted creditor list never decrease. */
  lemma SimplifiedOrder(balances: map<UserId, int>)
    ensures Forward(Ids(DebtorList(balances)), PayerIds(Simplified(balances)))
    ensures Forward(Ids(CreditorList(balances)), ReceiverIds(Simplified(balances)))
  {
    Lists(balances);
    SettleDebtorOrder(DebtorList(balances), CreditorList(balances));
    SettleCreditorOrder(DebtorList(balances), CreditorList(balances));
  }
}
