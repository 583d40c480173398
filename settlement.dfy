/** The greedy settlement of the debt simplifier, stated on values: the
    largest remaining debtor pays the largest remaining creditor the smaller
    of their two remainders, and whoever reaches zero leaves the list. */
module Settlement {
  import opened Ledger

  /** One transfer: `from` pays `amount` cents to `to`. */
  datatype Transaction = Transaction(from: UserId, to: UserId, amount: int)

  function Min(a: int, b: int): int
  {
    if a <= b then a else b
  }

  /** Every remainder is strictly positive. */
  predicate AllPositive(s: seq<Party>)
  {
    forall k :: 0 <= k < |s| ==> s[k].amount > 0
  }

  /** The user ids of a list, in list order. */
  function Ids(s: seq<Party>): (ids: seq<UserId>)
    ensures |ids| == |s| && forall k :: 0 <= k < |s| ==> ids[k] == s[k].userId
  {
    seq(|s|, k requires 0 <= k < |s| => s[k].userId)
  }

  /** The position of the first occurrence of u in ids (|ids| when absent). */
  function IndexOf(ids: seq<UserId>, u: UserId): nat
  {
    if ids == [] || ids[0] == u then 0 else 1 + IndexOf(ids[1..], u)
  }

  /** The head of the list pays or receives m: a head whose remainder is
      then below a cent leaves the list (its cursor advances), any other
      head stays with the remainder. */
  function AfterPayment(s: seq<Party>, m: int): (r: seq<Party>)
    requires s != []
    ensures Settled(s[0].amount - m) ==> r == s[1..]
    ensures !Settled(s[0].amount - m) ==> |r| == |s| && r[0] == Party(s[0].userId, s[0].amount - m) && r[1..] == s[1..]
  {
    var rest := s[0].amount - m;
    if Settled(rest) then s[1..] else [Party(s[0].userId, rest)] + s[1..]
  }

  /** The transfers of the greedy loop, from the current debtor and creditor
      lists (remainders of what each still owes or is owed). */
  function Settle(ds: seq<Party>, cs: seq<Party>): seq<Transaction>
    decreases |ds| + |cs|
  {
    if ds == [] || cs == [] then []
    else
      var m := Min(ds[0].amount, cs[0].amount);
      [Transaction(ds[0].userId, cs[0].userId, m)] + Settle(AfterPayment(ds, m), AfterPayment(cs, m))
  }

  /** What a user pays over a list of transfers. */
  function Outgoing(txs: seq<Transaction>, u: UserId): int
  {
    if txs == [] then 0 else (if txs[0].from == u then txs[0].amount else 0) + Outgoing(txs[1..], u)
  }

  /** What a user receives over a list of transfers. */
  function Incoming(txs: seq<Transaction>, u: UserId): int
  {
    if txs == [] then 0 else (if txs[0].to == u then txs[0].amount else 0) + Incoming(txs[1..], u)
  }

  /** All the money moved by a list of transfers. */
  function Transferred(txs: seq<Transaction>): int
  {
    if txs == [] then 0 else txs[0].amount + Transferred(txs[1..])
  }

  // ---------------------------------------------------------------------
  // One payment
  // ---------------------------------------------------------------------

  lemma {:induction false} PositiveSum(s: seq<Party>)
    requires AllPositive(s)
    ensures SumOf(s) >= 0
    ensures s != [] ==> SumOf(s) > 0
  {
    if s != [] {
      PositiveSum(s[1..]);
    }
  }

  lemma {:induction false} PositiveAmount(s: seq<Party>, u: UserId)
    requires AllPositive(s)
    ensures AmountOf(s, u) >= 0
  {
    if s != [] {
      PositiveAmount(s[1..], u);
    }
  }

  /** A payment of at most the head's remainder keeps every remainder
      positive, takes m off the total and off the head's user, and nothing
      else. */
  lemma PaymentFacts(s: seq<Party>, m: int)
    requires s != [] && AllPositive(s) && m <= s[0].amount
    ensures AllPositive(AfterPayment(s, m))
    ensures UsersOf(AfterPayment(s, m)) <= UsersOf(s)
    ensures SumOf(AfterPayment(s, m)) == SumOf(s) - m
    ensures forall u :: AmountOf(AfterPayment(s, m), u) == AmountOf(s, u) - (if s[0].userId == u then m else 0)
    ensures Ids(AfterPayment(s, m)) == Ids(s) || Ids(AfterPayment(s, m)) == Ids(s)[1..]
  {
    var r := AfterPayment(s, m);
    if !Settled(s[0].amount - m) {
      assert r == [r[0]] + s[1..];
      forall x | x in r ensures x.userId in UsersOf(s) {
        if x != r[0] {
          assert x in s[1..];
        }
      }
    } else {
      forall x | x in r ensures x.userId in UsersOf(s) {
        assert x in s;
      }
    }
  }

  // ---------------------------------------------------------------------
  // Properties of the settlement
  // ---------------------------------------------------------------------

  /** Each step retires at least one party, so there are at most
      |debtors| + |creditors| - 1 transfers, and none without both. */
  lemma {:induction false} SettleLength(ds: seq<Party>, cs: seq<Party>)
    ensures ds == [] || cs == [] ==> Settle(ds, cs) == []
    ensures ds != [] && cs != [] ==> |Settle(ds, cs)| <= |ds| + |cs| - 1
    decreases |ds| + |cs|
  {
    if ds != [] && cs != [] {
      var m := Min(ds[0].amount, cs[0].amount);
      SettleLength(AfterPayment(ds, m), AfterPayment(cs, m));
    }
  }

  /** Every transfer goes from a debtor to a creditor and moves a strictly
      positive amount. */
  lemma {:induction false} SettleTransfers(ds: seq<Party>, cs: seq<Party>)
    requires AllPositive(ds) && AllPositive(cs)
    ensures forall t :: t in Settle(ds, cs) ==> t.from in UsersOf(ds) && t.to in UsersOf(cs) && t.amount > 0
    decreases |ds| + |cs|
  {
    if ds != [] && cs != [] {
      var m := Min(ds[0].amount, cs[0].amount);
      PaymentFacts(ds, m);
      PaymentFacts(cs, m);
      SettleTransfers(AfterPayment(ds, m), AfterPayment(cs, m));
      assert ds[0] in ds && cs[0] in cs;
    }
  }

  /** The money moved is the smaller of the total debt and the total credit. */
  lemma {:induction false} SettleTransferred(ds: seq<Party>, cs: seq<Party>)
    requires AllPositive(ds) && AllPositive(cs)
    ensures Transferred(Settle(ds, cs)) == Min(SumOf(ds), SumOf(cs))
    decreases |ds| + |cs|
  {
    PositiveSum(ds);
    PositiveSum(cs);
    if ds != [] && cs != [] {
      var m := Min(ds[0].amount, cs[0].amount);
      PaymentFacts(ds, m);
      PaymentFacts(cs, m);
      SettleTransferred(AfterPayment(ds, m), AfterPayment(cs, m));
    }
  }

  /** No debtor pays more than it owes; when the debts do not exceed the
      credits, every debtor pays exactly what it owes. */
  lemma {:induction false} SettleDebtor(ds: seq<Party>, cs: seq<Party>, u: UserId)
    requires AllPositive(ds) && AllPositive(cs)
    ensures Outgoing(Settle(ds, cs), u) <= AmountOf(ds, u)
    ensures SumOf(ds) <= SumOf(cs) ==> Outgoing(Settle(ds, cs), u) == AmountOf(ds, u)
    decreases |ds| + |cs|
  {
    PositiveAmount(ds, u);
    PositiveSum(ds);
    if ds != [] && cs != [] {
      var m := Min(ds[0].amount, cs[0].amount);
      PaymentFacts(ds, m);
      PaymentFacts(cs, m);
      SettleDebtor(AfterPayment(ds, m), AfterPayment(cs, m), u);
    } else if ds != [] {
      assert SumOf(ds) > SumOf(cs);
    }
  }

  /** No creditor receives more than it is owed; when the credits do not
      exceed the debts, every creditor receives exactly what it is owed. */
  lemma {:induction false} SettleCreditor(ds: seq<Party>, cs: seq<Party>, u: UserId)
    requires AllPositive(ds) && AllPositive(cs)
    ensures Incoming(Settle(ds, cs), u) <= AmountOf(cs, u)
    ensures SumOf(cs) <= SumOf(ds) ==> Incoming(Settle(ds, cs), u) == AmountOf(cs, u)
    decreases |ds| + |cs|
  {
    PositiveAmount(cs, u);
    PositiveSum(cs);
    if ds != [] && cs != [] {
      var m := Min(ds[0].amount, cs[0].amount);
      PaymentFacts(ds, m);
      PaymentFacts(cs, m);
      SettleCreditor(AfterPayment(ds, m), AfterPayment(cs, m), u);
    } else if cs != [] {
      assert SumOf(cs) > SumOf(ds);
    }
  }

  /** The payers of a list of transfers, in order. */
  function PayerIds(txs: seq<Transaction>): (ids: seq<UserId>)
    ensures |ids| == |txs| && forall k :: 0 <= k < |txs| ==> ids[k] == txs[k].from
  {
    seq(|txs|, k requires 0 <= k < |txs| => txs[k].from)
  }

  /** The receivers of a list of transfers, in order. */
  function ReceiverIds(txs: seq<Transaction>): (ids: seq<UserId>)
    ensures |ids| == |txs| && forall k :: 0 <= k < |txs| ==> ids[k] == txs[k].to
  {
    seq(|txs|, k requires 0 <= k < |txs| => txs[k].to)
  }

  /** Along names, the positions in ids never decrease. */
  predicate Forward(ids: seq<UserId>, names: seq<UserId>)
  {
    forall p, q :: 0 <= p < q < |names| ==> IndexOf(ids, names[p]) <= IndexOf(ids, names[q])
  }

  /** One step of the settlement: the first transfer, then the settlement
      of the lists after the payment. */
  lemma SettleStep(ds: seq<Party>, cs: seq<Party>)
    requires ds != [] && cs != []
    ensures var m := Min(ds[0].amount, cs[0].amount);
      var rest := Settle(AfterPayment(ds, m), AfterPayment(cs, m));
      PayerIds(Settle(ds, cs)) == [ds[0].userId] + PayerIds(rest) &&
      ReceiverIds(Settle(ds, cs)) == [cs[0].userId] + ReceiverIds(rest)
  {
    var m := Min(ds[0].amount, cs[0].amount);
    var rest := Settle(AfterPayment(ds, m), AfterPayment(cs, m));
    var t := Transaction(ds[0].userId, cs[0].userId, m);
    assert Settle(ds, cs) == [t] + rest;
    NamesCons(t, rest);
  }

  lemma NamesCons(t: Transaction, rest: seq<Transaction>)
    ensures PayerIds([t] + rest) == [t.from] + PayerIds(rest)
    ensures ReceiverIds([t] + rest) == [t.to] + ReceiverIds(rest)
  {
    var all := [t] + rest;
    forall k | 0 < k < |all| ensures all[k] == rest[k - 1] { }
  }

  /** The debtor cursor never moves back: along the transfers, the payers'
      positions in the debtor list never decrease. */
  lemma {:induction false} SettleDebtorOrder(ds: seq<Party>, cs: seq<Party>)
    requires AllPositive(ds) && AllPositive(cs)
    requires DistinctUsers(ds)
    ensures Forward(Ids(ds), PayerIds(Settle(ds, cs)))
    decreases |ds| + |cs|
  {
    if ds != [] && cs != [] {
      var m := Min(ds[0].amount, cs[0].amount);
      var ds', cs' := AfterPayment(ds, m), AfterPayment(cs, m);
      PaymentFacts(ds, m);
      PaymentFacts(cs, m);
      DistinctAfterPayment(ds, m);
      SettleDebtorOrder(ds', cs');
      SettleTransfers(ds', cs');
      var rest := Settle(ds', cs');
      SettleStep(ds, cs);
      forall k | 0 <= k < |rest| ensures PayerIds(rest)[k] in UsersOf(ds') {
        assert rest[k] in rest;
      }
      ForwardStep(ds, ds', PayerIds(rest));
    }
  }

  /** The creditor cursor never moves back: along the transfers, the
      receivers' positions in the creditor list never decrease. */
  lemma {:induction false} SettleCreditorOrder(ds: seq<Party>, cs: seq<Party>)
    requires AllPositive(ds) && AllPositive(cs)
    requires DistinctUsers(cs)
    ensures Forward(Ids(cs), ReceiverIds(Settle(ds, cs)))
    decreases |ds| + |cs|
  {
    if ds != [] && cs != [] {
      var m := Min(ds[0].amount, cs[0].amount);
      var ds', cs' := AfterPayment(ds, m), AfterPayment(cs, m);
      PaymentFacts(ds, m);
      PaymentFacts(cs, m);
      DistinctAfterPayment(cs, m);
      SettleCreditorOrder(ds', cs');
      SettleTransfers(ds', cs');
      var rest := Settle(ds', cs');
      SettleStep(ds, cs);
      forall k | 0 <= k < |rest| ensures ReceiverIds(rest)[k] in UsersOf(cs') {
        assert rest[k] in rest;
      }
      ForwardStep(cs, cs', ReceiverIds(rest));
    }
  }

  lemma DistinctAfterPayment(s: seq<Party>, m: int)
    requires s != [] && DistinctUsers(s)
    ensures DistinctUsers(AfterPayment(s, m))
  {
    var r := AfterPayment(s, m);
    if !Settled(s[0].amount - m) {
      forall p, q | 0 <= p < q < |r| ensures r[p].userId != r[q].userId {
        assert r[q] == s[q];
        if p > 0 {
          assert r[p] == s[p];
        }
      }
    }
  }

  /** A step names the head first and then walks the list after the
      payment, which is the list itself or the list without its head. */
  lemma ForwardStep(s: seq<Party>, s': seq<Party>, names: seq<UserId>)
    requires s != [] && DistinctUsers(s)
    requires Ids(s') == Ids(s) || Ids(s') == Ids(s)[1..]
    requires forall k :: 0 <= k < |names| ==> names[k] in UsersOf(s')
    requires Forward(Ids(s'), names)
    ensures Forward(Ids(s), [s[0].userId] + names)
  {
    var all := [s[0].userId] + names;
    if Ids(s') == Ids(s)[1..] {
      forall k | 0 <= k < |names|
        ensures IndexOf(Ids(s), names[k]) == 1 + IndexOf(Ids(s'), names[k])
      {
        var x :| x in s' && x.userId == names[k];
        var i :| 0 <= i < |s'| && s'[i] == x;
        assert Ids(s)[i + 1] == names[k];
        assert names[k] != s[0].userId;
      }
    }
    forall p, q | 0 <= p < q < |all|
      ensures IndexOf(Ids(s), all[p]) <= IndexOf(Ids(s), all[q])
    {
      assert all[q] == names[q - 1];
      if p > 0 {
        assert all[p] == names[p - 1];
      }
    }
  }
}
