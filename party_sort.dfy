/** The in-place sort that orders debtors and creditors by amount, largest
    first. The comparator only compares amounts and the sort is stable, so
    parties with equal amounts keep the order in which they were pushed. */
module PartySort {
  import opened Ledger

  /** Inserts x into s behind every element whose amount is at least x's
      (stable: x goes after its equals). */
  function Insert(s: seq<Party>, x: Party): seq<Party>
  {
    if s == [] || s[|s| - 1].amount >= x.amount then s + [x]
    else Insert(s[..|s| - 1], x) + [s[|s| - 1]]
  }

  /** Stable sort by non-increasing amount, as insertion sort defines it. */
  function SortDesc(s: seq<Party>): seq<Party>
  {
    if s == [] then [] else Insert(SortDesc(s[..|s| - 1]), s[|s| - 1])
  }

  /** x comes before y: larger amount first, equal amounts by user id. */
  predicate Precedes(x: Party, y: Party)
  {
    x.amount > y.amount || (x.amount == y.amount && x.userId < y.userId)
  }

  predicate OrderedByAmountThenUser(s: seq<Party>)
  {
    forall p, q :: 0 <= p < q < |s| ==> Precedes(s[p], s[q])
  }

  /** The sort of the source, as insertion sort: each new element moves
      forward past every element with a strictly smaller amount. */
  method SortByAmountDesc(a: array<Party>)
    modifies a
    ensures a[..] == SortDesc(old(a[..]))
  {
    ghost var orig := a[..];
    for i := 0 to a.Length
      invariant a[..i] == SortDesc(orig[..i])
      invariant a[i..] == orig[i..]
    {
      assert orig[..i + 1][..i] == orig[..i];
      InsertLast(a, i);
    }
    assert a[..a.Length] == a[..];
    assert orig[..a.Length] == orig;
  }

  /** One pass of the insertion: a[i] is swapped forward into the sorted
      prefix a[..i]. */
  method InsertLast(a: array<Party>, i: int)
    requires 0 <= i < a.Length
    modifies a
    ensures a[..i + 1] == Insert(old(a[..i]), old(a[i]))
    ensures a[i + 1..] == old(a[i + 1..])
  {
    ghost var sorted := a[..i];
    ghost var x := a[i];
    var j := i;
    while j > 0 && a[j - 1].amount < a[j].amount
      invariant 0 <= j <= i
      invariant a[j] == x
      invariant Insert(sorted, x) == Insert(a[..j], x) + a[j + 1..i + 1]
      invariant a[i + 1..] == old(a[i + 1..])
    {
      ghost var before := a[..];
      a[j - 1], a[j] := a[j], a[j - 1];
      SwapStep(before, a[..], j, i, x);
      j := j - 1;
    }
    assert a[..i + 1] == a[..j] + [x] + a[j + 1..i + 1];
  }

  /** Swapping x = s[j] with a smaller predecessor keeps the pending insert
      equal and leaves everything behind position i alone. */
  lemma SwapStep(s: seq<Party>, t: seq<Party>, j: int, i: int, x: Party)
    requires 0 < j <= i < |s| && s[j] == x && s[j - 1].amount < x.amount
    requires t == s[j - 1 := x][j := s[j - 1]]
    ensures t[j - 1] == x
    ensures Insert(s[..j], x) + s[j + 1..i + 1] == Insert(t[..j - 1], x) + t[j..i + 1]
    ensures t[i + 1..] == s[i + 1..]
  {
    assert s[..j][..j - 1] == s[..j - 1] == t[..j - 1];
    assert t[j..i + 1] == [s[j - 1]] + s[j + 1..i + 1];
  }

  lemma {:induction false} InsertFacts(s: seq<Party>, x: Party)
    ensures multiset(Insert(s, x)) == multiset(s) + multiset{x}
    ensures |Insert(s, x)| == |s| + 1
    ensures SumOf(Insert(s, x)) == SumOf(s) + x.amount
    ensures forall u :: AmountOf(Insert(s, x), u) == AmountOf(s, u) + AmountOf([x], u)
  {
    if s == [] || s[|s| - 1].amount >= x.amount {
      SumOfAppend(s, [x]);
      forall u ensures AmountOf(Insert(s, x), u) == AmountOf(s, u) + AmountOf([x], u) {
        AmountOfAppend(s, [x], u);
      }
    } else {
      var init := s[..|s| - 1];
      var last := s[|s| - 1];
      assert s == init + [last];
      InsertFacts(init, x);
      SumOfAppend(Insert(init, x), [last]);
      SumOfAppend(init, [last]);
      SumOfAppend(init, [x]);
      forall u ensures AmountOf(Insert(s, x), u) == AmountOf(s, u) + AmountOf([x], u) {
        AmountOfAppend(Insert(init, x), [last], u);
        AmountOfAppend(init, [last], u);
      }
    }
  }

  /** The inserted list holds the old elements and the new one. */
  lemma {:induction false} InsertMembers(s: seq<Party>, x: Party)
    ensures forall y :: y in Insert(s, x) <==> y in s || y == x
  {
    if s != [] && s[|s| - 1].amount < x.amount {
      var init := s[..|s| - 1];
      InsertMembers(init, x);
      assert s == init + [s[|s| - 1]];
    }
  }

  lemma {:induction false} InsertDistinct(s: seq<Party>, x: Party)
    requires DistinctUsers(s) && x.userId !in UsersOf(s)
    ensures DistinctUsers(Insert(s, x))
  {
    if s == [] || s[|s| - 1].amount >= x.amount {
      var r := s + [x];
      forall p, q | 0 <= p < q < |r| ensures r[p].userId != r[q].userId {
        if q == |s| {
          assert r[p] in s;
        }
      }
    } else {
      var init := s[..|s| - 1];
      var last := s[|s| - 1];
      assert s == init + [last];
      assert UsersOf(init) <= UsersOf(s);
      InsertDistinct(init, x);
      InsertMembers(init, x);
      var ins := Insert(init, x);
      forall p | 0 <= p < |ins| ensures ins[p].userId != last.userId {
        assert ins[p] in ins;
        if ins[p] != x {
          var k :| 0 <= k < |init| && init[k] == ins[p];
          assert s[k] == ins[p];
        }
      }
      var r := ins + [last];
      forall p, q | 0 <= p < q < |r| ensures r[p].userId != r[q].userId {
        assert r[p] == ins[p];
        if q < |ins| {
          assert r[q] == ins[q];
        }
      }
    }
  }

  lemma {:induction false} InsertOrdered(s: seq<Party>, x: Party)
    requires OrderedByAmountThenUser(s)
    requires forall y :: y in s ==> y.userId < x.userId
    ensures OrderedByAmountThenUser(Insert(s, x))
  {
    if s == [] || s[|s| - 1].amount >= x.amount {
      var r := s + [x];
      forall p, q | 0 <= p < q < |r|
        ensures Precedes(r[p], r[q])
      {
        if q == |s| {
          assert r[p] in s;
          assert s[p].amount >= s[|s| - 1].amount || p == |s| - 1;
        }
      }
    } else {
      var init := s[..|s| - 1];
      var last := s[|s| - 1];
      assert s == init + [last];
      InsertOrdered(init, x);
      InsertMembers(init, x);
      var ins := Insert(init, x);
      forall p | 0 <= p < |ins| ensures Precedes(ins[p], last) {
        assert ins[p] in ins;
        if ins[p] != x {
          var k :| 0 <= k < |init| && init[k] == ins[p];
          assert s[k] == ins[p];
        }
      }
      var r := ins + [last];
      forall p, q | 0 <= p < q < |r| ensures Precedes(r[p], r[q]) {
        assert r[p] == ins[p];
        if q < |ins| {
          assert r[q] == ins[q];
        }
      }
    }
  }

  /** The sort is a permutation: same parties, same length, same total. */
  lemma {:induction false} SortDescFacts(s: seq<Party>)
    ensures multiset(SortDesc(s)) == multiset(s)
    ensures |SortDesc(s)| == |s|
    ensures SumOf(SortDesc(s)) == SumOf(s)
    ensures UsersOf(SortDesc(s)) == UsersOf(s)
  {
    if s != [] {
      var init := s[..|s| - 1];
      var last := s[|s| - 1];
      assert s == init + [last];
      SortDescFacts(init);
      InsertFacts(SortDesc(init), last);
      SumOfAppend(init, [last]);
      var r := SortDesc(s);
      assert forall y :: y in r <==> y in s by {
        forall y ensures y in r <==> y in s {
          assert y in r <==> y in multiset(r);
          assert y in s <==> y in multiset(s);
        }
      }
    }
  }

  /** Sorting keeps every user's amount. */
  lemma {:induction false} SortDescAmount(s: seq<Party>, u: UserId)
    ensures AmountOf(SortDesc(s), u) == AmountOf(s, u)
  {
    if s != [] {
      var init := s[..|s| - 1];
      var last := s[|s| - 1];
      assert s == init + [last];
      SortDescAmount(init, u);
      InsertFacts(SortDesc(init), last);
      AmountOfAppend(init, [last], u);
    }
  }

  /** Sorting keeps each user at most once. */
  lemma {:induction false} SortDescDistinct(s: seq<Party>)
    requires DistinctUsers(s)
    ensures DistinctUsers(SortDesc(s))
  {
    if s != [] {
      var init := s[..|s| - 1];
      var last := s[|s| - 1];
      assert s == init + [last];
      assert DistinctUsers(init);
      SortDescDistinct(init);
      SortDescFacts(init);
      forall y | y in init ensures y.userId != last.userId {
        var k :| 0 <= k < |init| && init[k] == y;
        assert s[k] == y;
      }
      InsertDistinct(SortDesc(init), last);
    }
  }

  /** Sorting a list that is in ascending user order gives non-increasing
      amounts, with equal amounts in ascending user order (stability). */
  lemma {:induction false} SortDescOrdered(s: seq<Party>)
    requires AscendingUsers(s)
    ensures OrderedByAmountThenUser(SortDesc(s))
  {
    if s != [] {
      var init := s[..|s| - 1];
      var last := s[|s| - 1];
      assert AscendingUsers(init);
      SortDescOrdered(init);
      SortDescFacts(init);
      forall y | y in SortDesc(init)
        ensures y.userId < last.userId
      {
        assert y in multiset(SortDesc(init));
        assert y in init;
      }
      InsertOrdered(SortDesc(init), last);
    }
  }

  lemma FirstPrecedes(s: seq<Party>, y: Party)
    requires OrderedByAmountThenUser(s) && y in s
    ensures y == s[0] || Precedes(s[0], y)
  {
  }

  /** The order of the sorted list is total on distinct users, so the sort
      could not have produced any other list. */
  lemma {:induction false} OrderedIsUnique(r: seq<Party>, t: seq<Party>)
    requires OrderedByAmountThenUser(r) && OrderedByAmountThenUser(t)
    requires multiset(r) == multiset(t)
    ensures r == t
  {
    if r != [] {
      assert r[0] in multiset(t) && t[0] in multiset(r);
      FirstPrecedes(t, r[0]);
      FirstPrecedes(r, t[0]);
      assert t[0] == r[0];
      assert r == [r[0]] + r[1..];
      assert t == [t[0]] + t[1..];
      assert multiset(r) == multiset{r[0]} + multiset(r[1..]);
      assert multiset(t) == multiset{t[0]} + multiset(t[1..]);
      forall z ensures multiset(r[1..])[z] == multiset(t[1..])[z] {
        assert multiset(r)[z] == multiset(t)[z];
      }
      assert multiset(r[1..]) == multiset(t[1..]);
      OrderedIsUnique(r[1..], t[1..]);
    } else {
      assert |t| == |multiset(t)|;
    }
  }
}
