/** The split calculator of the expense service: it turns the total of a new
    expense, a split type and the caller's ordered split requests into one
    allocation per request, or an error.

    Amounts are integer cents and percentages are basis points (hundredths of
    a percent), so 100.00 is 10000 cents and 100% is 10000 basis points. The
    0.01 tolerances of the sum checks become "differs by more than one". */
module ExpenseService {
  import opened Outcomes
  import opened Ledger

  /** 100% in basis points. */
  const WholePercentage: int := 10000

  /** The 0.01 tolerance of the sum checks: one cent, or one basis point. */
  const Tolerance: int := 1

  datatype SplitType = Equal | Exact | Percentage

  /** One requested share; `amount` (cents) is read by EXACT splits and
      `percentage` (basis points) by PERCENTAGE splits. */
  datatype SplitRequest = SplitRequest(userId: UserId, amount: Option<int>, percentage: Option<int>)

  /** One computed share of the expense. */
  datatype Allocation = Allocation(userId: UserId, amount: int, percentage: Option<int>)

  datatype SplitError =
    | SplitsRequired                         // no split requests at all
    | AmountRequired                         // an EXACT request without a usable amount
    | AmountMismatch(sum: int, total: int)   // EXACT amounts do not add up to the total
    | PercentageRequired                     // a PERCENTAGE request without a usable percentage
    | PercentageMismatch(sum: int)           // percentages do not add up to 100%

  /** JavaScript truthiness of an optional number: an absent field and a zero
      are both rejected by `!split.amount` and `!split.percentage`. */
  predicate Present(v: Option<int>)
  {
    v.Some? && v.value != 0
  }

  function ValueOf(v: Option<int>): int
  {
    if v.Some? then v.value else 0
  }

  /** The sum of the amounts of a list of allocations. */
  function AllocatedTotal(allocs: seq<Allocation>): int
  {
    if allocs == [] then 0 else AllocatedTotal(allocs[..|allocs| - 1]) + allocs[|allocs| - 1].amount
  }

  /** The sum of the requested amounts (EXACT). */
  function RequestedAmountTotal(splits: seq<SplitRequest>): int
  {
    if splits == [] then 0
    else RequestedAmountTotal(splits[..|splits| - 1]) + ValueOf(splits[|splits| - 1].amount)
  }

  /** The sum of the requested percentages (PERCENTAGE). */
  function RequestedPercentageTotal(splits: seq<SplitRequest>): int
  {
    if splits == [] then 0
    else RequestedPercentageTotal(splits[..|splits| - 1]) + ValueOf(splits[|splits| - 1].percentage)
  }

  // ---------------------------------------------------------------------
  // Reference definitions of the three split types
  // ---------------------------------------------------------------------

  /** EQUAL: the share of the request at position `index` out of `count`:
      the floor of total/count, plus one cent for each of the first
      (total mod count) requests in caller order. */
  function EqualShare(total: int, count: nat, index: nat): int
    requires count > 0
  {
    total / count + (if index < total % count then 1 else 0)
  }

  function EqualAllocations(total: int, splits: seq<SplitRequest>): seq<Allocation>
  {
    seq(|splits|, k requires 0 <= k < |splits| => Allocation(splits[k].userId, EqualShare(total, |splits|, k), None))
  }

  /** EXACT: every request must carry a non-zero amount, and the amounts must
      add up to the total within one cent; the allocations are then the
      requested amounts, unchanged. */
  function ExactAllocations(total: int, splits: seq<SplitRequest>): Result<seq<Allocation>, SplitError>
  {
    if exists k :: 0 <= k < |splits| && !Present(splits[k].amount) then Err(AmountRequired)
    else if Abs(RequestedAmountTotal(splits) - total) > Tolerance then
      Err(AmountMismatch(RequestedAmountTotal(splits), total))
    else
      Ok(seq(|splits|, k requires 0 <= k < |splits| => Allocation(splits[k].userId, ValueOf(splits[k].amount), None)))
  }

  /** `Math.round(n / d)` for a positive `d`: the nearest integer, halves
      rounded up (towards positive infinity, also for negative values). */
  function RoundHalfUp(n: int, d: int): int
    requires d > 0
  {
    (2 * n + d) / (2 * d)
  }

  /** The share, in cents, of `total` cents at `basisPoints`, rounded to the
      nearest cent. */
  function PercentShare(total: int, basisPoints: int): int
  {
    RoundHalfUp(total * basisPoints, 10000)
  }

  /** PERCENTAGE: every request must carry a non-zero percentage and the
      percentages must add up to 100% within 0.01%; each allocation is the
      rounded share of its percentage and carries that percentage. */
  function PercentageAllocations(total: int, splits: seq<SplitRequest>): Result<seq<Allocation>, SplitError>
  {
    if exists k :: 0 <= k < |splits| && !Present(splits[k].percentage) then Err(PercentageRequired)
    else if Abs(RequestedPercentageTotal(splits) - WholePercentage) > Tolerance then
      Err(PercentageMismatch(RequestedPercentageTotal(splits)))
    else
      Ok(seq(|splits|, k requires 0 <= k < |splits| =>
        Allocation(splits[k].userId, PercentShare(total, ValueOf(splits[k].percentage)), splits[k].percentage)))
  }

  /** What calculateSplitAmounts produces for each split type. */
  function Split(total: int, splitType: SplitType, splits: seq<SplitRequest>): Result<seq<Allocation>, SplitError>
  {
    match splitType
    case Equal => Ok(EqualAllocations(total, splits))
    case Exact => ExactAllocations(total, splits)
    case Percentage => PercentageAllocations(total, splits)
  }

  // ---------------------------------------------------------------------
  // The operations
  // ---------------------------------------------------------------------

  /** validateSplits: an empty list of split requests is refused. */
  function ValidateSplits(splits: seq<SplitRequest>): (r: Outcome<SplitError>)
    ensures r.Pass? <==> splits != []
    ensures r.Fail? ==> r.error == SplitsRequired
  {
    if |splits| == 0 then Fail(SplitsRequired) else Pass
  }

  /** calculateSplitAmounts: the branch of the split type runs one pass over
      the requests, appending one allocation per request and failing at the
      first unusable request or at the final sum check. */
  method CalculateSplitAmounts(total: int, splitType: SplitType, splits: seq<SplitRequest>)
    returns (r: Result<seq<Allocation>, SplitError>)
    ensures r == Split(total, splitType, splits)
  {
    match splitType {
      case Equal =>
        var finalSplits := EqualSplitAmounts(total, splits);
        r := Ok(finalSplits);
      case Exact =>
        r := ExactSplitAmounts(total, splits);
      case Percentage =>
        r := PercentageSplitAmounts(total, splits);
    }
  }

  /** The EQUAL branch: the leftover cents are handed out one at a time, in
      caller order, by counting a remainder down. */
  method EqualSplitAmounts(total: int, splits: seq<SplitRequest>) returns (finalSplits: seq<Allocation>)
    ensures finalSplits == EqualAllocations(total, splits)
  {
    finalSplits := [];
    var count := |splits|;
    // an empty list produces no share, so its quotient is never used
    var baseAmount := if count > 0 then total / count else 0;
    var remainder := if count > 0 then total % count else 0;
    assert count > 0 ==> remainder == total - baseAmount * count;
    for k := 0 to count
      invariant |finalSplits| == k
      invariant count > 0 ==> remainder == if k < total % count then total % count - k else 0
      invariant forall p :: 0 <= p < k ==> finalSplits[p] == EqualAllocations(total, splits)[p]
    {
      var amount := baseAmount;
      if remainder > 0 {
        amount := amount + 1;
        remainder := remainder - 1;
      }
      finalSplits := finalSplits + [Allocation(splits[k].userId, amount, None)];
    }
  }

  /** The EXACT branch. */
  method ExactSplitAmounts(total: int, splits: seq<SplitRequest>) returns (r: Result<seq<Allocation>, SplitError>)
    ensures r == ExactAllocations(total, splits)
  {
    var finalSplits: seq<Allocation> := [];
    var sum := 0;
    for k := 0 to |splits|
      invariant sum == RequestedAmountTotal(splits[..k])
      invariant forall p :: 0 <= p < k ==> Present(splits[p].amount)
      invariant |finalSplits| == k
      invariant forall p :: 0 <= p < k ==> finalSplits[p] == Allocation(splits[p].userId, ValueOf(splits[p].amount), None)
    {
      var split := splits[k];
      if !Present(split.amount) {
        return Err(AmountRequired);
      }
      assert splits[..k + 1][..k] == splits[..k];
      sum := sum + split.amount.value;
      finalSplits := finalSplits + [Allocation(split.userId, split.amount.value, None)];
    }
    assert splits[..|splits|] == splits;
    if Abs(sum - total) > Tolerance {
      return Err(AmountMismatch(sum, total));
    }
    assert !exists k :: 0 <= k < |splits| && !Present(splits[k].amount);
    assert finalSplits == ExactAllocations(total, splits).value;
    r := Ok(finalSplits);
  }

  /** The PERCENTAGE branch. */
  method PercentageSplitAmounts(total: int, splits: seq<SplitRequest>) returns (r: Result<seq<Allocation>, SplitError>)
    ensures r == PercentageAllocations(total, splits)
  {
    var finalSplits: seq<Allocation> := [];
    var sum := 0;
    for k := 0 to |splits|
      invariant sum == RequestedPercentageTotal(splits[..k])
      invariant forall p :: 0 <= p < k ==> Present(splits[p].percentage)
      invariant |finalSplits| == k
      invariant forall p :: 0 <= p < k ==>
        finalSplits[p] == Allocation(splits[p].userId, PercentShare(total, ValueOf(splits[p].percentage)), splits[p].percentage)
    {
      var split := splits[k];
      if !Present(split.percentage) {
        return Err(PercentageRequired);
      }
      assert splits[..k + 1][..k] == splits[..k];
      sum := sum + split.percentage.value;
      var amount := PercentShare(total, split.percentage.value);
      finalSplits := finalSplits + [Allocation(split.userId, amount, split.percentage)];
    }
    assert splits[..|splits|] == splits;
    if Abs(sum - WholePercentage) > Tolerance {
      return Err(PercentageMismatch(sum));
    }
    assert !exists k :: 0 <= k < |splits| && !Present(splits[k].percentage);
    assert finalSplits == PercentageAllocations(total, splits).value;
    r := Ok(finalSplits);
  }

  /** The arithmetic part of addExpense: the guard, then the calculation. */
  method AddExpenseSplits(total: int, splitType: SplitType, splits: seq<SplitRequest>)
    returns (r: Result<seq<Allocation>, SplitError>)
    ensures splits == [] ==> r == Err(SplitsRequired)
    ensures splits != [] ==> r == Split(total, splitType, splits)
  {
    var check := ValidateSplits(splits);
    if check.Fail? {
      return Err(check.error);
    }
    r := CalculateSplitAmounts(total, splitType, splits);
  }

  // ---------------------------------------------------------------------
  // EQUAL
  // ---------------------------------------------------------------------

  /** A list whose first `extra` amounts are `base + 1` and whose other
      amounts are `base` adds up to |list| * base + extra. */
  lemma {:induction false} TwoLevelTotal(allocs: seq<Allocation>, base: int, extra: int)
    requires 0 <= extra <= |allocs|
    requires forall k :: 0 <= k < |allocs| ==> allocs[k].amount == base + (if k < extra then 1 else 0)
    ensures AllocatedTotal(allocs) == |allocs| * base + extra
  {
    if allocs != [] {
      var n := |allocs|;
      var prefix := allocs[..n - 1];
      TwoLevelTotal(prefix, base, if extra < n then extra else n - 1);
      assert (n - 1) * base + base == n * base;
    }
  }

  /** A positive multiple of a positive `n` is at least `n`. */
  lemma {:induction false} PositiveMultiple(n: int, x: int)
    requires n > 0 && x > 0
    ensures n * x >= n
    decreases x
  {
    if x > 1 {
      PositiveMultiple(n, x - 1);
      assert n * x == n * (x - 1) + n;
    }
  }

  /** A non-zero multiple of a positive `n` is at least `n` away from zero. */
  lemma MultipleAwayFromZero(n: int, x: int)
    requires n > 0
    ensures x == 0 || n * x >= n || n * x <= -n
  {
    if x > 0 {
      PositiveMultiple(n, x);
    } else if x < 0 {
      PositiveMultiple(n, -x);
      assert n * x == -(n * -x);
    }
  }

  /** Floor division and its remainder are the only quotient and remainder. */
  lemma DivModUnique(total: int, n: int, b: int, c: int)
    requires n > 0 && 0 <= c < n && total == n * b + c
    ensures b == total / n && c == total % n
  {
    var q, r := total / n, total % n;
    assert total == n * q + r;
    assert n * b - n * q == r - c;
    assert n * (b - q) == n * b - n * q;
    MultipleAwayFromZero(n, b - q);
  }

  /** RoundHalfUp is the nearest integer to n/d, halves rounded up. */
  lemma RoundHalfUpNearest(n: int, d: int)
    requires d > 0
    ensures 2 * d * RoundHalfUp(n, d) - d <= 2 * n < 2 * d * RoundHalfUp(n, d) + d
  {
    var q, rem := (2 * n + d) / (2 * d), (2 * n + d) % (2 * d);
    assert 2 * n + d == 2 * d * q + rem && 0 <= rem < 2 * d;
  }

  /** No other integer is that close: whatever integer lies within half of
      n/d, halves going up, is RoundHalfUp(n, d). */
  lemma RoundHalfUpUnique(n: int, d: int, r: int)
    requires d > 0 && 2 * d * r - d <= 2 * n < 2 * d * r + d
    ensures r == RoundHalfUp(n, d)
  {
    DivModUnique(2 * n + d, 2 * d, r, 2 * n + d - 2 * d * r);
  }

  /** A percentage share is within half a cent of total * percentage, halves
      rounded up. */
  lemma PercentShareNearest(total: int, basisPoints: int)
    ensures 20000 * PercentShare(total, basisPoints) - 10000
         <= 2 * (total * basisPoints)
         < 20000 * PercentShare(total, basisPoints) + 10000
  {
    RoundHalfUpNearest(total * basisPoints, 10000);
  }

  /** EQUAL gives one allocation per request, same users in the same order;
      every amount is the floor of total/count or one cent more, exactly the
      first (total mod count) requests get the extra cent, and the amounts
      add up to the total exactly. */
  lemma EqualSplitProperties(total: int, splits: seq<SplitRequest>)
    requires splits != []
    ensures Split(total, Equal, splits).Ok?
    ensures var r := Split(total, Equal, splits).value;
      && |r| == |splits|
      && (forall k :: 0 <= k < |r| ==> r[k].userId == splits[k].userId && r[k].percentage == None)
      && (forall k :: 0 <= k < |r| ==> r[k].amount == total / |splits| || r[k].amount == total / |splits| + 1)
      && (forall k :: 0 <= k < |r| ==> (r[k].amount == total / |splits| + 1 <==> k < total % |splits|))
      && AllocatedTotal(r) == total
  {
    var r := EqualAllocations(total, splits);
    TwoLevelTotal(r, total / |splits|, total % |splits|);
  }

  /** The EQUAL split is the only way to divide the total among the requests
      in caller order so that the shares never increase along the order and
      differ by at most one cent. */
  lemma EqualSplitIsUnique(total: int, splits: seq<SplitRequest>, allocs: seq<Allocation>)
    requires splits != [] && |allocs| == |splits|
    requires AllocatedTotal(allocs) == total
    requires forall p, q :: 0 <= p <= q < |allocs| ==> allocs[q].amount <= allocs[p].amount
    requires allocs[0].amount - allocs[|allocs| - 1].amount <= 1
    ensures forall k :: 0 <= k < |allocs| ==> allocs[k].amount == Split(total, Equal, splits).value[k].amount
  {
    var n := |allocs|;
    var b := allocs[n - 1].amount;
    var c := 0;
    while allocs[c].amount != b
      invariant 0 <= c < n
      invariant forall k :: 0 <= k < c ==> allocs[k].amount == b + 1
      decreases n - c
    {
      assert allocs[c].amount <= allocs[0].amount;
      c := c + 1;
    }
    forall k | 0 <= k < n
      ensures allocs[k].amount == b + (if k < c then 1 else 0)
    {
      if c <= k {
        assert allocs[k].amount <= allocs[c].amount;
      }
    }
    TwoLevelTotal(allocs, b, c);
    DivModUnique(total, n, b, c);
  }

  /** 100.00 split equally over three requests gives 33.34, 33.33, 33.33. */
  lemma EqualSplitExample()
    ensures Split(10000, Equal, [SplitRequest(1, None, None), SplitRequest(2, None, None), SplitRequest(3, None, None)])
         == Ok([Allocation(1, 3334, None), Allocation(2, 3333, None), Allocation(3, 3333, None)])
  {
    assert 10000 / 3 == 3333 && 10000 % 3 == 1;
    var r := EqualAllocations(10000, [SplitRequest(1, None, None), SplitRequest(2, None, None), SplitRequest(3, None, None)]);
    assert r[0] == Allocation(1, 3334, None);
    assert r[1] == Allocation(2, 3333, None);
    assert r[2] == Allocation(3, 3333, None);
    assert r == [r[0], r[1], r[2]];
  }

  // ---------------------------------------------------------------------
  // EXACT
  // ---------------------------------------------------------------------

  lemma {:induction false} RequestedAmountsTotal(splits: seq<SplitRequest>, allocs: seq<Allocation>)
    requires |allocs| == |splits|
    requires forall k :: 0 <= k < |allocs| ==> allocs[k].amount == ValueOf(splits[k].amount)
    ensures AllocatedTotal(allocs) == RequestedAmountTotal(splits)
  {
    if allocs != [] {
      RequestedAmountsTotal(splits[..|splits| - 1], allocs[..|allocs| - 1]);
    }
  }

  /** EXACT fails with AmountRequired as soon as any request lacks a non-zero
      amount, whatever the sum; otherwise it fails with AmountMismatch exactly
      when the amounts differ from the total by more than one cent; and when
      it succeeds the allocations are the requested amounts in request order,
      which add up to the total within one cent. */
  lemma ExactSplitProperties(total: int, splits: seq<SplitRequest>)
    ensures (exists k :: 0 <= k < |splits| && !Present(splits[k].amount)) ==>
      Split(total, Exact, splits) == Err(AmountRequired)
    ensures (forall k :: 0 <= k < |splits| ==> Present(splits[k].amount)) ==>
      (Split(total, Exact, splits).Err? <==> Abs(RequestedAmountTotal(splits) - total) > Tolerance)
    ensures Split(total, Exact, splits).Err? && Split(total, Exact, splits) != Err(AmountRequired) ==>
      Split(total, Exact, splits) == Err(AmountMismatch(RequestedAmountTotal(splits), total))
    ensures Split(total, Exact, splits).Ok? ==>
      var r := Split(total, Exact, splits).value;
      && |r| == |splits|
      && (forall k :: 0 <= k < |r| ==> Present(splits[k].amount) && r[k] == Allocation(splits[k].userId, splits[k].amount.value, None))
      && Abs(AllocatedTotal(r) - total) <= Tolerance
  {
    if Split(total, Exact, splits).Ok? {
      RequestedAmountsTotal(splits, Split(total, Exact, splits).value);
    }
  }

  /** 100.00 split exactly as 60.00 and 60.00 is refused: 120.00 is not 100.00. */
  lemma ExactMismatchExample()
    ensures Split(10000, Exact, [SplitRequest(1, Some(6000), None), SplitRequest(2, Some(6000), None)])
         == Err(AmountMismatch(12000, 10000))
  {
    var splits := [SplitRequest(1, Some(6000), None), SplitRequest(2, Some(6000), None)];
    assert RequestedAmountTotal(splits[..1]) == 6000;
    assert RequestedAmountTotal(splits) == 12000;
    assert forall k :: 0 <= k < |splits| ==> Present(splits[k].amount);
  }

  /** A zero amount counts as a missing one, even when the amounts add up. */
  lemma ExactZeroAmountExample()
    ensures Split(10000, Exact, [SplitRequest(1, Some(0), None), SplitRequest(2, Some(10000), None)])
         == Err(AmountRequired)
  {
    var splits := [SplitRequest(1, Some(0), None), SplitRequest(2, Some(10000), None)];
    assert !Present(splits[0].amount);
  }

  // ---------------------------------------------------------------------
  // PERCENTAGE
  // ---------------------------------------------------------------------

  /** PERCENTAGE fails with PercentageRequired as soon as any request lacks a
      non-zero percentage; otherwise it fails with PercentageMismatch exactly
      when the percentages differ from 100% by more than 0.01%; and when it
      succeeds each allocation carries its request's user and percentage and
      an amount within half a cent of total * percentage, halves rounded up. */
  lemma PercentageSplitProperties(total: int, splits: seq<SplitRequest>)
    ensures (exists k :: 0 <= k < |splits| && !Present(splits[k].percentage)) ==>
      Split(total, Percentage, splits) == Err(PercentageRequired)
    ensures (forall k :: 0 <= k < |splits| ==> Present(splits[k].percentage)) ==>
      (Split(total, Percentage, splits).Err? <==> Abs(RequestedPercentageTotal(splits) - WholePercentage) > Tolerance)
    ensures Split(total, Percentage, splits).Err? && Split(total, Percentage, splits) != Err(PercentageRequired) ==>
      Split(total, Percentage, splits) == Err(PercentageMismatch(RequestedPercentageTotal(splits)))
    ensures Split(total, Percentage, splits).Ok? ==>
      var r := Split(total, Percentage, splits).value;
      && |r| == |splits|
      && forall k :: 0 <= k < |r| ==>
        && Present(splits[k].percentage)
        && r[k].userId == splits[k].userId
        && r[k].percentage == splits[k].percentage
        && 20000 * r[k].amount - 10000
           <= 2 * (total * splits[k].percentage.value)
           < 20000 * r[k].amount + 10000
  {
    if Split(total, Percentage, splits).Ok? {
      forall k | 0 <= k < |splits|
        ensures var a := PercentShare(total, ValueOf(splits[k].percentage));
          20000 * a - 10000 <= 2 * (total * ValueOf(splits[k].percentage)) < 20000 * a + 10000
      {
        PercentShareNearest(total, ValueOf(splits[k].percentage));
      }
    }
  }

  /** Summing the rounded shares accumulates at most half a cent of rounding
      per request. */
  lemma {:induction false} RoundingAccumulates(total: int, splits: seq<SplitRequest>, allocs: seq<Allocation>)
    requires |allocs| == |splits|
    requires forall k :: 0 <= k < |allocs| ==> allocs[k].amount == PercentShare(total, ValueOf(splits[k].percentage))
    ensures 20000 * AllocatedTotal(allocs) - 10000 * |allocs|
         <= 2 * (total * RequestedPercentageTotal(splits))
         <= 20000 * AllocatedTotal(allocs) + 10000 * |allocs|
  {
    if allocs != [] {
      var n := |allocs|;
      RoundingAccumulates(total, splits[..n - 1], allocs[..n - 1]);
      var p := ValueOf(splits[n - 1].percentage);
      PercentShareNearest(total, p);
      var before := RequestedPercentageTotal(splits[..n - 1]);
      assert RequestedPercentageTotal(splits) == before + p;
      assert total * (before + p) == total * before + total * p;
      assert AllocatedTotal(allocs) == AllocatedTotal(allocs[..n - 1]) + allocs[n - 1].amount;
    }
  }

  /** The allocation sum of a PERCENTAGE split is not checked: it can miss the
      total by up to half a cent per request, plus what the 0.01% tolerance
      on the percentages lets through. */
  lemma PercentageTotalBound(total: int, splits: seq<SplitRequest>)
    requires Split(total, Percentage, splits).Ok?
    ensures 20000 * Abs(AllocatedTotal(Split(total, Percentage, splits).value) - total)
         <= 10000 * |splits| + 2 * Abs(total)
  {
    var r := Split(total, Percentage, splits).value;
    RoundingAccumulates(total, splits, r);
    DriftBound(total, RequestedPercentageTotal(splits), AllocatedTotal(r), |r|);
  }

  /** Shares of total adding up to `shares`, each rounded by at most half a
      cent, at percentages adding up to 100% +- 0.01%, miss the total by at
      most half a cent per share plus 0.01% of the total. */
  lemma DriftBound(total: int, percentages: int, shares: int, n: int)
    requires -1 <= percentages - 10000 <= 1
    requires 20000 * shares - 10000 * n <= 2 * (total * percentages) <= 20000 * shares + 10000 * n
    ensures 20000 * Abs(shares - total) <= 10000 * n + 2 * Abs(total)
  {
    var d := percentages - 10000;
    assert total * percentages == total * 10000 + total * d;
    assert total * d == if d == 1 then total else if d == -1 then -total else 0;
  }

  /** 200.00 at 20%, 30% and 50% gives 40.00, 60.00 and 100.00. */
  lemma PercentageSplitExample()
    ensures Split(20000, Percentage, [SplitRequest(1, None, Some(2000)), SplitRequest(2, None, Some(3000)), SplitRequest(3, None, Some(5000))])
         == Ok([Allocation(1, 4000, Some(2000)), Allocation(2, 6000, Some(3000)), Allocation(3, 10000, Some(5000))])
  {
    var splits := [SplitRequest(1, None, Some(2000)), SplitRequest(2, None, Some(3000)), SplitRequest(3, None, Some(5000))];
    assert RequestedPercentageTotal(splits[..1]) == 2000;
    assert splits[..2][..1] == splits[..1];
    assert RequestedPercentageTotal(splits[..2]) == 5000;
    assert RequestedPercentageTotal(splits) == 10000;
    assert forall k :: 0 <= k < |splits| ==> Present(splits[k].percentage);
    var r := PercentageAllocations(20000, splits).value;
    assert PercentShare(20000, 2000) == 4000 && PercentShare(20000, 3000) == 6000 && PercentShare(20000, 5000) == 10000;
    assert r[0] == Allocation(1, 4000, Some(2000));
    assert r[1] == Allocation(2, 6000, Some(3000));
    assert r[2] == Allocation(3, 10000, Some(5000));
    assert r == [r[0], r[1], r[2]];
  }

  /** 200.00 at 20% and 30% is refused: the percentages add up to 50%. */
  lemma PercentageMismatchExample()
    ensures Split(20000, Percentage, [SplitRequest(1, None, Some(2000)), SplitRequest(2, None, Some(3000))])
         == Err(PercentageMismatch(5000))
  {
    var splits := [SplitRequest(1, None, Some(2000)), SplitRequest(2, None, Some(3000))];
    assert RequestedPercentageTotal(splits[..1]) == 2000;
    assert RequestedPercentageTotal(splits) == 5000;
    assert forall k :: 0 <= k < |splits| ==> Present(splits[k].percentage);
  }

  /** 1.00 at 16.67% four times and 16.66% twice passes the percentage check,
      yet the rounded shares add up to 1.02. */
  lemma PercentageTotalDriftExample()
    ensures var splits := [SplitRequest(1, None, Some(1667)), SplitRequest(2, None, Some(1667)),
                           SplitRequest(3, None, Some(1667)), SplitRequest(4, None, Some(1667)),
                           SplitRequest(5, None, Some(1666)), SplitRequest(6, None, Some(1666))];
      Split(100, Percentage, splits).Ok? && AllocatedTotal(Split(100, Percentage, splits).value) == 102
  {
    var splits := [SplitRequest(1, None, Some(1667)), SplitRequest(2, None, Some(1667)),
                   SplitRequest(3, None, Some(1667)), SplitRequest(4, None, Some(1667)),
                   SplitRequest(5, None, Some(1666)), SplitRequest(6, None, Some(1666))];
    assert RequestedPercentageTotal(splits[..1]) == 1667;
    assert splits[..2][..1] == splits[..1];
    assert RequestedPercentageTotal(splits[..2]) == 3334;
    assert splits[..3][..2] == splits[..2];
    assert RequestedPercentageTotal(splits[..3]) == 5001;
    assert splits[..4][..3] == splits[..3];
    assert RequestedPercentageTotal(splits[..4]) == 6668;
    assert splits[..5][..4] == splits[..4];
    assert RequestedPercentageTotal(splits[..5]) == 8334;
    assert RequestedPercentageTotal(splits) == 10000;
    assert forall k :: 0 <= k < |splits| ==> Present(splits[k].percentage);
    var r := Split(100, Percentage, splits).value;
    assert PercentShare(100, 1667) == 17 && PercentShare(100, 1666) == 17;
    assert forall k :: 0 <= k < 6 ==> r[k].amount == 17;
    assert AllocatedTotal(r[..1]) == 17;
    assert r[..2][..1] == r[..1];
    assert AllocatedTotal(r[..2]) == 34;
    assert r[..3][..2] == r[..2];
    assert AllocatedTotal(r[..3]) == 51;
    assert r[..4][..3] == r[..3];
    assert AllocatedTotal(r[..4]) == 68;
    assert r[..5][..4] == r[..4];
    assert AllocatedTotal(r[..5]) == 85;
  }
}
