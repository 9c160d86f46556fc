/** The figures derived from an account's movements: balance, incomes,
    outcomes, interest, the sorted view of the movements, and the total
    held by a whole ledger of accounts. Every function here is pure. */
module Figures {

  // ---------------------------------------------------------------------------
  // Sums, folded from the left as `reduce((acc, mov) => acc + mov, 0)` does
  // ---------------------------------------------------------------------------

  function Sum(xs: seq<int>): int
  {
    if xs == [] then 0 else Sum(xs[..|xs| - 1]) + xs[|xs| - 1]
  }

  function SumReal(xs: seq<real>): real
  {
    if xs == [] then 0.0 else SumReal(xs[..|xs| - 1]) + xs[|xs| - 1]
  }

  lemma {:induction false} SumSnoc(xs: seq<int>, x: int)
    ensures Sum(xs + [x]) == Sum(xs) + x
  {
    assert (xs + [x])[..|xs|] == xs;
  }

  lemma {:induction false} SumRealSnoc(xs: seq<real>, x: real)
    ensures SumReal(xs + [x]) == SumReal(xs) + x
  {
    assert (xs + [x])[..|xs|] == xs;
  }

  lemma {:induction false} SumConcat(xs: seq<int>, ys: seq<int>)
    ensures Sum(xs + ys) == Sum(xs) + Sum(ys)
  {
    if ys != [] {
      var init, last := ys[..|ys| - 1], ys[|ys| - 1];
      assert ys == init + [last];
      assert xs + ys == (xs + init) + [last];
      SumConcat(xs, init);
      SumSnoc(xs + init, last);
      SumSnoc(init, last);
    } else {
      assert xs + ys == xs;
    }
  }

  /** Taking one element out of a sequence takes it out of the sum and the multiset. */
  lemma {:induction false} SumWithout(ys: seq<int>, j: int)
    requires 0 <= j < |ys|
    ensures Sum(ys) == Sum(ys[..j] + ys[j + 1..]) + ys[j]
    ensures multiset(ys[..j] + ys[j + 1..]) == multiset(ys) - multiset{ys[j]}
  {
    var front, back := ys[..j], ys[j + 1..];
    assert ys == (front + [ys[j]]) + back;
    SumConcat(front + [ys[j]], back);
    SumSnoc(front, ys[j]);
    SumConcat(front, back);
    assert multiset(ys) == multiset(front) + multiset{ys[j]} + multiset(back);
  }

  /** The sum does not depend on the order of the movements. */
  lemma {:induction false} SumPermutation(xs: seq<int>, ys: seq<int>)
    requires multiset(xs) == multiset(ys)
    ensures Sum(xs) == Sum(ys)
    decreases |xs|
  {
    if xs == [] {
      assert |ys| == |multiset(ys)| == 0;
    } else {
      var init, last := xs[..|xs| - 1], xs[|xs| - 1];
      assert last in multiset(ys);
      var j :| 0 <= j < |ys| && ys[j] == last;
      SumWithout(xs, |xs| - 1);
      SumWithout(ys, j);
      assert xs[..|xs| - 1] + xs[|xs|..] == init;
      SumPermutation(init, ys[..j] + ys[j + 1..]);
    }
  }

  // ---------------------------------------------------------------------------
  // Balance, incomes and outcomes (calcDisplayBalance, calcDisplaySummary)
  // ---------------------------------------------------------------------------

  /** The balance of an account: the sum of its movements. */
  function Balance(movements: seq<int>): int
  {
    Sum(movements)
  }

  /** `filter(mov => mov > 0)`: the deposits, in their original order. */
  function Deposits(movements: seq<int>): (r: seq<int>)
    ensures forall i :: 0 <= i < |r| ==> r[i] > 0
    ensures |r| <= |movements|
  {
    if movements == [] then []
    else
      var last := movements[|movements| - 1];
      Deposits(movements[..|movements| - 1]) + (if last > 0 then [last] else [])
  }

  /** `filter(mov => mov < 0)`: the withdrawals, in their original order. */
  function Withdrawals(movements: seq<int>): (r: seq<int>)
    ensures forall i :: 0 <= i < |r| ==> r[i] < 0
    ensures |r| <= |movements|
  {
    if movements == [] then []
    else
      var last := movements[|movements| - 1];
      Withdrawals(movements[..|movements| - 1]) + (if last < 0 then [last] else [])
  }

  /** The filters distribute over concatenation: each part keeps its own kept
      elements, in order. With the one-element cases of the definitions this fixes
      the filtered lists completely. */
  lemma {:induction false} FiltersConcat(a: seq<int>, b: seq<int>)
    ensures Deposits(a + b) == Deposits(a) + Deposits(b)
    ensures Withdrawals(a + b) == Withdrawals(a) + Withdrawals(b)
    decreases |b|
  {
    if b == [] {
      assert a + b == a;
    } else {
      var init, last := b[..|b| - 1], b[|b| - 1];
      assert (a + b)[..|a + b| - 1] == a + init;
      assert (a + b)[|a + b| - 1] == last;
      FiltersConcat(a, init);
    }
  }

  /** A movement is among the deposits exactly when it is a positive movement, and
      among the withdrawals exactly when it is a negative one: nothing that passes
      the test is dropped. */
  lemma {:induction false} FiltersKeepAll(movements: seq<int>)
    ensures forall x :: x in Deposits(movements) <==> x in movements && x > 0
    ensures forall x :: x in Withdrawals(movements) <==> x in movements && x < 0
  {
    if movements != [] {
      var init, last := movements[..|movements| - 1], movements[|movements| - 1];
      FiltersKeepAll(init);
      assert movements == init + [last];
      forall x
        ensures x in movements <==> x in init || x == last
      {
        if x in movements {
          var i :| 0 <= i < |movements| && movements[i] == x;
          if i < |movements| - 1 {
            assert init[i] == x;
          }
        }
      }
    }
  }

  function Incomes(movements: seq<int>): int
  {
    Sum(Deposits(movements))
  }

  function Outcomes(movements: seq<int>): int
  {
    Sum(Withdrawals(movements))
  }

  lemma {:induction false} SumOfPositives(xs: seq<int>)
    requires forall i :: 0 <= i < |xs| ==> xs[i] > 0
    ensures Sum(xs) >= 0
    ensures xs != [] ==> Sum(xs) > 0
  {
    if xs != [] {
      SumOfPositives(xs[..|xs| - 1]);
    }
  }

  lemma {:induction false} SumOfNegatives(xs: seq<int>)
    requires forall i :: 0 <= i < |xs| ==> xs[i] < 0
    ensures Sum(xs) <= 0
    ensures xs != [] ==> Sum(xs) < 0
  {
    if xs != [] {
      SumOfNegatives(xs[..|xs| - 1]);
    }
  }

  /** Incomes and outcomes split the balance: no movement is lost or counted twice. */
  lemma {:induction false} IncomesPlusOutcomes(movements: seq<int>)
    ensures Incomes(movements) + Outcomes(movements) == Balance(movements)
  {
    if movements != [] {
      var init, last := movements[..|movements| - 1], movements[|movements| - 1];
      IncomesPlusOutcomes(init);
      assert Sum(movements) == Sum(init) + last;
      if last > 0 {
        assert Deposits(movements) == Deposits(init) + [last];
        assert Withdrawals(movements) == Withdrawals(init);
        SumSnoc(Deposits(init), last);
      } else if last < 0 {
        assert Withdrawals(movements) == Withdrawals(init) + [last];
        assert Deposits(movements) == Deposits(init);
        SumSnoc(Withdrawals(init), last);
      } else {
        assert Withdrawals(movements) == Withdrawals(init);
        assert Deposits(movements) == Deposits(init);
      }
    }
  }

  /** Incomes are never negative, outcomes never positive, and the balance lies between them. */
  lemma {:induction false} SummaryBounds(movements: seq<int>)
    ensures Outcomes(movements) <= 0 <= Incomes(movements)
    ensures Outcomes(movements) <= Balance(movements) <= Incomes(movements)
    ensures Balance(movements) == Incomes(movements) + Outcomes(movements)
  {
    SumOfPositives(Deposits(movements));
    SumOfNegatives(Withdrawals(movements));
    IncomesPlusOutcomes(movements);
  }

  /** Appending one movement moves the balance by exactly that amount. */
  lemma {:induction false} BalanceAfterAppend(movements: seq<int>, amount: int)
    ensures Balance(movements + [amount]) == Balance(movements) + amount
  {
    SumSnoc(movements, amount);
  }

  /** The balance step along the prefixes of a list of movements. */
  lemma {:induction false} BalanceOfPrefix(movements: seq<int>, k: int)
    requires 0 <= k < |movements|
    ensures Balance(movements[..k + 1]) == Balance(movements[..k]) + movements[k]
  {
    assert movements[..k + 1] == movements[..k] + [movements[k]];
    BalanceAfterAppend(movements[..k], movements[k]);
  }

  /** The first seeded account: 200 + 450 - 400 + 3000 - 650 - 130 + 70 + 1300. */
  lemma {:induction false} SeedBalance(ms: seq<int>)
    requires ms == [200, 450, -400, 3000, -650, -130, 70, 1300]
    ensures Balance(ms) == 3840
  {
    assert ms[..0] == [];
    BalanceOfPrefix(ms, 0);
    BalanceOfPrefix(ms, 1);
    BalanceOfPrefix(ms, 2);
    BalanceOfPrefix(ms, 3);
    BalanceOfPrefix(ms, 4);
    BalanceOfPrefix(ms, 5);
    BalanceOfPrefix(ms, 6);
    BalanceOfPrefix(ms, 7);
    assert ms[..|ms|] == ms;
  }

  // ---------------------------------------------------------------------------
  // Interest (calcDisplaySummary)
  // ---------------------------------------------------------------------------

  /** The interest earned by one deposit; the rate is a percentage. */
  function InterestOn(deposit: int, interestRate: real): real
  {
    deposit as real * interestRate / 100.0
  }

  /** `map(deposit => (deposit * interestRate) / 100)`. */
  function InterestTerms(deposits: seq<int>, interestRate: real): (r: seq<real>)
    ensures |r| == |deposits|
    ensures forall i :: 0 <= i < |r| ==> r[i] == InterestOn(deposits[i], interestRate)
  {
    if deposits == [] then []
    else
      InterestTerms(deposits[..|deposits| - 1], interestRate)
        + [InterestOn(deposits[|deposits| - 1], interestRate)]
  }

  lemma {:induction false} InterestTermsSnoc(deposits: seq<int>, deposit: int, interestRate: real)
    ensures InterestTerms(deposits + [deposit], interestRate)
              == InterestTerms(deposits, interestRate) + [InterestOn(deposit, interestRate)]
  {
    assert (deposits + [deposit])[..|deposits|] == deposits;
  }

  /** `filter(int => int >= 1)`: only interest amounts of at least 1 are credited. */
  function Credited(terms: seq<real>): (r: seq<real>)
    ensures forall i :: 0 <= i < |r| ==> r[i] >= 1.0
    ensures |r| <= |terms|
  {
    if terms == [] then []
    else
      var last := terms[|terms| - 1];
      Credited(terms[..|terms| - 1]) + (if last >= 1.0 then [last] else [])
  }

  /** `filter(int => int >= 1)` distributes over concatenation, keeping order. */
  lemma {:induction false} CreditedConcat(a: seq<real>, b: seq<real>)
    ensures Credited(a + b) == Credited(a) + Credited(b)
    decreases |b|
  {
    if b == [] {
      assert a + b == a;
    } else {
      var init, last := b[..|b| - 1], b[|b| - 1];
      assert (a + b)[..|a + b| - 1] == a + init;
      assert (a + b)[|a + b| - 1] == last;
      CreditedConcat(a, init);
    }
  }

  /** A term is credited exactly when it is one of the terms and at least 1. */
  lemma {:induction false} CreditedKeepsAll(terms: seq<real>)
    ensures forall t :: t in Credited(terms) <==> t in terms && t >= 1.0
  {
    if terms != [] {
      var init, last := terms[..|terms| - 1], terms[|terms| - 1];
      CreditedKeepsAll(init);
      assert terms == init + [last];
      forall t
        ensures t in terms <==> t in init || t == last
      {
        if t in terms {
          var i :| 0 <= i < |terms| && terms[i] == t;
          if i < |terms| - 1 {
            assert init[i] == t;
          }
        }
      }
    }
  }

  function Interest(movements: seq<int>, interestRate: real): real
  {
    SumReal(Credited(InterestTerms(Deposits(movements), interestRate)))
  }

  lemma {:induction false} SumRealAtLeastCount(xs: seq<real>)
    requires forall i :: 0 <= i < |xs| ==> xs[i] >= 1.0
    ensures SumReal(xs) >= |xs| as real
  {
    if xs != [] {
      SumRealAtLeastCount(xs[..|xs| - 1]);
    }
  }

  /** The interest is never negative, whatever the rate: every credited term is at least 1,
      so the interest is at least the number of credited deposits. */
  lemma {:induction false} InterestAtLeastCredited(movements: seq<int>, interestRate: real)
    ensures Interest(movements, interestRate)
              >= |Credited(InterestTerms(Deposits(movements), interestRate))| as real >= 0.0
  {
    SumRealAtLeastCount(Credited(InterestTerms(Deposits(movements), interestRate)));
  }

  lemma {:induction false} CreditedAtMost(terms: seq<real>)
    requires forall i :: 0 <= i < |terms| ==> terms[i] >= 0.0
    ensures SumReal(Credited(terms)) <= SumReal(terms)
  {
    if terms != [] {
      var init, last := terms[..|terms| - 1], terms[|terms| - 1];
      CreditedAtMost(init);
      assert SumReal(terms) == SumReal(init) + last;
      if last >= 1.0 {
        assert Credited(terms) == Credited(init) + [last];
        SumRealSnoc(Credited(init), last);
      } else {
        assert Credited(terms) == Credited(init);
      }
    }
  }

  lemma {:induction false} InterestTermsSum(deposits: seq<int>, interestRate: real)
    ensures SumReal(InterestTerms(deposits, interestRate)) == InterestOn(Sum(deposits), interestRate)
  {
    if deposits != [] {
      var init, last := deposits[..|deposits| - 1], deposits[|deposits| - 1];
      InterestTermsSum(init, interestRate);
      SumRealSnoc(InterestTerms(init, interestRate), InterestOn(last, interestRate));
      assert (Sum(init) + last) as real * interestRate
               == Sum(init) as real * interestRate + last as real * interestRate;
    }
  }

  lemma {:induction false} InterestOnNonNegative(deposit: int, interestRate: real)
    requires deposit >= 0 && interestRate >= 0.0
    ensures InterestOn(deposit, interestRate) >= 0.0
  {
    assert deposit as real * interestRate >= 0.0;
  }

  /** With a non-negative rate, dropping the small terms can only lower the interest:
      it never exceeds the rate applied to all incomes. */
  lemma {:induction false} InterestAtMostRateOfIncomes(movements: seq<int>, interestRate: real)
    requires interestRate >= 0.0
    ensures Interest(movements, interestRate) <= InterestOn(Incomes(movements), interestRate)
  {
    var deposits := Deposits(movements);
    var terms := InterestTerms(deposits, interestRate);
    forall i | 0 <= i < |terms| ensures terms[i] >= 0.0 {
      InterestOnNonNegative(deposits[i], interestRate);
    }
    CreditedAtMost(terms);
    InterestTermsSum(deposits, interestRate);
  }

  /** A deposit whose interest would be below 1 contributes nothing: the small-term
      case of InterestAfterAppend. */
  lemma {:induction false} SmallDepositEarnsNothing(movements: seq<int>, deposit: int, interestRate: real)
    requires deposit > 0 && InterestOn(deposit, interestRate) < 1.0
    ensures Interest(movements + [deposit], interestRate) == Interest(movements, interestRate)
  {
    InterestAfterAppend(movements, deposit, interestRate);
  }

  /** Pushing a movement adds its interest term when it is a deposit whose term is
      at least 1, and adds nothing otherwise. */
  lemma {:induction false} InterestAfterAppend(movements: seq<int>, mov: int, interestRate: real)
    ensures Interest(movements + [mov], interestRate)
              == Interest(movements, interestRate)
                 + (if mov > 0 && InterestOn(mov, interestRate) >= 1.0 then InterestOn(mov, interestRate) else 0.0)
  {
    var ds := Deposits(movements);
    var before := InterestTerms(ds, interestRate);
    FiltersConcat(movements, [mov]);
    if mov > 0 {
      assert Deposits([mov]) == [mov] by {
        assert [mov][..0] == [];
      }
      var t := InterestOn(mov, interestRate);
      InterestTermsSnoc(ds, mov, interestRate);
      CreditedConcat(before, [t]);
      assert Credited([t]) == (if t >= 1.0 then [t] else []) by {
        assert [t][..0] == [];
      }
      if t >= 1.0 {
        SumRealSnoc(Credited(before), t);
      } else {
        assert Credited(before) + [] == Credited(before);
      }
    } else {
      assert Deposits([mov]) == [] by {
        assert [mov][..0] == [];
      }
      assert ds + [] == ds;
    }
  }

  /** InterestAfterAppend, read along a list of movements: taking one more
      movement of the list adds that movement's credited interest. */
  lemma {:induction false} InterestOfPrefix(movements: seq<int>, k: int, interestRate: real)
    requires 0 <= k < |movements|
    ensures var mov := movements[k];
      Interest(movements[..k + 1], interestRate)
        == Interest(movements[..k], interestRate)
           + (if mov > 0 && InterestOn(mov, interestRate) >= 1.0 then InterestOn(mov, interestRate) else 0.0)
  {
    assert movements[..k + 1] == movements[..k] + [movements[k]];
    InterestAfterAppend(movements[..k], movements[k], interestRate);
  }

  /** The first seeded account at rate 1.2: the deposits 200, 450, 3000, 70 and 1300
      earn 2.4, 5.4, 36, 0.84 and 15.6; the 0.84 is dropped, leaving 59.4. */
  lemma {:induction false} SeedInterest(ms: seq<int>)
    requires ms == [200, 450, -400, 3000, -650, -130, 70, 1300]
    ensures Interest(ms, 1.2) == 59.4
  {
    assert ms[..0] == [];
    InterestOfPrefix(ms, 0, 1.2);
    InterestOfPrefix(ms, 1, 1.2);
    InterestOfPrefix(ms, 2, 1.2);
    InterestOfPrefix(ms, 3, 1.2);
    InterestOfPrefix(ms, 4, 1.2);
    InterestOfPrefix(ms, 5, 1.2);
    InterestOfPrefix(ms, 6, 1.2);
    InterestOfPrefix(ms, 7, 1.2);
    assert ms[..|ms|] == ms;
  }

  // ---------------------------------------------------------------------------
  // The sorted view (displayMovements): `movements.slice().sort((a, b) => a - b)`
  // ---------------------------------------------------------------------------

  predicate Ascending(s: seq<int>)
  {
    forall i, j :: 0 <= i < j < |s| ==> s[i] <= s[j]
  }

  /** Inserts x into an ascending sequence, before the first element not below it. */
  function Insert(s: seq<int>, x: int): (r: seq<int>)
    ensures |r| == |s| + 1
  {
    if s == [] then [x]
    else if x <= s[0] then [x] + s
    else [s[0]] + Insert(s[1..], x)
  }

  lemma {:induction false} InsertPermutes(s: seq<int>, x: int)
    ensures multiset(Insert(s, x)) == multiset(s) + multiset{x}
  {
    if s != [] && x > s[0] {
      InsertPermutes(s[1..], x);
      assert s == [s[0]] + s[1..];
    }
  }

  lemma {:induction false} InsertKeepsOrder(s: seq<int>, x: int)
    requires Ascending(s)
    ensures Ascending(Insert(s, x))
  {
    if s != [] && x > s[0] {
      var rest := Insert(s[1..], x);
      InsertKeepsOrder(s[1..], x);
      InsertPermutes(s[1..], x);
      forall k | 0 <= k < |rest|
        ensures s[0] <= rest[k]
      {
        assert rest[k] in multiset(s[1..]) + multiset{x};
      }
    }
  }

  /** The ascending copy of the movements; the argument itself is a value and is never changed. */
  function SortedCopy(movements: seq<int>): (r: seq<int>)
    ensures Ascending(r)
    ensures multiset(r) == multiset(movements)
  {
    if movements == [] then []
    else
      var init := movements[..|movements| - 1];
      assert movements == init + [movements[|movements| - 1]];
      InsertKeepsOrder(SortedCopy(init), movements[|movements| - 1]);
      InsertPermutes(SortedCopy(init), movements[|movements| - 1]);
      Insert(SortedCopy(init), movements[|movements| - 1])
  }

  /** The head of an ascending sequence is at most each of its elements. */
  lemma {:induction false} HeadIsLeast(s: seq<int>, x: int)
    requires Ascending(s) && x in multiset(s)
    ensures s[0] <= x
  {
    assert x in s;
    var k :| 0 <= k < |s| && s[k] == x;
  }

  lemma {:induction false} AscendingTail(s: seq<int>)
    requires Ascending(s) && s != []
    ensures Ascending(s[1..])
  {
    forall i, j | 0 <= i < j < |s| - 1
      ensures s[1..][i] <= s[1..][j]
    {
      assert s[1..][i] == s[i + 1] && s[1..][j] == s[j + 1];
    }
  }

  /** An ascending permutation is unique: any correct numeric sort, whatever its algorithm,
      yields exactly SortedCopy. */
  lemma {:induction false} AscendingPermutationUnique(a: seq<int>, b: seq<int>)
    requires Ascending(a) && Ascending(b) && multiset(a) == multiset(b)
    ensures a == b
    decreases |a|
  {
    if a == [] {
      assert |b| == |multiset(b)| == 0;
    } else {
      assert |b| == |multiset(b)| == |a|;
      HeadIsLeast(a, b[0]);
      HeadIsLeast(b, a[0]);
      assert a[0] == b[0];
      assert a == [a[0]] + a[1..] && b == [b[0]] + b[1..];
      assert multiset(a[1..]) == multiset(a) - multiset{a[0]};
      assert multiset(b[1..]) == multiset(b) - multiset{b[0]};
      assert multiset(a[1..]) == multiset(b[1..]);
      AscendingTail(a);
      AscendingTail(b);
      AscendingPermutationUnique(a[1..], b[1..]);
    }
  }

  lemma {:induction false} SortedCopyIsTheSort(movements: seq<int>, sorted: seq<int>)
    requires Ascending(sorted) && multiset(sorted) == multiset(movements)
    ensures SortedCopy(movements) == sorted
  {
    AscendingPermutationUnique(SortedCopy(movements), sorted);
  }

  /** What `displayMovements(movements, sort)` lists. */
  function Displayed(movements: seq<int>, sort: bool): (r: seq<int>)
    ensures multiset(r) == multiset(movements)
    ensures sort ==> Ascending(r)
    ensures !sort ==> r == movements
  {
    if sort then SortedCopy(movements) else movements
  }

  /** The sorted view shows the same balance as the stored movements. */
  lemma {:induction false} SortedViewKeepsBalance(movements: seq<int>)
    ensures Balance(SortedCopy(movements)) == Balance(movements)
  {
    SumPermutation(SortedCopy(movements), movements);
  }

  datatype Kind = Deposit | Withdrawal

  /** The label of one row: `mov > 0 ? 'deposit' : 'withdrawal'`. */
  function KindOf(mov: int): (k: Kind)
    ensures k == Deposit <==> mov > 0
  {
    if mov > 0 then Deposit else Withdrawal
  }

  /** In the sorted view every withdrawal row comes before every deposit row. */
  lemma {:induction false} SortedViewGroupsKinds(movements: seq<int>, i: int, j: int)
    requires 0 <= i < j < |SortedCopy(movements)|
    requires KindOf(SortedCopy(movements)[i]) == Deposit
    ensures KindOf(SortedCopy(movements)[j]) == Deposit
  {
  }

  // ---------------------------------------------------------------------------
  // The total held by a ledger of accounts
  // ---------------------------------------------------------------------------

  function Total(ledger: seq<seq<int>>): int
  {
    if ledger == [] then 0 else Total(ledger[..|ledger| - 1]) + Balance(ledger[|ledger| - 1])
  }

  /** Crediting one account of a ledger with an amount moves the total by that amount. */
  lemma {:induction false} TotalAfterAppend(ledger: seq<seq<int>>, k: int, amount: int)
    requires 0 <= k < |ledger|
    ensures Total(ledger[k := ledger[k] + [amount]]) == Total(ledger) + amount
  {
    var n := |ledger|;
    var updated := ledger[k := ledger[k] + [amount]];
    if k == n - 1 {
      assert updated[..n - 1] == ledger[..n - 1];
      BalanceAfterAppend(ledger[k], amount);
    } else {
      assert updated[..n - 1] == ledger[..n - 1][k := ledger[k] + [amount]];
      TotalAfterAppend(ledger[..n - 1], k, amount);
    }
  }
}
