/**
 * The expense ledger: prepending an expense, the converted total over a
 * catalogue, and the "recent expenses" projection. Every operation takes
 * the expense list explicitly.
 */
module ExpenseLedger {
  import opened Wrappers
  import opened Types
  import opened CurrencyCatalogue

  /** `addExpense`: the new expense goes in front (`unshift`). */
  function AddExpense(expenses: seq<Expense>, e: Expense): (r: seq<Expense>)
    ensures |r| == |expenses| + 1
    ensures r[0] == e && r[1..] == expenses
    ensures multiset(r) == multiset(expenses) + multiset{e}
  {
    [e] + expenses
  }

  // calcTotal, as written: a left fold that can throw.

  /** Why `calcTotal` throws: the base code, or an expense's code, is not catalogued. */
  datatype TotalError = BaseCurrencyNotFound | ExpenseCurrencyNotFound(code: string)

  /** One step of the `reduce` callback. */
  function Step(catalogue: seq<Currency>, base: Currency, acc: real, e: Expense): Result<real, TotalError> {
    if e.currency == base.code then Success(acc + e.amount)
    else if e.currency == "USD" then Success(acc + e.amount * base.exchangeRate)
    else
      match FindCurrency(catalogue, e.currency)
      case None => Failure(ExpenseCurrencyNotFound(e.currency))
      case Some(ec) => Success(acc + e.amount * (base.exchangeRate * ec.exchangeRate))
  }

  // The reference meaning of the total: a sum of converted amounts.

  /** The expense's currency can be converted: it is the base, USD, or catalogued. */
  predicate Resolves(catalogue: seq<Currency>, base: Currency, e: Expense) {
    e.currency == base.code || e.currency == "USD" || FindCurrency(catalogue, e.currency).Some?
  }

  predicate AllResolve(catalogue: seq<Currency>, base: Currency, es: seq<Expense>) {
    forall e :: e in es ==> Resolves(catalogue, base, e)
  }

  /**
   * The amount in base-currency units: unchanged in the base currency,
   * times the base rate for USD, times the product of both rates otherwise
   * (the rates are multiplied, not divided). An expense
   * that does not resolve is given 0.0; no total ever uses that value,
   * since the fold fails on it first.
   */
  function Converted(catalogue: seq<Currency>, base: Currency, e: Expense): real {
    if e.currency == base.code then e.amount
    else if e.currency == "USD" then e.amount * base.exchangeRate
    else
      match FindCurrency(catalogue, e.currency)
      case Some(ec) => e.amount * (base.exchangeRate * ec.exchangeRate)
      case None => 0.0
  }

  function ConvertedSum(catalogue: seq<Currency>, base: Currency, es: seq<Expense>): real {
    if |es| == 0 then 0.0 else Converted(catalogue, base, es[0]) + ConvertedSum(catalogue, base, es[1..])
  }

  /** The plain sum of the amounts, no conversion at all. */
  function AmountSum(es: seq<Expense>): real {
    if |es| == 0 then 0.0 else es[0].amount + AmountSum(es[1..])
  }

  /**
   * The fold from accumulator `acc`: it succeeds exactly when every expense
   * resolves, and then yields `acc` plus the converted sum.
   */
  function Reduce(catalogue: seq<Currency>, base: Currency, es: seq<Expense>, acc: real): (r: Result<real, TotalError>)
    ensures r.Success? <==> AllResolve(catalogue, base, es)
    ensures r.Success? ==> r.value == acc + ConvertedSum(catalogue, base, es)
    decreases |es|
  {
    if |es| == 0 then Success(acc)
    else
      match Step(catalogue, base, acc, es[0])
      case Failure(err) =>
        assert es[0] in es && !Resolves(catalogue, base, es[0]);
        Failure(err)
      case Success(next) =>
        assert forall e :: e in es ==> e == es[0] || e in es[1..];
        Reduce(catalogue, base, es[1..], next)
  }

  /** A failing fold names the currency of the first expense that does not resolve. */
  lemma {:induction false} ReduceFailureNamesFirstUnresolved(catalogue: seq<Currency>, base: Currency, es: seq<Expense>, acc: real)
    requires Reduce(catalogue, base, es, acc).Failure?
    ensures exists i :: 0 <= i < |es| && !Resolves(catalogue, base, es[i])
              && Reduce(catalogue, base, es, acc).error == ExpenseCurrencyNotFound(es[i].currency)
              && (forall j :: 0 <= j < i ==> Resolves(catalogue, base, es[j]))
    decreases |es|
  {
    var step := Step(catalogue, base, acc, es[0]);
    if step.Failure? {
      assert !Resolves(catalogue, base, es[0]);
      assert Reduce(catalogue, base, es, acc).error == ExpenseCurrencyNotFound(es[0].currency);
    } else {
      var tail := es[1..];
      ReduceFailureNamesFirstUnresolved(catalogue, base, tail, step.value);
      var i :| 0 <= i < |tail| && !Resolves(catalogue, base, tail[i])
               && Reduce(catalogue, base, tail, step.value).error == ExpenseCurrencyNotFound(tail[i].currency)
               && (forall j :: 0 <= j < i ==> Resolves(catalogue, base, tail[j]));
      assert es[i + 1] == tail[i];
      assert forall j :: 1 <= j < i + 1 ==> es[j] == tail[j - 1];
    }
  }

  /** `calcTotal(baseCurrencyCode)` over an explicit expense list and catalogue. */
  function CalcTotal(catalogue: seq<Currency>, baseCode: string, es: seq<Expense>): (r: Result<real, TotalError>)
    ensures FindCurrency(catalogue, baseCode).None? ==> r == Failure(BaseCurrencyNotFound)
    ensures FindCurrency(catalogue, baseCode).Some? ==>
              var base := FindCurrency(catalogue, baseCode).value;
              && (r.Success? <==> AllResolve(catalogue, base, es))
              && (r.Success? ==> r.value == ConvertedSum(catalogue, base, es))
  {
    match FindCurrency(catalogue, baseCode)
    case None => Failure(BaseCurrencyNotFound)
    case Some(base) => Reduce(catalogue, base, es, 0.0)
  }

  // Properties of the total.

  lemma {:induction false} ConvertedSumConcat(catalogue: seq<Currency>, base: Currency, a: seq<Expense>, b: seq<Expense>)
    ensures ConvertedSum(catalogue, base, a + b) == ConvertedSum(catalogue, base, a) + ConvertedSum(catalogue, base, b)
    decreases |a|
  {
    if |a| == 0 {
      assert a + b == b;
    } else {
      assert (a + b)[0] == a[0];
      assert (a + b)[1..] == a[1..] + b;
      ConvertedSumConcat(catalogue, base, a[1..], b);
    }
  }

  /** Taking out the element at `k` takes one copy of it out of the multiset. */
  lemma MultisetWithoutIndex<T>(b: seq<T>, k: nat)
    requires k < |b|
    ensures multiset(b[..k] + b[k + 1..]) == multiset(b) - multiset{b[k]}
  {
    assert b == b[..k] + [b[k]] + b[k + 1..];
  }

  /** Whether every expense resolves depends only on the multiset of expenses. */
  lemma AllResolvePermutation(catalogue: seq<Currency>, base: Currency, a: seq<Expense>, b: seq<Expense>)
    requires multiset(a) == multiset(b)
    ensures AllResolve(catalogue, base, a) <==> AllResolve(catalogue, base, b)
  {
    assert forall e :: e in a <==> e in multiset(a);
    assert forall e :: e in b <==> e in multiset(b);
  }

  /**
   * For equal multisets, an index of `b` holding `a[0]`; what is left of
   * `b` without it has the multiset of `a[1..]`.
   */
  lemma MatchingIndex<T>(a: seq<T>, b: seq<T>) returns (k: nat)
    requires |a| > 0 && multiset(a) == multiset(b)
    ensures k < |b| && b[k] == a[0]
    ensures multiset(a[1..]) == multiset(b[..k] + b[k + 1..])
  {
    assert a[0] in multiset(b);
    k :| 0 <= k < |b| && b[k] == a[0];
    MultisetWithoutIndex(b, k);
    assert a == [a[0]] + a[1..];
    assert multiset(a[1..]) == multiset(a) - multiset{a[0]};
  }

  /** The sum splits into the element at `k` and the sum of the rest. */
  lemma ConvertedSumWithoutIndex(catalogue: seq<Currency>, base: Currency, b: seq<Expense>, k: nat)
    requires k < |b|
    ensures ConvertedSum(catalogue, base, b)
              == Converted(catalogue, base, b[k]) + ConvertedSum(catalogue, base, b[..k] + b[k + 1..])
  {
    var front, back := b[..k], b[k + 1..];
    assert b == front + ([b[k]] + back);
    ConvertedSumConcat(catalogue, base, front, back);
    ConvertedSumConcat(catalogue, base, front, [b[k]] + back);
    assert ([b[k]] + back)[1..] == back;
  }

  /** The converted sum depends only on the multiset of expenses. */
  lemma {:induction false} ConvertedSumPermutation(catalogue: seq<Currency>, base: Currency, a: seq<Expense>, b: seq<Expense>)
    requires multiset(a) == multiset(b)
    ensures ConvertedSum(catalogue, base, a) == ConvertedSum(catalogue, base, b)
    decreases |a|
  {
    if |a| == 0 {
      assert |b| == |multiset(b)| == 0;
    } else {
      var k := MatchingIndex(a, b);
      var rest := b[..k] + b[k + 1..];
      ConvertedSumPermutation(catalogue, base, a[1..], rest);
      ConvertedSumWithoutIndex(catalogue, base, b, k);
    }
  }

  /** Whether the total fails, and its value when it does not, ignore the order of the expenses. */
  lemma CalcTotalPermutationInvariant(catalogue: seq<Currency>, baseCode: string, a: seq<Expense>, b: seq<Expense>)
    requires multiset(a) == multiset(b)
    ensures CalcTotal(catalogue, baseCode, a).Success? <==> CalcTotal(catalogue, baseCode, b).Success?
    ensures CalcTotal(catalogue, baseCode, a).Success? ==>
              CalcTotal(catalogue, baseCode, a).value == CalcTotal(catalogue, baseCode, b).value
  {
    if FindCurrency(catalogue, baseCode).Some? {
      var base := FindCurrency(catalogue, baseCode).value;
      AllResolvePermutation(catalogue, base, a, b);
      ConvertedSumPermutation(catalogue, base, a, b);
    }
  }

  // The conversion rule, one expense at a time.

  /** The total of one expense is one step of the callback from zero. */
  lemma CalcTotalOfOne(catalogue: seq<Currency>, baseCode: string, e: Expense)
    requires FindCurrency(catalogue, baseCode).Some?
    ensures CalcTotal(catalogue, baseCode, [e]) == Step(catalogue, FindCurrency(catalogue, baseCode).value, 0.0, e)
  {
    assert [e][0] == e && [e][1..] == [];
  }

  /** An expense in the base currency contributes its amount unchanged. */
  lemma OneExpenseInBaseCurrency(catalogue: seq<Currency>, baseCode: string, e: Expense)
    requires FindCurrency(catalogue, baseCode).Some?
    requires e.currency == baseCode
    ensures CalcTotal(catalogue, baseCode, [e]).Success?
    ensures CalcTotal(catalogue, baseCode, [e]).value == e.amount
  {
    CalcTotalOfOne(catalogue, baseCode, e);
  }

  /** A USD expense outside the base currency contributes its amount times the base rate. */
  lemma OneUsdExpense(catalogue: seq<Currency>, baseCode: string, e: Expense, base: Currency)
    requires FindCurrency(catalogue, baseCode) == Some(base)
    requires e.currency != baseCode && e.currency == "USD"
    ensures CalcTotal(catalogue, baseCode, [e]).Success?
    ensures CalcTotal(catalogue, baseCode, [e]).value == e.amount * base.exchangeRate
  {
    CalcTotalOfOne(catalogue, baseCode, e);
  }

  /**
   * Any other catalogued currency contributes its amount times the product
   * of the base rate and its own rate.
   */
  lemma OneExpenseInOtherCurrency(catalogue: seq<Currency>, baseCode: string, e: Expense, base: Currency, ec: Currency)
    requires FindCurrency(catalogue, baseCode) == Some(base)
    requires e.currency != baseCode && e.currency != "USD" && FindCurrency(catalogue, e.currency) == Some(ec)
    ensures CalcTotal(catalogue, baseCode, [e]).Success?
    ensures CalcTotal(catalogue, baseCode, [e]).value == e.amount * (base.exchangeRate * ec.exchangeRate)
  {
    CalcTotalOfOne(catalogue, baseCode, e);
    StepInOtherCurrency(catalogue, base, 0.0, e, ec);
  }

  /** The callback step for a catalogued currency other than the base and USD. */
  lemma StepInOtherCurrency(catalogue: seq<Currency>, base: Currency, acc: real, e: Expense, ec: Currency)
    requires e.currency != base.code && e.currency != "USD" && FindCurrency(catalogue, e.currency) == Some(ec)
    ensures Step(catalogue, base, acc, e).Success?
    ensures Step(catalogue, base, acc, e).value == acc + e.amount * (base.exchangeRate * ec.exchangeRate)
  {
  }

  /** An uncatalogued currency other than the base and USD fails, naming the code. */
  lemma OneUncataloguedExpense(catalogue: seq<Currency>, baseCode: string, e: Expense)
    requires FindCurrency(catalogue, baseCode).Some?
    requires e.currency != baseCode && e.currency != "USD" && FindCurrency(catalogue, e.currency).None?
    ensures CalcTotal(catalogue, baseCode, [e]).Failure?
    ensures CalcTotal(catalogue, baseCode, [e]).error == ExpenseCurrencyNotFound(e.currency)
  {
    CalcTotalOfOne(catalogue, baseCode, e);
  }

  /** An expense whose currency is neither the base nor USD nor catalogued makes the total fail. */
  lemma CalcTotalFailsOnUncataloguedExpense(catalogue: seq<Currency>, baseCode: string, es: seq<Expense>, i: nat)
    requires i < |es|
    requires es[i].currency != baseCode && es[i].currency != "USD"
    requires FindCurrency(catalogue, es[i].currency).None?
    ensures CalcTotal(catalogue, baseCode, es).Failure?
  {
    assert es[i] in es;
  }

  lemma {:induction false} ConvertedSumInBaseIsAmountSum(catalogue: seq<Currency>, base: Currency, es: seq<Expense>)
    requires forall e :: e in es ==> e.currency == base.code
    ensures AllResolve(catalogue, base, es)
    ensures ConvertedSum(catalogue, base, es) == AmountSum(es)
    decreases |es|
  {
    if |es| > 0 {
      assert forall e :: e in es[1..] ==> e in es;
      ConvertedSumInBaseIsAmountSum(catalogue, base, es[1..]);
    }
  }

  /** When every expense is in the base currency the total is the plain sum of amounts. */
  lemma CalcTotalInBaseCurrency(catalogue: seq<Currency>, baseCode: string, es: seq<Expense>)
    requires FindCurrency(catalogue, baseCode).Some?
    requires forall e :: e in es ==> e.currency == baseCode
    ensures CalcTotal(catalogue, baseCode, es) == Success(AmountSum(es))
  {
    ConvertedSumInBaseIsAmountSum(catalogue, FindCurrency(catalogue, baseCode).value, es);
  }

  lemma {:induction false} ConvertedSumAtUnitRates(catalogue: seq<Currency>, base: Currency, es: seq<Expense>)
    requires base.exchangeRate == 1.0
    requires forall c :: c in catalogue ==> c.exchangeRate == 1.0
    requires AllResolve(catalogue, base, es)
    ensures ConvertedSum(catalogue, base, es) == AmountSum(es)
    decreases |es|
  {
    if |es| > 0 {
      assert es[0] in es;
      assert forall e :: e in es[1..] ==> e in es;
      ConvertedSumAtUnitRates(catalogue, base, es[1..]);
    }
  }

  /**
   * Over a catalogue that lists USD and holds only unit rates, the total
   * succeeds exactly when every expense code is catalogued, and then equals
   * the plain sum of amounts.
   */
  lemma CalcTotalAtUnitRates(catalogue: seq<Currency>, baseCode: string, es: seq<Expense>)
    requires FindCurrency(catalogue, baseCode).Some? && FindCurrency(catalogue, "USD").Some?
    requires forall c :: c in catalogue ==> c.exchangeRate == 1.0
    ensures CalcTotal(catalogue, baseCode, es).Success? <==>
              forall e :: e in es ==> FindCurrency(catalogue, e.currency).Some?
    ensures CalcTotal(catalogue, baseCode, es).Success? ==>
              CalcTotal(catalogue, baseCode, es).value == AmountSum(es)
  {
    var base := FindCurrency(catalogue, baseCode).value;
    assert base.code == baseCode && base in catalogue;
    forall e | e in es
      ensures Resolves(catalogue, base, e) <==> FindCurrency(catalogue, e.currency).Some?
    {
    }
    if AllResolve(catalogue, base, es) {
      ConvertedSumAtUnitRates(catalogue, base, es);
    }
  }

  /**
   * Every conversion factor of the built-in catalogue is 1: the total
   * succeeds exactly when the base code and every expense code are
   * catalogued, and then equals the plain sum of amounts.
   */
  lemma CalcTotalOverBasicCurrencies(baseCode: string, es: seq<Expense>)
    ensures CalcTotal(BasicCurrencies(), baseCode, es).Success? <==>
              && FindCurrency(BasicCurrencies(), baseCode).Some?
              && forall e :: e in es ==> FindCurrency(BasicCurrencies(), e.currency).Some?
    ensures CalcTotal(BasicCurrencies(), baseCode, es).Success? ==>
              CalcTotal(BasicCurrencies(), baseCode, es).value == AmountSum(es)
  {
    var cat := BasicCurrencies();
    if FindCurrency(cat, baseCode).Some? {
      assert FindCurrency(cat, "USD").Some? by { assert cat[0].code == "USD"; }
      assert forall c :: c in cat ==> c.exchangeRate == 1.0;
      CalcTotalAtUnitRates(cat, baseCode, es);
    }
  }

  /** Because `setupData` drops the merged rates, totals never see a fetched rate. */
  lemma TotalsAfterSetupIgnoreFetchedRates(fetch: RateFetch, baseCode: string, es: seq<Expense>)
    ensures CalcTotal(SetupData(fetch), baseCode, es) == CalcTotal(BasicCurrencies(), baseCode, es)
    ensures CalcTotal(SetupData(fetch), baseCode, es).Success? ==>
              CalcTotal(SetupData(fetch), baseCode, es).value == AmountSum(es)
  {
    CalcTotalOverBasicCurrencies(baseCode, es);
  }

  /**
   * For any explicit list, prepending a resolvable expense keeps success and
   * adds its converted amount to a successful total.
   */
  lemma CalcTotalAfterAddExpense(catalogue: seq<Currency>, baseCode: string, es: seq<Expense>, e: Expense)
    requires FindCurrency(catalogue, baseCode).Some?
    requires Resolves(catalogue, FindCurrency(catalogue, baseCode).value, e)
    ensures CalcTotal(catalogue, baseCode, AddExpense(es, e)).Success? <==> CalcTotal(catalogue, baseCode, es).Success?
    ensures CalcTotal(catalogue, baseCode, es).Success? ==>
              CalcTotal(catalogue, baseCode, AddExpense(es, e)).value
                == Converted(catalogue, FindCurrency(catalogue, baseCode).value, e) + CalcTotal(catalogue, baseCode, es).value
  {
    var base := FindCurrency(catalogue, baseCode).value;
    var added := AddExpense(es, e);
    assert forall x :: x in added <==> x == e || x in es;
    assert added[1..] == es;
  }

  // getRecentExpenses: the first ten expenses in display form.

  /** How many expenses the home screen lists. */
  const RecentCount: nat := 10

  /**
   * The display form of an expense (`currency?.symbol || expense.currency`):
   * the code is replaced by the catalogue symbol when the code is found and
   * its symbol is non-empty; every other field is kept.
   */
  function DisplayExpense(catalogue: seq<Currency>, e: Expense): (d: Expense)
    ensures d.(currency := e.currency) == e
    ensures FindCurrency(catalogue, e.currency).Some? && FindCurrency(catalogue, e.currency).value.symbol != "" ==>
              d.currency == FindCurrency(catalogue, e.currency).value.symbol
    ensures FindCurrency(catalogue, e.currency).None? || FindCurrency(catalogue, e.currency).value.symbol == "" ==>
              d == e
  {
    match FindCurrency(catalogue, e.currency)
    case Some(c) => if c.symbol != "" then e.(currency := c.symbol) else e
    case None => e
  }

  /** The `map` that puts every expense in display form, position by position. */
  function DisplayAll(catalogue: seq<Currency>, es: seq<Expense>): (r: seq<Expense>)
    ensures |r| == |es|
    ensures forall i :: 0 <= i < |es| ==> r[i] == DisplayExpense(catalogue, es[i])
  {
    if |es| == 0 then [] else [DisplayExpense(catalogue, es[0])] + DisplayAll(catalogue, es[1..])
  }

  /** `getRecentExpenses`: the first ten expenses, in order, in display form. */
  function GetRecentExpenses(catalogue: seq<Currency>, es: seq<Expense>): (r: seq<Expense>)
    ensures |r| == (if |es| < RecentCount then |es| else RecentCount)
    ensures forall i :: 0 <= i < |r| ==> r[i] == DisplayExpense(catalogue, es[i])
    ensures forall i :: 0 <= i < |r| ==> r[i].id == es[i].id && r[i].amount == es[i].amount
  {
    DisplayAll(catalogue, es[..if |es| < RecentCount then |es| else RecentCount])
  }

  /**
   * For any explicit list, the recent projection of the list with `e`
   * prepended is `e` in display form followed by the first nine entries of
   * the list's own recent projection.
   */
  lemma RecentAfterAddExpense(catalogue: seq<Currency>, es: seq<Expense>, e: Expense)
    ensures GetRecentExpenses(catalogue, AddExpense(es, e))
              == [DisplayExpense(catalogue, e)]
                 + GetRecentExpenses(catalogue, es)[..if |es| < RecentCount - 1 then |es| else RecentCount - 1]
  {
    var before := GetRecentExpenses(catalogue, es);
    var after := GetRecentExpenses(catalogue, AddExpense(es, e));
    var expected := [DisplayExpense(catalogue, e)] + before[..if |es| < RecentCount - 1 then |es| else RecentCount - 1];
    assert |after| == |expected|;
    forall i | 0 <= i < |after| ensures after[i] == expected[i] {
      if i > 0 {
        assert AddExpense(es, e)[i] == es[i - 1];
      }
    }
  }
}
