/**
 * The currency catalogue: the built-in default list, lookup by code, and
 * the merge of a fetched USD-based rate table into a list of currencies.
 */
module CurrencyCatalogue {
  import opened Wrappers
  import opened Types

  /** The built-in catalogue; every rate stays at 1.0 until refreshed. */
  function BasicCurrencies(): (cs: seq<Currency>)
    ensures |cs| == 8
    ensures cs[0].code == "USD"
    ensures forall i, j :: 0 <= i < j < |cs| ==> cs[i].code != cs[j].code
    ensures forall i :: 0 <= i < |cs| ==> cs[i].exchangeRate == 1.0
    ensures forall i :: 0 <= i < |cs| ==> cs[i].symbol != ""
  {
    [ Currency("USD", "US Dollar", "$", 1.0),
      Currency("ILS", "Israeli Shekel", "\U{20AA}", 1.0),
      Currency("EUR", "Euro", "\U{20AC}", 1.0),
      Currency("GBP", "British Pound", "\U{00A3}", 1.0),
      Currency("CHF", "Swiss Franc", "CHF", 1.0),
      Currency("HUF", "Hungarian Forint", "Ft", 1.0),
      Currency("CZK", "Czech Koruna", "K\U{010D}", 1.0),
      Currency("DKK", "Danish Krone", "kr", 1.0) ]
  }

  /** `Array.prototype.find` by code: the first entry carrying `code`. */
  function FindCurrency(cs: seq<Currency>, code: string): (r: Option<Currency>)
    ensures r.None? <==> forall i :: 0 <= i < |cs| ==> cs[i].code != code
    ensures r.Some? ==> exists i :: 0 <= i < |cs| && cs[i] == r.value
                          && (forall j :: 0 <= j < i ==> cs[j].code != code)
    ensures r.Some? ==> r.value.code == code && r.value in cs
  {
    if |cs| == 0 then None
    else if cs[0].code == code then Some(cs[0])
    else FindCurrency(cs[1..], code)
  }

  /** The JavaScript truthiness test `rates[code]` on a numeric table. */
  predicate HasRate(rates: map<string, real>, code: string) {
    code in rates && rates[code] != 0.0
  }

  /** One step of the merge: take the fetched rate when the table has a truthy one. */
  function MergeOne(c: Currency, rates: map<string, real>): Currency {
    if HasRate(rates, c.code) then c.(exchangeRate := rates[c.code]) else c
  }

  /** The `map` inside `updateExchangeRates`, applied to a successfully fetched table. */
  function MergeRates(cs: seq<Currency>, rates: map<string, real>): (r: seq<Currency>)
    ensures |r| == |cs|
    ensures forall i :: 0 <= i < |cs| ==>
              r[i].code == cs[i].code && r[i].name == cs[i].name && r[i].symbol == cs[i].symbol
    ensures forall i :: 0 <= i < |cs| ==>
              r[i].exchangeRate == (if HasRate(rates, cs[i].code) then rates[cs[i].code] else cs[i].exchangeRate)
  {
    if |cs| == 0 then [] else [MergeOne(cs[0], rates)] + MergeRates(cs[1..], rates)
  }

  /**
   * What the rate request produced: a `rates` table, or a failure (network
   * error, unparsable body, or a body without `rates`, whose lookup throws
   * and is caught).
   */
  datatype RateFetch = RatesReceived(rates: map<string, real>) | FetchFailed

  /** `updateExchangeRates`: merge on success, hand back the input on failure. */
  function UpdateExchangeRates(cs: seq<Currency>, fetch: RateFetch): (r: seq<Currency>)
    ensures fetch.FetchFailed? ==> r == cs
    ensures |r| == |cs|
    ensures forall i :: 0 <= i < |cs| ==>
              r[i].code == cs[i].code && r[i].name == cs[i].name && r[i].symbol == cs[i].symbol
    ensures fetch.RatesReceived? ==>
              forall i :: 0 <= i < |cs| ==>
                r[i].exchangeRate
                  == (if HasRate(fetch.rates, cs[i].code) then fetch.rates[cs[i].code] else cs[i].exchangeRate)
  {
    match fetch
    case FetchFailed => cs
    case RatesReceived(rates) => MergeRates(cs, rates)
  }

  /**
   * The catalogue as it stands after `setupData`. `setupData` computes
   * `UpdateExchangeRates(BasicCurrencies(), fetch)` and drops the result;
   * the built-in list is never mutated, so every rate stays at 1.0 whatever
   * the fetch returned.
   */
  function SetupData(fetch: RateFetch): (catalogue: seq<Currency>)
    ensures |catalogue| == 8
    ensures forall i :: 0 <= i < |catalogue| ==> catalogue[i].exchangeRate == 1.0
  {
    BasicCurrencies()
  }

  /** Merging the same table twice is the same as merging it once. */
  lemma {:induction false} MergeRatesIdempotent(cs: seq<Currency>, rates: map<string, real>)
    ensures MergeRates(MergeRates(cs, rates), rates) == MergeRates(cs, rates)
  {
    var once := MergeRates(cs, rates);
    var twice := MergeRates(once, rates);
    forall i | 0 <= i < |cs|
      ensures twice[i] == once[i]
    {
      assert once[i].code == cs[i].code;
    }
  }

  /** An empty table changes nothing, and neither does a failed fetch. */
  lemma MergeWithoutRatesIsIdentity(cs: seq<Currency>)
    ensures MergeRates(cs, map[]) == cs
    ensures UpdateExchangeRates(cs, RatesReceived(map[])) == cs
    ensures UpdateExchangeRates(cs, FetchFailed) == cs
  {
    assert forall i :: 0 <= i < |cs| ==> MergeRates(cs, map[])[i] == cs[i];
  }

  /**
   * The merge `setupData` throws away is not what it leaves behind: a
   * fetched non-zero rate other than 1.0 for a built-in code appears in the
   * merged list but not in the catalogue after setup.
   */
  lemma SetupDataDropsFetchedRate(rates: map<string, real>, i: nat)
    requires i < |BasicCurrencies()|
    requires HasRate(rates, BasicCurrencies()[i].code) && rates[BasicCurrencies()[i].code] != 1.0
    ensures UpdateExchangeRates(BasicCurrencies(), RatesReceived(rates))[i].exchangeRate
              == rates[BasicCurrencies()[i].code]
    ensures SetupData(RatesReceived(rates))[i].exchangeRate == 1.0
    ensures UpdateExchangeRates(BasicCurrencies(), RatesReceived(rates))[i].exchangeRate
              != SetupData(RatesReceived(rates))[i].exchangeRate
  {
    var merged := UpdateExchangeRates(BasicCurrencies(), RatesReceived(rates));
    assert merged[i].exchangeRate == rates[BasicCurrencies()[i].code];
  }
}
