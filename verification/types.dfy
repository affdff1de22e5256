/**
 * The records the application stores: currencies, expenses and trips.
 * Amounts and exchange rates are exact reals; identifiers and timestamps
 * are opaque strings supplied by the caller.
 */
module Types {
  import opened Wrappers

  /** A catalogue entry; `exchangeRate` is units of this currency per 1 USD. */
  datatype Currency = Currency(code: string, name: string, symbol: string, exchangeRate: real)

  /** The short-list form of a currency: identity and display only. */
  datatype SlimCurrency = SlimCurrency(code: string, symbol: string)

  /** One recorded expense; `currency` holds a currency code. */
  datatype Expense = Expense(
    id: string,
    amount: real,
    currency: string,
    category: string,
    description: Option<string>,
    createdAt: string)

  /**
   * A trip with the fields the trip store actually writes. The base and
   * local currencies are optional because a new trip takes them from the
   * head of a list that may be empty.
   */
  datatype Trip = Trip(
    id: string,
    name: string,
    baseCurrency: Option<SlimCurrency>,
    localCurrency: Option<SlimCurrency>,
    currenciesList: seq<SlimCurrency>,
    expenses: seq<Expense>,
    createdAt: string)
}
