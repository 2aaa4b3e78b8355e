/**
 * The currency utility (client/src/utils/currency.ts): a fixed table of
 * supported currencies with symbols, names and rates against the US dollar,
 * conversion through the dollar, display lookups with fallbacks, and the
 * stored display preference with its one-off migration away from the old
 * defaults.  Amounts and rates are exact reals; the locale number formatter
 * is a parameter.
 */
module Currency {
  import opened Wrappers
  import opened Seqs

  datatype CurrencyInfo = CurrencyInfo(code: string, symbol: string, name: string, exchangeRate: real)

  const SupportedCurrencies: seq<CurrencyInfo> := [
    CurrencyInfo("USD", "$", "US Dollar", 1.0),
    CurrencyInfo("EUR", "\U{20AC}", "Euro", 0.85),
    CurrencyInfo("GBP", "\U{00A3}", "British Pound", 0.73),
    CurrencyInfo("JPY", "\U{00A5}", "Japanese Yen", 110.0),
    CurrencyInfo("CAD", "C$", "Canadian Dollar", 1.25),
    CurrencyInfo("AUD", "A$", "Australian Dollar", 1.35),
    CurrencyInfo("CHF", "CHF", "Swiss Franc", 0.92),
    CurrencyInfo("CNY", "\U{00A5}", "Chinese Yuan", 6.45),
    CurrencyInfo("INR", "\U{20B9}", "Indian Rupee", 74.5),
    CurrencyInfo("SGD", "S$", "Singapore Dollar", 1.35)
  ]

  const DefaultCurrency: string := "AUD"

  /** `table.find(c => c.code === code)`: the first entry with that code. */
  function FindIn(table: seq<CurrencyInfo>, code: string): (r: Option<CurrencyInfo>)
    ensures r.Some? ==> r.value in table && r.value.code == code
    ensures r.None? <==> forall i :: 0 <= i < |table| ==> table[i].code != code
  {
    FindFirst(table, HasCode(code))
  }

  function HasCode(code: string): CurrencyInfo -> bool {
    (c: CurrencyInfo) => c.code == code
  }

  function Find(code: string): Option<CurrencyInfo> {
    FindIn(SupportedCurrencies, code)
  }

  predicate IsSupported(code: string) {
    Find(code).Some?
  }

  /** What the code relies on of a table: positive rates, and non-empty codes, symbols and names. */
  predicate WellFormedTable(table: seq<CurrencyInfo>) {
    forall i :: 0 <= i < |table| ==>
      table[i].exchangeRate > 0.0 && table[i].code != "" && table[i].symbol != "" && table[i].name != ""
  }

  lemma SupportedTableIsWellFormed()
    ensures WellFormedTable(SupportedCurrencies)
  {
  }

  lemma DollarIsFirst()
    ensures Find("USD") == Some(SupportedCurrencies[0])
  {
  }

  lemma DefaultIsSupported()
    ensures IsSupported(DefaultCurrency)
  {
    assert SupportedCurrencies[5].code == DefaultCurrency;
  }

  /** The dollar's own rate is 1. */
  lemma DollarRate()
    ensures Rate("USD") == 1.0
  {
    DollarIsFirst();
    RateFromTable("USD");
  }

  lemma FindSkips(table: seq<CurrencyInfo>, code: string)
    requires table != [] && table[0].code != code
    ensures FindIn(table, code) == FindIn(table[1..], code)
  {
  }

  /** No entry has an empty code, so "" is not supported. */
  lemma EmptyCodeUnsupported()
    ensures !IsSupported("")
  {
    SupportedTableIsWellFormed();
  }

  /** `table.find(...)?.exchangeRate || 1`: an unknown code, or a zero rate, counts as 1. */
  function RateIn(table: seq<CurrencyInfo>, code: string): real {
    var c := FindIn(table, code);
    if c.Some? && c.value.exchangeRate != 0.0 then c.value.exchangeRate else 1.0
  }

  lemma RateInFacts(table: seq<CurrencyInfo>, code: string)
    requires WellFormedTable(table)
    ensures RateIn(table, code) > 0.0
    ensures FindIn(table, code).Some? ==> RateIn(table, code) == FindIn(table, code).value.exchangeRate
    ensures FindIn(table, code).None? ==> RateIn(table, code) == 1.0
  {
  }

  /** The rate of a code against the US dollar. */
  function Rate(code: string): (r: real)
    ensures r > 0.0
  {
    SupportedTableIsWellFormed();
    RateInFacts(SupportedCurrencies, code);
    RateIn(SupportedCurrencies, code)
  }

  /** A supported code's rate is the table's and positive; an unknown code's is 1. */
  lemma RateFromTable(code: string)
    ensures Rate(code) > 0.0
    ensures IsSupported(code) ==> Rate(code) == Find(code).value.exchangeRate
    ensures !IsSupported(code) ==> Rate(code) == 1.0
  {
    SupportedTableIsWellFormed();
    RateInFacts(SupportedCurrencies, code);
  }

  /** `amount / fromRate * toRate`: to US dollars, then to the target. */
  function ViaDollar(amount: real, fromRate: real, toRate: real): real
    requires fromRate > 0.0
  {
    amount / fromRate * toRate
  }

  /**
   * `convertCurrency`: the same code returns the amount, any other pair goes
   * through the dollar (`ConvertIsRateRatio` gives the value for every pair).
   */
  function ConvertCurrency(amount: real, fromCurrency: string, toCurrency: string): (r: real)
    ensures fromCurrency == toCurrency ==> r == amount
  {
    if fromCurrency == toCurrency then amount else ViaDollar(amount, Rate(fromCurrency), Rate(toCurrency))
  }

  // The arithmetic steps, each on the rates as plain numbers.

  lemma RatioOfRates(amount: real, f: real, t: real)
    requires f > 0.0
    ensures ViaDollar(amount, f, t) == amount * (t / f)
  {
  }

  lemma EqualRates(amount: real, f: real, t: real)
    requires f > 0.0 && f == t
    ensures amount == amount * (t / f)
  {
  }

  lemma FromRateOne(amount: real, f: real, t: real)
    requires f == 1.0
    ensures ViaDollar(amount, f, t) == amount * t
    ensures t == 1.0 ==> amount == amount * t
  {
  }

  lemma ChainOfRates(amount: real, rx: real, ry: real, rz: real)
    requires rx > 0.0 && ry > 0.0 && rz > 0.0
    ensures ViaDollar(ViaDollar(amount, rx, ry), ry, rz) == ViaDollar(amount, rx, rz)
    ensures rz == rx ==> ViaDollar(ViaDollar(amount, rx, ry), ry, rz) == amount
  {
  }

  /** Conversion multiplies by the ratio of the two rates, whatever the codes. */
  lemma ConvertIsRateRatio(amount: real, fromCurrency: string, toCurrency: string)
    ensures ConvertCurrency(amount, fromCurrency, toCurrency) == amount * (Rate(toCurrency) / Rate(fromCurrency))
  {
    if fromCurrency == toCurrency {
      SameCodeRatio(amount, fromCurrency, toCurrency);
    } else {
      OtherCodesRatio(amount, fromCurrency, toCurrency);
    }
  }

  lemma SameCodeRatio(amount: real, fromCurrency: string, toCurrency: string)
    requires fromCurrency == toCurrency
    ensures ConvertCurrency(amount, fromCurrency, toCurrency) == amount * (Rate(toCurrency) / Rate(fromCurrency))
  {
    EqualRates(amount, Rate(fromCurrency), Rate(toCurrency));
  }

  lemma OtherCodesRatio(amount: real, fromCurrency: string, toCurrency: string)
    requires fromCurrency != toCurrency
    ensures ConvertCurrency(amount, fromCurrency, toCurrency) == amount * (Rate(toCurrency) / Rate(fromCurrency))
  {
    RatioOfRates(amount, Rate(fromCurrency), Rate(toCurrency));
  }

  /** Two codes the table does not know both use rate 1, so the amount comes back unchanged. */
  lemma UnknownCodesKeepAmount(amount: real, fromCurrency: string, toCurrency: string)
    requires !IsSupported(fromCurrency) && !IsSupported(toCurrency)
    ensures ConvertCurrency(amount, fromCurrency, toCurrency) == amount
  {
    RateFromTable(fromCurrency);
    RateFromTable(toCurrency);
    FromRateOne(amount, Rate(fromCurrency), Rate(toCurrency));
  }

  /** From a code of rate 1, such as the US dollar, conversion multiplies by the target's rate. */
  lemma FromUnitRate(amount: real, fromCurrency: string, toCurrency: string)
    requires Rate(fromCurrency) == 1.0
    ensures ConvertCurrency(amount, fromCurrency, toCurrency) == amount * Rate(toCurrency)
  {
    FromRateOne(amount, Rate(fromCurrency), Rate(toCurrency));
  }

  /** From US dollars, conversion multiplies by the target's rate. */
  lemma FromDollars(amount: real, toCurrency: string)
    ensures ConvertCurrency(amount, "USD", toCurrency) == amount * Rate(toCurrency)
  {
    DollarRate();
    FromUnitRate(amount, "USD", toCurrency);
  }

  /** Converting from x to y and then from y to z is converting from x to z. */
  lemma ConvertComposes(amount: real, x: string, y: string, z: string)
    ensures ConvertCurrency(ConvertCurrency(amount, x, y), y, z) == ConvertCurrency(amount, x, z)
  {
    RateFromTable(x);
    RateFromTable(y);
    RateFromTable(z);
    if x != y && y != z {
      ChainOfRates(amount, Rate(x), Rate(y), Rate(z));
    }
  }

  /** There and back again returns the amount. */
  lemma RoundTrip(amount: real, x: string, y: string)
    ensures ConvertCurrency(ConvertCurrency(amount, x, y), y, x) == amount
  {
    ConvertComposes(amount, x, y, x);
  }

  /** `table.find(...)?.symbol || fallback`, and the same for names. */
  function SymbolIn(table: seq<CurrencyInfo>, code: string): string {
    var c := FindIn(table, code);
    if c.Some? && c.value.symbol != "" then c.value.symbol else "$"
  }

  function NameIn(table: seq<CurrencyInfo>, code: string): string {
    var c := FindIn(table, code);
    if c.Some? && c.value.name != "" then c.value.name else "US Dollar"
  }

  /** `getCurrencySymbol`: the table's symbol, or "$" for a code the table does not know. */
  function CurrencySymbol(currencyCode: string): (r: string)
    ensures IsSupported(currencyCode) ==> r == Find(currencyCode).value.symbol
    ensures !IsSupported(currencyCode) ==> r == "$"
  {
    SupportedTableIsWellFormed();
    SymbolIn(SupportedCurrencies, currencyCode)
  }

  /** `getCurrencyName`: the table's name, or "US Dollar" for a code the table does not know. */
  function CurrencyName(currencyCode: string): (r: string)
    ensures IsSupported(currencyCode) ==> r == Find(currencyCode).value.name
    ensures !IsSupported(currencyCode) ==> r == "US Dollar"
  {
    SupportedTableIsWellFormed();
    NameIn(SupportedCurrencies, currencyCode)
  }

  /**
   * `formatCurrency`: the symbol followed by the formatted amount.
   * `toLocale(amount, Some(d))` is `toLocaleString` with exactly `d`
   * fraction digits (0 for yen, 2 otherwise); `toLocale(amount, None)` is
   * `toLocaleString()` with the default options.
   */
  function FormatCurrency(amount: real, currencyCode: string, toLocale: (real, Option<nat>) -> string): (r: string)
    ensures IsSupported(currencyCode) ==>
              r == CurrencySymbol(currencyCode) + toLocale(amount, Some(if currencyCode == "JPY" then 0 else 2))
    ensures !IsSupported(currencyCode) ==> r == CurrencySymbol(currencyCode) + toLocale(amount, None)
  {
    var c := Find(currencyCode);
    if c.None? then "$" + toLocale(amount, None)
    else
      var decimals := if currencyCode == "JPY" then 0 else 2;
      c.value.symbol + toLocale(amount, Some(decimals))
  }

  /** The formatted amount starts with the code's display symbol, "$" for an unknown code. */
  lemma FormatStartsWithSymbol(amount: real, currencyCode: string, toLocale: (real, Option<nat>) -> string)
    ensures CurrencySymbol(currencyCode) <= FormatCurrency(amount, currencyCode, toLocale)
    ensures IsSupported(currencyCode) ==>
              FormatCurrency(amount, currencyCode, toLocale)[|CurrencySymbol(currencyCode)|..]
              == toLocale(amount, Some(if currencyCode == "JPY" then 0 else 2))
    ensures !IsSupported(currencyCode) ==>
              FormatCurrency(amount, currencyCode, toLocale) == "$" + toLocale(amount, None)
  {
    var s := CurrencySymbol(currencyCode);
    var rest := if IsSupported(currencyCode) then toLocale(amount, Some(if currencyCode == "JPY" then 0 else 2))
                else toLocale(amount, None);
    assert (s + rest)[..|s|] == s && (s + rest)[|s|..] == rest;
  }

  // ---------------------------------------------------------------- stored preference

  const PreferenceKey: string := "preferred-currency"

  /** The old defaults that a stored preference is reset from. */
  predicate IsOldDefault(code: string) {
    code == "USD" || code == "GBP"
  }

  /** Both old defaults are in the table. */
  lemma OldDefaultIsSupported(code: string)
    ensures IsOldDefault(code) ==> IsSupported(code)
  {
    assert SupportedCurrencies[0].code == "USD";
    assert SupportedCurrencies[2].code == "GBP";
  }

  /** The code `getUserPreferredCurrency` returns for the stored items. */
  function StoredPreference(items: map<string, string>): (r: string)
    ensures IsSupported(r)
  {
    DefaultIsSupported();
    if PreferenceKey in items && IsOldDefault(items[PreferenceKey]) then DefaultCurrency
    else if PreferenceKey in items && items[PreferenceKey] != "" && IsSupported(items[PreferenceKey]) then items[PreferenceKey]
    else DefaultCurrency
  }

  /** The items after `getUserPreferredCurrency`: an old default is removed, anything else is kept. */
  function AfterRead(items: map<string, string>): (r: map<string, string>)
    ensures r.Keys <= items.Keys
  {
    if PreferenceKey in items && IsOldDefault(items[PreferenceKey]) then items - {PreferenceKey} else items
  }

  /** The browser's `localStorage`, as the map from keys to stored strings. */
  class LocalStorage {
    var items: map<string, string>

    constructor(initial: map<string, string>)
      ensures items == initial
    {
      items := initial;
    }

    /**
     * `getUserPreferredCurrency`: a stored "USD" or "GBP" is removed and the
     * default returned; another stored supported code is returned; anything
     * else gives the default.  Only the preference key may be removed.
     */
    method GetUserPreferredCurrency() returns (r: string)
      modifies this
      ensures r == StoredPreference(old(items)) && items == AfterRead(old(items))
      ensures IsSupported(r)
    {
      if PreferenceKey in items && IsOldDefault(items[PreferenceKey]) {
        items := items - {PreferenceKey};
        r := DefaultCurrency;
      } else if PreferenceKey in items && items[PreferenceKey] != "" && IsSupported(items[PreferenceKey]) {
        r := items[PreferenceKey];
      } else {
        r := DefaultCurrency;
      }
    }

    /** `setUserPreferredCurrency`: stores the code under the preference key, whatever it is. */
    method SetUserPreferredCurrency(currencyCode: string)
      modifies this
      ensures items == old(items)[PreferenceKey := currencyCode]
    {
      items := items[PreferenceKey := currencyCode];
    }
  }

  /** A stored old default is removed and the default returned. */
  lemma OldDefaultIsReset(items: map<string, string>)
    requires PreferenceKey in items && IsOldDefault(items[PreferenceKey])
    ensures StoredPreference(items) == DefaultCurrency
    ensures AfterRead(items) == items - {PreferenceKey} && PreferenceKey !in AfterRead(items)
  {
  }

  /** Another stored supported code is returned and left in place. */
  lemma SupportedIsKept(items: map<string, string>)
    requires PreferenceKey in items && !IsOldDefault(items[PreferenceKey]) && IsSupported(items[PreferenceKey])
    ensures StoredPreference(items) == items[PreferenceKey] && AfterRead(items) == items
  {
    var v := items[PreferenceKey];
    assert v != "" by {
      EmptyCodeUnsupported();
    }
  }

  /** No stored preference, or an unsupported one, gives the default and changes nothing. */
  lemma OtherIsDefault(items: map<string, string>)
    requires PreferenceKey !in items || !IsSupported(items[PreferenceKey])
    ensures StoredPreference(items) == DefaultCurrency && AfterRead(items) == items
  {
    if PreferenceKey in items {
      OldDefaultIsSupported(items[PreferenceKey]);
    }
  }

  /** Reading twice gives the same code, and the second read changes nothing. */
  lemma ReadIsIdempotent(items: map<string, string>)
    ensures StoredPreference(AfterRead(items)) == StoredPreference(items)
    ensures AfterRead(AfterRead(items)) == AfterRead(items)
  {
  }

  /**
   * A stored code is read back when it is supported and not an old default;
   * otherwise the read gives the default.
   */
  lemma SetThenGet(items: map<string, string>, currencyCode: string)
    ensures StoredPreference(items[PreferenceKey := currencyCode])
         == if IsSupported(currencyCode) && !IsOldDefault(currencyCode) then currencyCode else DefaultCurrency
  {
    var stored := items[PreferenceKey := currencyCode];
    if !IsSupported(currencyCode) {
      OtherIsDefault(stored);
    } else if IsOldDefault(currencyCode) {
      OldDefaultIsReset(stored);
    } else {
      SupportedIsKept(stored);
    }
  }
}
