/** The mock market-data price source: GET /market/{symbol}. Prices are whole
    numbers of cents. The two random numbers a request draws are inputs, each
    given as the exact decimal BigDecimal.valueOf produced from the double. */
module MarketData {
  import opened BigDecimalRounding

  /** The response payload: the canonical symbol and its price in cents. */
  datatype MarketPrice = MarketPrice(symbol: string, price: int)

  /** The two random draws of one request: the fallback base price, drawn
      from [10, 500) dollars, and the fluctuation, drawn from [-0.5, 0.5). */
  datatype Draws = Draws(base: Decimal, fluctuation: Decimal)

  /** The ranges ThreadLocalRandom.nextDouble(10, 500) and
      nextDouble(-0.5, 0.5) draw from, in cents. */
  predicate ValidDraws(draws: Draws)
  {
    && InCentRange(draws.base, 1000, 50000)
    && InCentRange(draws.fluctuation, -50, 50)
  }

  /** The fixed table of known base prices, in cents. */
  const MockPrices: map<string, int> :=
    map["RNDR" := 1234, "KNG" := 9948, "SPY" := 45076, "BTC" := 6510200]

  predicate IsLower(c: char)
  {
    'a' <= c <= 'z'
  }

  /** A string with no ASCII lower-case letter. */
  predicate IsUpperCase(s: string)
  {
    forall i :: 0 <= i < |s| ==> !IsLower(s[i])
  }

  function UpperChar(c: char): char
  {
    if IsLower(c) then (c as int - 32) as char else c
  }

  /** String.toUpperCase restricted to ASCII: every lower-case letter becomes
      its capital, every other character is kept. */
  function ToUpperCase(s: string): (r: string)
    ensures |r| == |s|
    ensures IsUpperCase(r)
    ensures forall i :: 0 <= i < |s| && IsLower(s[i]) ==> r[i] as int == s[i] as int - 32
    ensures forall i :: 0 <= i < |s| && !IsLower(s[i]) ==> r[i] == s[i]
  {
    if s == [] then [] else [UpperChar(s[0])] + ToUpperCase(s[1..])
  }

  /** An upper-case string is its own upper-casing. */
  lemma UpperCaseIsFixed(s: string)
    requires IsUpperCase(s)
    ensures ToUpperCase(s) == s
  {
  }

  /** Upper-casing is idempotent. */
  lemma ToUpperCaseIdempotent(s: string)
    ensures ToUpperCase(ToUpperCase(s)) == ToUpperCase(s)
  {
  }

  /** BigDecimal.max(BigDecimal.ZERO) */
  function Max0(x: int): int
  {
    if x < 0 then 0 else x
  }

  /** MOCK_PRICES.getOrDefault(upperSymbol, generated base): the table price
      of a known symbol, the rounded random draw otherwise. Every base the
      price source can use is at least ten dollars. */
  function BasePrice(upperSymbol: string, draws: Draws): (b: int)
    ensures upperSymbol in MockPrices ==> b == MockPrices[upperSymbol]
    ensures upperSymbol !in MockPrices ==> b == SetScale2HalfUp(draws.base)
    ensures InCentRange(draws.base, 1000, 50000) ==> b >= 1000
  {
    if upperSymbol in MockPrices then MockPrices[upperSymbol]
    else
      if InCentRange(draws.base, 1000, 50000) then
        RoundedStaysInRange(draws.base, 1000, 50000);
        SetScale2HalfUp(draws.base)
      else SetScale2HalfUp(draws.base)
  }

  function Fluctuation(draws: Draws): int
  {
    SetScale2HalfUp(draws.fluctuation)
  }

  /** getPrice: upper-case the symbol, take its base price, add the
      fluctuation and clamp at zero. The price is the least non-negative
      number that is at least base + fluctuation. */
  function GetPrice(symbol: string, draws: Draws): (r: MarketPrice)
    ensures r.symbol == ToUpperCase(symbol)
    ensures r.price >= 0
    ensures r.price >= BasePrice(r.symbol, draws) + Fluctuation(draws)
    ensures r.price == 0 || r.price == BasePrice(r.symbol, draws) + Fluctuation(draws)
  {
    var upperSymbol := ToUpperCase(symbol);
    var basePrice := BasePrice(upperSymbol, draws);
    MarketPrice(upperSymbol, Max0(basePrice + Fluctuation(draws)))
  }

  /** A symbol and its upper-cased form are priced alike. */
  lemma GetPriceIgnoresCase(symbol: string, draws: Draws)
    ensures GetPrice(symbol, draws) == GetPrice(ToUpperCase(symbol), draws)
  {
  }

  /** A symbol found in the table, in any letter case, is priced from its
      table base. */
  lemma KnownSymbolUsesTable(symbol: string, draws: Draws)
    requires ToUpperCase(symbol) in MockPrices
    ensures var r := GetPrice(symbol, draws);
      r.price == Max0(MockPrices[r.symbol] + Fluctuation(draws))
  {
  }

  /** The table bases, in cents. */
  lemma MockPriceBases(draws: Draws)
    ensures BasePrice("RNDR", draws) == 1234
    ensures BasePrice("KNG", draws) == 9948
    ensures BasePrice("SPY", draws) == 45076
    ensures BasePrice("BTC", draws) == 6510200
  {
  }

  /** An unknown symbol takes its base from the random draw, which after
      rounding lies in [1000, 50000] cents. */
  lemma UnknownSymbolUsesDraw(symbol: string, draws: Draws)
    requires ToUpperCase(symbol) !in MockPrices
    requires ValidDraws(draws)
    ensures var b := BasePrice(ToUpperCase(symbol), draws);
      b == SetScale2HalfUp(draws.base) && 1000 <= b <= 50000
  {
    RoundedStaysInRange(draws.base, 1000, 50000);
  }

  /** Unless clamped, the price moves at most 50 cents away from the base. */
  lemma PriceWithinFluctuation(symbol: string, draws: Draws)
    requires InCentRange(draws.fluctuation, -50, 50)
    ensures var r := GetPrice(symbol, draws);
      var b := BasePrice(r.symbol, draws);
      b + Fluctuation(draws) >= 0 ==> b - 50 <= r.price <= b + 50
  {
    RoundedStaysInRange(draws.fluctuation, -50, 50);
  }

  /** With draws from the source's ranges the clamp never fires: every base
      is at least 1000 cents and the fluctuation at most 50 cents. */
  lemma ClampNeverTriggers(symbol: string, draws: Draws)
    requires ValidDraws(draws)
    ensures var r := GetPrice(symbol, draws);
      r.price == BasePrice(r.symbol, draws) + Fluctuation(draws) && r.price >= 950
  {
    RoundedStaysInRange(draws.fluctuation, -50, 50);
  }
}
