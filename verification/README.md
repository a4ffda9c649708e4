# Portfolio valuation and mock price source, modelled in Dafny

Two small Spring services are modelled here without their HTTP layer:

- **market-data-service** (`MarketDataController.getPrice`). It upper-cases a
  symbol and takes the symbol's base price from the `MOCK_PRICES` table. An
  unknown symbol gets a random base drawn from [10, 500) dollars instead. The
  service then adds a random fluctuation drawn from [-0.5, 0.5), rounds both
  draws half-up to cents, and clamps the result at zero.
- **portfolio-service** (`PortfolioController.getPortfolio` and
  `getValuedHolding`). It looks the client up in the static `PORTFOLIOS`
  table and answers not-found for an unknown id. Otherwise it prices every
  holding in order through one call to the market-data service. A quote
  values the holding at price × quantity. A null body or any exception
  values it at zero and does not abort the valuation. The market values are
  then summed into the total.

Money is an `int` number of cents. The source uses `BigDecimal` values with
two fractional digits, so cents make every sum and product exact. Each random
draw is an input: a `Decimal(unscaled, scale)`, the exact value that
`BigDecimal.valueOf(double)` produces. `setScale(2, HALF_UP)` is modelled
exactly (`BigDecimalRounding.SetScale2HalfUp`). The cent ranges of the draws are
therefore proved, not assumed: [1000, 50000] for the base (half-up rounding
can reach 500.00) and [-50, 50] for the fluctuation. The outcome of each
outbound price call is an input too. It is a `Portfolio.Lookup` (`Quote`,
`Missing` for a null body, `Failed` for an exception), one per stored holding
in order. `Services` wires the two services together, so that each lookup is
a `GetPrice` call on the holding's symbol as stored.

Files: `decimal.dfy` (module `BigDecimalRounding`), `market_data.dfy`
(MarketDataController), `portfolio.dfy` (PortfolioController and its
records), `services.dfy` (the two services composed).

Notes on the code's behaviour that the model keeps:

- A generated base is drawn from [10, 500) dollars. After 2-digit half-up
  rounding it can be exactly 500.00.
- The aggregator passes a holding's stored symbol through unchanged. Only
  the price source upper-cases it.
- `Holding` is modelled as `Holding(symbol, quantity: int)`.

## Model

| member | source | states |
|---|---|---|
| BigDecimalRounding.SetScale2HalfUp | market-data-service/src/main/java/com/mphasis/market/controller/MarketDataController.java:44-46 | rounding to cents: exact when the scale is at most 2; otherwise the result is a nearest whole number of cents, and a tie goes away from zero |
| BigDecimalRounding.RoundedStaysInRange | market-data-service/src/main/java/com/mphasis/market/controller/MarketDataController.java:39-46 | a value in [lo, hi) cents rounds half-up into [lo, hi]: nextDouble(10,500) gives a base in [1000, 50000] cents and nextDouble(-0.5,0.5) a fluctuation in [-50, 50] |
| MarketData.ToUpperCase | market-data-service/src/main/java/com/mphasis/market/controller/MarketDataController.java:34 | same length; the result has no lower-case letter; each lower-case letter becomes its capital and every other character is kept |
| MarketData.UpperCaseIsFixed | market-data-service/src/main/java/com/mphasis/market/controller/MarketDataController.java:34 | an already upper-case symbol is unchanged by upper-casing |
| MarketData.ToUpperCaseIdempotent | market-data-service/src/main/java/com/mphasis/market/controller/MarketDataController.java:34 | upper-casing twice equals upper-casing once |
| MarketData.GetPrice | market-data-service/src/main/java/com/mphasis/market/controller/MarketDataController.java:33-51 | the returned symbol is the upper-cased input; the price is never negative and is the least value that is at least 0 and at least base + fluctuation |
| MarketData.GetPriceIgnoresCase | market-data-service/src/main/java/com/mphasis/market/controller/MarketDataController.java:34-41 | getPrice(s) and getPrice(upper(s)) give the same response for the same draws |
| MarketData.KnownSymbolUsesTable | market-data-service/src/main/java/com/mphasis/market/controller/MarketDataController.java:37-48 | a symbol in the table, in any case, is priced at max(table base + fluctuation, 0) |
| MarketData.MockPriceBases | market-data-service/src/main/java/com/mphasis/market/controller/MarketDataController.java:19-24 | table bases: RNDR 1234, KNG 9948, SPY 45076, BTC 6510200 cents |
| MarketData.UnknownSymbolUsesDraw | market-data-service/src/main/java/com/mphasis/market/controller/MarketDataController.java:37-41 | an unknown symbol's base is the rounded random draw, in [1000, 50000] cents |
| MarketData.BasePrice | market-data-service/src/main/java/com/mphasis/market/controller/MarketDataController.java:19-41 | MOCK_PRICES.getOrDefault: a table symbol takes its table price, any other symbol the rounded draw; with a draw from [10, 500) every base is at least 1000 cents (the exact table values are in MarketData.MockPriceBases, the drawn range in MarketData.UnknownSymbolUsesDraw) |
| MarketData.PriceWithinFluctuation | market-data-service/src/main/java/com/mphasis/market/controller/MarketDataController.java:44-48 | when base + fluctuation is not negative, the price lies within 50 cents of the base |
| MarketData.ClampNeverTriggers | market-data-service/src/main/java/com/mphasis/market/controller/MarketDataController.java:20-48 | with draws from the source's ranges the price is exactly base + fluctuation and at least 950 cents |
| Portfolio.GetValuedHolding | portfolio-service/src/main/java/com/mphasis/portfolio/controller/PortfolioController.java:66-88 | keeps symbol and quantity; marketValue == currentPrice * quantity; a quote sets currentPrice; a null reply or a failure gives price 0 and value 0 |
| Portfolio.ValueHoldings | portfolio-service/src/main/java/com/mphasis/portfolio/controller/PortfolioController.java:51-53 | one valued holding per holding, same length and order, the i-th priced by the i-th lookup |
| Portfolio.Reduce | portfolio-service/src/main/java/com/mphasis/portfolio/controller/PortfolioController.java:56-58 | the left-to-right reduction from an accumulator equals the accumulator plus the sum of all market values |
| Portfolio.GetPortfolio | portfolio-service/src/main/java/com/mphasis/portfolio/controller/PortfolioController.java:42-61 | not-found exactly when the id is absent; otherwise echoes the client id, keeps length, order, symbols and quantities, follows the value equation and the degrade-to-zero rule, and the total is the sum of the market values |
| Portfolio.ValuationIsLocal | portfolio-service/src/main/java/com/mphasis/portfolio/controller/PortfolioController.java:51-58 | for any holdings, changing one lookup changes only that valued holding, and the reduced total moves by exactly the change in its market value |
| Portfolio.LookupIsLocal | portfolio-service/src/main/java/com/mphasis/portfolio/controller/PortfolioController.java:42-61 | for a stored client, changing one lookup changes only that holding, and the total moves by exactly the change in its market value |
| Portfolio.FailureDegradesOnlyItsHolding | portfolio-service/src/main/java/com/mphasis/portfolio/controller/PortfolioController.java:83-87 | a failing call zeroes its own holding only; all other holdings are unchanged and the total drops by that holding's former value |
| Portfolio.PortfolioTable | portfolio-service/src/main/java/com/mphasis/portfolio/controller/PortfolioController.java:25-28 | exactly client-123 → [(RNDR,500),(KNG,1000)] and client-456 → [(SPY,150),(BTC,5)], all quantities non-negative |
| Portfolio.TotalNonNegative | portfolio-service/src/main/java/com/mphasis/portfolio/controller/PortfolioController.java:56-58 | non-negative quotes give non-negative market values and a non-negative total for every client in the table |
| Portfolio.Client123Example | portfolio-service/src/main/java/com/mphasis/portfolio/controller/PortfolioController.java:42-61 | client-123 with RNDR at 1250 cents and KNG failing: holdings (RNDR,500,1250,625000), (KNG,1000,0,0) and a total of 625000 cents |
| Portfolio.UnknownClientExample | portfolio-service/src/main/java/com/mphasis/portfolio/controller/PortfolioController.java:45-48 | client-999 gets the not-found reply |
| Services.ToLookup | portfolio-service/src/main/java/com/mphasis/portfolio/controller/PortfolioController.java:70-87 | an answered call is a quote of the price source's price for the stored symbol; an empty body or an unreachable service is not a quote |
| Services.ToLookups | portfolio-service/src/main/java/com/mphasis/portfolio/controller/PortfolioController.java:51-53 | one lookup per holding, in order |
| Services.Valuate | portfolio-service/src/main/java/com/mphasis/portfolio/controller/PortfolioController.java:45-48 | the composed services answer not-found exactly for an unknown client |
| Services.ValuationNeverNegative | market-data-service/src/main/java/com/mphasis/market/controller/MarketDataController.java:48 | the price source never quotes below zero, so with it no client's total is negative, whatever calls fail |
| Services.AnsweredHoldingValue | portfolio-service/src/main/java/com/mphasis/portfolio/controller/PortfolioController.java:80-81 | a holding answered with in-range draws is priced at base + fluctuation for its upper-cased symbol (at least 950 cents) and valued at that price times its quantity |

## Left out

- HTTP routing, `RestTemplate`, JSON (de)serialisation, `ResponseStatusException` and `AppConfig`: these are framework wiring. The 404 is the `NotFound` reply.
- Building the market-data URL from `MARKET_DATA_SERVICE_URL` and injecting it: these only serve I/O. A lookup is an input instead.
- The `System.err` log line in the failure branch: its only effect is output.
- `ThreadLocalRandom` and the conversion of a double to its decimal string in `BigDecimal.valueOf`: these are floating point and nondeterministic. Each draw is given as the exact decimal it yields, and only non-negative scales are modelled. Doubles in the draw ranges never produce negative scales.
- `ConcurrentHashMap` thread safety: the table is read-only.
- Locale- and Unicode-sensitive behaviour of `String.toUpperCase`: only ASCII letters are upper-cased.
- BigDecimal scales: `BigDecimal.ZERO` and a clamped zero have scale 0, while table prices have scale 2. The model compares numeric values in cents.
- Portfolio.Lookup: a quote carries whole cents. A price with more than two fractional digits in the JSON body is not modelled.
- Java `int` range of quantities: the table's quantities are small, and `BigDecimal` arithmetic does not overflow.
