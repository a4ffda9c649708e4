/** The portfolio aggregator: GET /v1/portfolio/{clientId}. It resolves the
    client's stored holdings, prices each one through the market-data
    service and sums the market values. Money is in whole cents. The outcome
    of each outbound price call is an input, one per holding in order. */
module Portfolio {

  datatype Holding = Holding(symbol: string, quantity: int)

  /** What one call to the market-data service gave back: a price, an empty
      (null) body, or an exception of any kind. */
  datatype Lookup = Quote(priceCents: int) | Missing | Failed

  datatype ValuedHolding =
    ValuedHolding(symbol: string, quantity: int, currentPrice: int, marketValue: int)

  datatype PortfolioResponse =
    PortfolioResponse(clientId: string, totalPortfolioValue: int, holdings: seq<ValuedHolding>)

  /** A response, or the 404 raised for an unknown client. */
  datatype Reply = Found(response: PortfolioResponse) | NotFound(message: string)

  /** The static table of client portfolios. */
  const Portfolios: map<string, seq<Holding>> := map[
    "client-123" := [Holding("RNDR", 500), Holding("KNG", 1000)],
    "client-456" := [Holding("SPY", 150), Holding("BTC", 5)]
  ]

  /** A holding whose price could not be obtained. */
  predicate Degraded(v: ValuedHolding)
  {
    v.currentPrice == 0 && v.marketValue == 0
  }

  /** getValuedHolding: a quote values the holding at price * quantity; a
      null reply or a failed call values it at zero instead of failing. */
  function GetValuedHolding(h: Holding, lookup: Lookup): (v: ValuedHolding)
    ensures v.symbol == h.symbol && v.quantity == h.quantity
    ensures v.marketValue == v.currentPrice * v.quantity
    ensures lookup.Quote? ==> v.currentPrice == lookup.priceCents
    ensures !lookup.Quote? ==> Degraded(v)
  {
    match lookup
    case Quote(price) => ValuedHolding(h.symbol, h.quantity, price, price * h.quantity)
    case Missing => ValuedHolding(h.symbol, h.quantity, 0, 0)
    case Failed => ValuedHolding(h.symbol, h.quantity, 0, 0)
  }

  /** The stream map over the holdings: one valued holding per holding, in
      order, each priced by its own lookup. */
  function ValueHoldings(hs: seq<Holding>, lookups: seq<Lookup>): (vs: seq<ValuedHolding>)
    requires |lookups| == |hs|
    ensures |vs| == |hs|
    ensures forall i :: 0 <= i < |hs| ==> vs[i] == GetValuedHolding(hs[i], lookups[i])
  {
    if hs == [] then []
    else [GetValuedHolding(hs[0], lookups[0])] + ValueHoldings(hs[1..], lookups[1..])
  }

  /** The sum of the market values. */
  function Sum(vs: seq<ValuedHolding>): int
  {
    if vs == [] then 0 else vs[0].marketValue + Sum(vs[1..])
  }

  /** reduce(acc, BigDecimal::add) over the market values, left to right. */
  function Reduce(acc: int, vs: seq<ValuedHolding>): (r: int)
    ensures r == acc + Sum(vs)
    decreases vs
  {
    if vs == [] then acc else Reduce(acc + vs[0].marketValue, vs[1..])
  }

  /** getPortfolio. */
  function GetPortfolio(clientId: string, lookups: seq<Lookup>): (r: Reply)
    requires clientId in Portfolios ==> |lookups| == |Portfolios[clientId]|
    ensures r.NotFound? <==> clientId !in Portfolios
    ensures r.Found? ==> r.response.clientId == clientId
    ensures r.Found? ==>
      var stored := Portfolios[clientId];
      var vs := r.response.holdings;
      && |vs| == |stored|
      && (forall i :: 0 <= i < |vs| ==>
            && vs[i].symbol == stored[i].symbol
            && vs[i].quantity == stored[i].quantity
            && vs[i].marketValue == vs[i].currentPrice * vs[i].quantity
            && (lookups[i].Quote? ==> vs[i].currentPrice == lookups[i].priceCents)
            && (!lookups[i].Quote? ==> Degraded(vs[i])))
    ensures r.Found? ==> r.response.totalPortfolioValue == Sum(r.response.holdings)
  {
    if clientId !in Portfolios then
      NotFound("Client portfolio not found")
    else
      var valuedHoldings := ValueHoldings(Portfolios[clientId], lookups);
      var totalValue := Reduce(0, valuedHoldings);
      Found(PortfolioResponse(clientId, totalValue, valuedHoldings))
  }

  lemma {:induction false} SumAppend(a: seq<ValuedHolding>, b: seq<ValuedHolding>)
    ensures Sum(a + b) == Sum(a) + Sum(b)
  {
    if a == [] {
      assert a + b == b;
    } else {
      assert (a + b)[1..] == a[1..] + b;
      SumAppend(a[1..], b);
    }
  }

  lemma {:induction false} SumNonNegative(vs: seq<ValuedHolding>)
    requires forall i :: 0 <= i < |vs| ==> vs[i].marketValue >= 0
    ensures Sum(vs) >= 0
  {
    if vs != [] {
      SumNonNegative(vs[1..]);
    }
  }

  /** Replacing one market value changes the sum by exactly the difference. */
  lemma SumUpdate(vs: seq<ValuedHolding>, j: nat, v: ValuedHolding)
    requires j < |vs|
    ensures Sum(vs[j := v]) == Sum(vs) - vs[j].marketValue + v.marketValue
  {
    assert vs == vs[..j] + [vs[j]] + vs[j + 1..];
    assert vs[j := v] == vs[..j] + [v] + vs[j + 1..];
    SumAppend(vs[..j] + [vs[j]], vs[j + 1..]);
    SumAppend(vs[..j], [vs[j]]);
    SumAppend(vs[..j] + [v], vs[j + 1..]);
    SumAppend(vs[..j], [v]);
  }

  /** A lookup affects its own holding only: with one lookup changed, every
      other valued holding is the same, and the reduced total moves by
      exactly the change in that holding's market value. */
  lemma ValuationIsLocal(hs: seq<Holding>, lookups: seq<Lookup>, j: nat, other: Lookup)
    requires |lookups| == |hs| && j < |hs|
    ensures var before := ValueHoldings(hs, lookups);
      var after := ValueHoldings(hs, lookups[j := other]);
      && after == before[j := GetValuedHolding(hs[j], other)]
      && Reduce(0, after) == Reduce(0, before) - before[j].marketValue + after[j].marketValue
  {
    SumUpdate(ValueHoldings(hs, lookups), j, GetValuedHolding(hs[j], other));
  }

  /** The same locality for a client's whole portfolio response. */
  lemma LookupIsLocal(clientId: string, lookups: seq<Lookup>, j: nat, other: Lookup)
    requires clientId in Portfolios && |lookups| == |Portfolios[clientId]|
    requires j < |lookups|
    ensures var before := GetPortfolio(clientId, lookups).response;
      var after := GetPortfolio(clientId, lookups[j := other]).response;
      && after.holdings == before.holdings[j := after.holdings[j]]
      && after.totalPortfolioValue
         == before.totalPortfolioValue - before.holdings[j].marketValue + after.holdings[j].marketValue
  {
  }

  /** A failed call on one holding costs the total exactly that holding's
      value and leaves the valuation of every other holding intact. */
  lemma FailureDegradesOnlyItsHolding(clientId: string, lookups: seq<Lookup>, j: nat)
    requires clientId in Portfolios && |lookups| == |Portfolios[clientId]|
    requires j < |lookups|
    ensures var before := GetPortfolio(clientId, lookups).response;
      var after := GetPortfolio(clientId, lookups[j := Failed]).response;
      && Degraded(after.holdings[j])
      && (forall i :: 0 <= i < |lookups| && i != j ==> after.holdings[i] == before.holdings[i])
      && after.totalPortfolioValue == before.totalPortfolioValue - before.holdings[j].marketValue
  {
    LookupIsLocal(clientId, lookups, j, Failed);
  }

  /** Every stored quantity is non-negative. */
  predicate NonNegativeQuantities(hs: seq<Holding>)
  {
    forall i :: 0 <= i < |hs| ==> hs[i].quantity >= 0
  }

  predicate NonNegativeQuotes(lookups: seq<Lookup>)
  {
    forall i :: 0 <= i < |lookups| && lookups[i].Quote? ==> lookups[i].priceCents >= 0
  }

  /** The table holds exactly two clients, with non-negative quantities. */
  lemma PortfolioTable()
    ensures Portfolios.Keys == {"client-123", "client-456"}
    ensures Portfolios["client-123"] == [Holding("RNDR", 500), Holding("KNG", 1000)]
    ensures Portfolios["client-456"] == [Holding("SPY", 150), Holding("BTC", 5)]
    ensures forall c :: c in Portfolios ==> NonNegativeQuantities(Portfolios[c])
  {
  }

  /** Non-negative quotes give non-negative market values and a
      non-negative total for every client in the table. */
  lemma TotalNonNegative(clientId: string, lookups: seq<Lookup>)
    requires clientId in Portfolios && |lookups| == |Portfolios[clientId]|
    requires NonNegativeQuotes(lookups)
    ensures var resp := GetPortfolio(clientId, lookups).response;
      && (forall i :: 0 <= i < |resp.holdings| ==> resp.holdings[i].marketValue >= 0)
      && resp.totalPortfolioValue >= 0
  {
    var resp := GetPortfolio(clientId, lookups).response;
    PortfolioTable();
    assert NonNegativeQuantities(Portfolios[clientId]);
    SumNonNegative(resp.holdings);
  }

  /** client-123 with RNDR quoted at 12.50 and the KNG call failing. */
  lemma Client123Example()
    ensures GetPortfolio("client-123", [Quote(1250), Failed])
      == Found(PortfolioResponse("client-123", 625000, [
               ValuedHolding("RNDR", 500, 1250, 625000),
               ValuedHolding("KNG", 1000, 0, 0)]))
  {
    var vs := ValueHoldings(Portfolios["client-123"], [Quote(1250), Failed]);
    assert vs == [ValuedHolding("RNDR", 500, 1250, 625000), ValuedHolding("KNG", 1000, 0, 0)];
  }

  /** An unknown client gets the not-found reply and no valuation. */
  lemma UnknownClientExample()
    ensures GetPortfolio("client-999", []) == NotFound("Client portfolio not found")
  {
  }
}
