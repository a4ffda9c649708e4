/** The two services wired together: the aggregator's lookup for a holding
    is a call to the price source with the holding's symbol as stored. */
module Services {
  import MarketData
  import Portfolio

  /** What one outbound price call met: the price source answering with the
      given random draws, an empty body, or a failure to reach it. */
  datatype Call = Answered(draws: MarketData.Draws) | EmptyBody | Unreachable

  function ToLookup(h: Portfolio.Holding, call: Call): (l: Portfolio.Lookup)
    ensures call.Answered? <==> l.Quote?
    ensures call.Answered? ==> l.priceCents == MarketData.GetPrice(h.symbol, call.draws).price
  {
    match call
    case Answered(draws) => Portfolio.Quote(MarketData.GetPrice(h.symbol, draws).price)
    case EmptyBody => Portfolio.Missing
    case Unreachable => Portfolio.Failed
  }

  function ToLookups(hs: seq<Portfolio.Holding>, calls: seq<Call>): (ls: seq<Portfolio.Lookup>)
    requires |calls| == |hs|
    ensures |ls| == |hs|
    ensures forall i :: 0 <= i < |hs| ==> ls[i] == ToLookup(hs[i], calls[i])
  {
    if hs == [] then [] else [ToLookup(hs[0], calls[0])] + ToLookups(hs[1..], calls[1..])
  }

  /** The valuation a client receives when every price comes from the
      price source. */
  function Valuate(clientId: string, calls: seq<Call>): (r: Portfolio.Reply)
    requires clientId in Portfolio.Portfolios ==> |calls| == |Portfolio.Portfolios[clientId]|
    ensures r.NotFound? <==> clientId !in Portfolio.Portfolios
  {
    if clientId in Portfolio.Portfolios then
      Portfolio.GetPortfolio(clientId, ToLookups(Portfolio.Portfolios[clientId], calls))
    else
      Portfolio.GetPortfolio(clientId, [])
  }

  /** Because the price source never quotes below zero, no client's total
      is ever negative, whatever calls fail. */
  lemma ValuationNeverNegative(clientId: string, calls: seq<Call>)
    requires clientId in Portfolio.Portfolios
    requires |calls| == |Portfolio.Portfolios[clientId]|
    ensures Valuate(clientId, calls).response.totalPortfolioValue >= 0
  {
    var ls := ToLookups(Portfolio.Portfolios[clientId], calls);
    assert Portfolio.NonNegativeQuotes(ls);
    Portfolio.TotalNonNegative(clientId, ls);
  }

  /** A holding whose call was answered with draws from the source's ranges
      is valued at base + fluctuation for its upper-cased symbol. */
  lemma AnsweredHoldingValue(clientId: string, calls: seq<Call>, i: nat)
    requires clientId in Portfolio.Portfolios
    requires |calls| == |Portfolio.Portfolios[clientId]|
    requires i < |calls| && calls[i].Answered? && MarketData.ValidDraws(calls[i].draws)
    ensures var h := Portfolio.Portfolios[clientId][i];
      var v := Valuate(clientId, calls).response.holdings[i];
      var draws := calls[i].draws;
      && v.currentPrice
         == MarketData.BasePrice(MarketData.ToUpperCase(h.symbol), draws) + MarketData.Fluctuation(draws)
      && v.currentPrice >= 950
      && v.marketValue == v.currentPrice * h.quantity
  {
    var h := Portfolio.Portfolios[clientId][i];
    MarketData.ClampNeverTriggers(h.symbol, calls[i].draws);
  }
}
