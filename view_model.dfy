/** The placeholder policy every view applies to an edition's joined market
    (`edition.market?.name || 'Unknown Market'` and
    `edition.market?.description || null`). A null join and an empty string
    are both falsy in JavaScript, so both fall back. */
module ViewModel {
  import opened Wrappers
  import opened Supabase

  const UnknownMarket: string := "Unknown Market"

  /** The market's name, or the placeholder when there is no market or its
      name is empty: never an empty name. */
  function ResolveMarketName(market: Option<MarketJoin>): (name: string)
    ensures name != ""
    ensures market.Some? && market.value.name != "" ==> name == market.value.name
    ensures market.None? || market.value.name == "" ==> name == UnknownMarket
  {
    if market.Some? && market.value.name != "" then market.value.name else UnknownMarket
  }

  /** The market's description when it is a non-empty string, else null. */
  function ResolveDescription(market: Option<MarketJoin>): (description: Option<string>)
    ensures description.Some? ==> description.value != ""
    ensures description.Some? <==> market.Some? && market.value.description.Some? && market.value.description.value != ""
    ensures description.Some? ==> description == market.value.description
  {
    match market
    case Some(MarketJoin(_, Some(d))) => if d != "" then Some(d) else None
    case _ => None
  }

  /** The policy is idempotent: resolving an already resolved market changes
      nothing. */
  lemma ResolveIsIdempotent(market: Option<MarketJoin>)
    ensures var resolved := Some(MarketJoin(ResolveMarketName(market), ResolveDescription(market)));
      ResolveMarketName(resolved) == ResolveMarketName(market) &&
      ResolveDescription(resolved) == ResolveDescription(market)
  {
  }
}
