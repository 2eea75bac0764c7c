/**
 * The stored trade record and the query documents sent to the trade
 * collection: a query maps a field path to one condition, and a record
 * matches a query when it meets the condition of every key.
 */
module Trades {
  import opened Options

  /** The embedded side/price/quantity block of a trade. */
  datatype TradeDetails = TradeDetails(buySellIndicator: string, price: real, quantity: int)

  /** One trade execution as stored; the timestamp is an abstract ordered value. */
  datatype Trade = Trade(
    assetClass: Option<string>,
    counterparty: Option<string>,
    instrumentId: string,
    instrumentName: string,
    tradeDateTime: int,
    tradeDetails: TradeDetails,
    tradeId: Option<string>,
    trader: string)

  /** The field paths the filter endpoint can constrain. */
  const AssetClassKey: string := "asset_class"
  const PriceKey: string := "trade_details.price"
  const DateTimeKey: string := "trade_date_time"
  const SideKey: string := "trade_details.buySellIndicator"

  const FilterKeys: set<string> := {AssetClassKey, PriceKey, DateTimeKey, SideKey}

  /** A bound value: a price or a point in time. Both are only stored and compared. */
  datatype Val = Price(amount: real) | Time(instant: int)

  /** A field condition: equality, or a `$gte`/`$lte` range where each side may be missing. */
  datatype Cond = Eq(text: string) | Range(lo: Option<Val>, hi: Option<Val>)

  /** Order between bound values; a price and a time never compare. */
  predicate Leq(a: Val, b: Val) {
    match (a, b)
    case (Price(x), Price(y)) => x <= y
    case (Time(x), Time(y)) => x <= y
    case _ => false
  }

  /** `v` lies within the bounds that are present. */
  predicate Within(v: Val, lo: Option<Val>, hi: Option<Val>) {
    (lo.Some? ==> Leq(lo.value, v)) && (hi.Some? ==> Leq(v, hi.value))
  }

  /** Trade `t` meets condition `c` on the field at path `key`. */
  predicate Holds(t: Trade, key: string, c: Cond) {
    if key == AssetClassKey then c.Eq? && t.assetClass == Some(c.text)
    else if key == SideKey then c.Eq? && t.tradeDetails.buySellIndicator == c.text
    else if key == PriceKey then c.Range? && Within(Price(t.tradeDetails.price), c.lo, c.hi)
    else if key == DateTimeKey then c.Range? && Within(Time(t.tradeDateTime), c.lo, c.hi)
    else false
  }

  /** A query is a conjunction: `t` matches when every key's condition holds. */
  predicate Matches(t: Trade, q: map<string, Cond>) {
    forall k :: k in q ==> Holds(t, k, q[k])
  }
}
