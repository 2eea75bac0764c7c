/**
 * The filter endpoint's query builder: six optional parameters become one
 * query over at most four field paths. Each bound pair is composed by
 * "replace, don't merge": a later write to the same key overwrites the
 * earlier one, so one combined range, one one-sided range, or no key at all
 * is left. Whether a parameter counts as given is decided by Python
 * truthiness, which is modelled by `Truthy`.
 */
module TradeFilter {
  import opened Options
  import opened Trades

  /** The six query parameters as received; `None` is a parameter left out of the request. */
  datatype FilterParams = FilterParams(
    assetClass: Option<string>,
    end: Option<int>,
    maxPrice: Option<real>,
    minPrice: Option<real>,
    start: Option<int>,
    tradeType: Option<string>)

  // ---------------------------------------------------------------------------
  // Python truthiness of each parameter kind
  // ---------------------------------------------------------------------------

  /** A string is truthy when given and non-empty. */
  predicate TextTruthy(s: Option<string>) {
    s.Some? && s.value != ""
  }

  /** A float is truthy when given and non-zero: a price of 0.0 reads as absent. */
  predicate PriceTruthy(x: Option<real>) {
    x.Some? && x.value != 0.0
  }

  /** A datetime is always truthy, so a date bound is present exactly when given. */
  predicate DateTruthy(d: Option<int>) {
    d.Some?
  }

  /** The parameters the handler's `if` tests treat as present; every other one becomes `None`. */
  function Truthy(p: FilterParams): (r: FilterParams)
    ensures r.assetClass.Some? <==> TextTruthy(p.assetClass)
    ensures r.tradeType.Some? <==> TextTruthy(p.tradeType)
    ensures r.minPrice.Some? <==> PriceTruthy(p.minPrice)
    ensures r.maxPrice.Some? <==> PriceTruthy(p.maxPrice)
    ensures r.start == p.start && r.end == p.end
    ensures r.assetClass.Some? ==> r.assetClass == p.assetClass
    ensures r.tradeType.Some? ==> r.tradeType == p.tradeType
    ensures r.minPrice.Some? ==> r.minPrice == p.minPrice
    ensures r.maxPrice.Some? ==> r.maxPrice == p.maxPrice
  {
    FilterParams(
      if TextTruthy(p.assetClass) then p.assetClass else None,
      p.end,
      if PriceTruthy(p.maxPrice) then p.maxPrice else None,
      if PriceTruthy(p.minPrice) then p.minPrice else None,
      p.start,
      if TextTruthy(p.tradeType) then p.tradeType else None)
  }

  // ---------------------------------------------------------------------------
  // Reference definition: the query that states every present parameter
  // ---------------------------------------------------------------------------

  function PriceBound(x: Option<real>): Option<Val> {
    if x.Some? then Some(Price(x.value)) else None
  }

  function TimeBound(x: Option<int>): Option<Val> {
    if x.Some? then Some(Time(x.value)) else None
  }

  /**
   * The query with one condition per present parameter: equality filters
   * verbatim, and each bound pair as a single range holding exactly the
   * bounds that are present.
   */
  function Query(p: FilterParams): (q: map<string, Cond>)
    ensures q.Keys <= FilterKeys
    ensures AssetClassKey in q <==> p.assetClass.Some?
    ensures SideKey in q <==> p.tradeType.Some?
    ensures PriceKey in q <==> p.minPrice.Some? || p.maxPrice.Some?
    ensures DateTimeKey in q <==> p.start.Some? || p.end.Some?
    ensures AssetClassKey in q ==> q[AssetClassKey] == Eq(p.assetClass.value)
    ensures SideKey in q ==> q[SideKey] == Eq(p.tradeType.value)
    ensures PriceKey in q ==> q[PriceKey] == Range(PriceBound(p.minPrice), PriceBound(p.maxPrice))
    ensures DateTimeKey in q ==> q[DateTimeKey] == Range(TimeBound(p.start), TimeBound(p.end))
  {
    var asset: map<string, Cond> :=
      if p.assetClass.Some? then map[AssetClassKey := Eq(p.assetClass.value)] else map[];
    var price :=
      if p.minPrice.Some? || p.maxPrice.Some?
      then asset[PriceKey := Range(PriceBound(p.minPrice), PriceBound(p.maxPrice))]
      else asset;
    var time :=
      if p.start.Some? || p.end.Some?
      then price[DateTimeKey := Range(TimeBound(p.start), TimeBound(p.end))]
      else price;
    if p.tradeType.Some? then time[SideKey := Eq(p.tradeType.value)] else time
  }

  /** What the parameters ask of a trade, read independently of any query document. */
  predicate Satisfies(t: Trade, p: FilterParams) {
    && (p.assetClass.Some? ==> t.assetClass == Some(p.assetClass.value))
    && (p.tradeType.Some? ==> t.tradeDetails.buySellIndicator == p.tradeType.value)
    && (p.minPrice.Some? ==> p.minPrice.value <= t.tradeDetails.price)
    && (p.maxPrice.Some? ==> t.tradeDetails.price <= p.maxPrice.value)
    && (p.start.Some? ==> p.start.value <= t.tradeDateTime)
    && (p.end.Some? ==> t.tradeDateTime <= p.end.value)
  }

  /** A trade matches the reference query exactly when it meets every given parameter. */
  lemma QueryMeaning(t: Trade, p: FilterParams)
    ensures Matches(t, Query(p)) <==> Satisfies(t, p)
  {
    var q := Query(p);
    if Satisfies(t, p) {
      forall k | k in q
        ensures Holds(t, k, q[k])
      {
        assert k in FilterKeys;
      }
    }
    if Matches(t, q) {
      if p.assetClass.Some? { assert Holds(t, AssetClassKey, q[AssetClassKey]); }
      if p.tradeType.Some? { assert Holds(t, SideKey, q[SideKey]); }
      if p.minPrice.Some? || p.maxPrice.Some? { assert Holds(t, PriceKey, q[PriceKey]); }
      if p.start.Some? || p.end.Some? { assert Holds(t, DateTimeKey, q[DateTimeKey]); }
    }
  }

  /** The given bounds of each pair are not inverted. */
  predicate Consistent(p: FilterParams) {
    && (p.minPrice.Some? && p.maxPrice.Some? ==> p.minPrice.value <= p.maxPrice.value)
    && (p.start.Some? && p.end.Some? ==> p.start.value <= p.end.value)
  }

  /**
   * A combined range is one conjunctive condition: the reference query can
   * select some trade exactly when neither bound pair is inverted.
   */
  lemma QuerySatisfiable(p: FilterParams)
    ensures (exists t :: Matches(t, Query(p))) <==> Consistent(p)
  {
    if Consistent(p) {
      var price := if p.minPrice.Some? then p.minPrice.value else p.maxPrice.GetOr(0.0);
      var time := if p.start.Some? then p.start.value else p.end.GetOr(0);
      var t := Trade(p.assetClass, None, "", "", time,
                     TradeDetails(p.tradeType.GetOr(""), price, 0), None, "");
      QueryMeaning(t, p);
      assert Matches(t, Query(p));
    }
    if t :| Matches(t, Query(p)) {
      QueryMeaning(t, p);
    }
  }

  // ---------------------------------------------------------------------------
  // The handler's construction, step by step
  // ---------------------------------------------------------------------------

  /**
   * Builds the query as the handler does: start from an empty map and let a
   * sequence of `if`s write keys, later writes replacing earlier ones.
   */
  method BuildFilter(p: FilterParams) returns (q: map<string, Cond>)
    ensures q == Query(Truthy(p))
    ensures q.Keys <= FilterKeys
    // equality filters: verbatim exactly when truthy
    ensures AssetClassKey in q <==> TextTruthy(p.assetClass)
    ensures AssetClassKey in q ==> q[AssetClassKey] == Eq(p.assetClass.value)
    ensures SideKey in q <==> TextTruthy(p.tradeType)
    ensures SideKey in q ==> q[SideKey] == Eq(p.tradeType.value)
    // price pair
    ensures !PriceTruthy(p.minPrice) && !PriceTruthy(p.maxPrice) ==> PriceKey !in q
    ensures !PriceTruthy(p.minPrice) && PriceTruthy(p.maxPrice) ==>
      PriceKey in q && q[PriceKey] == Range(None, Some(Price(p.maxPrice.value)))
    ensures PriceTruthy(p.minPrice) && PriceTruthy(p.maxPrice) ==>
      PriceKey in q && q[PriceKey] == Range(Some(Price(p.minPrice.value)), Some(Price(p.maxPrice.value)))
    ensures PriceTruthy(p.minPrice) && !PriceTruthy(p.maxPrice) ==>
      PriceKey in q && q[PriceKey] == Range(Some(Price(p.minPrice.value)), None)
    // date pair
    ensures p.start.None? && p.end.None? ==> DateTimeKey !in q
    ensures p.start.None? && p.end.Some? ==>
      DateTimeKey in q && q[DateTimeKey] == Range(None, Some(Time(p.end.value)))
    ensures p.start.Some? && p.end.Some? ==>
      DateTimeKey in q && q[DateTimeKey] == Range(Some(Time(p.start.value)), Some(Time(p.end.value)))
    ensures p.start.Some? && p.end.None? ==>
      DateTimeKey in q && q[DateTimeKey] == Range(Some(Time(p.start.value)), None)
  {
    q := map[];
    if TextTruthy(p.assetClass) {
      q := q[AssetClassKey := Eq(p.assetClass.value)];
    }
    if PriceTruthy(p.maxPrice) {
      q := q[PriceKey := Range(None, Some(Price(p.maxPrice.value)))];
    }
    if PriceTruthy(p.minPrice) && PriceTruthy(p.maxPrice) {
      q := q[PriceKey := Range(Some(Price(p.minPrice.value)), Some(Price(p.maxPrice.value)))];
    }
    if PriceTruthy(p.minPrice) && !PriceTruthy(p.maxPrice) {
      q := q[PriceKey := Range(Some(Price(p.minPrice.value)), None)];
    }
    if DateTruthy(p.end) {
      q := q[DateTimeKey := Range(None, Some(Time(p.end.value)))];
    }
    if DateTruthy(p.start) && DateTruthy(p.end) {
      q := q[DateTimeKey := Range(Some(Time(p.start.value)), Some(Time(p.end.value)))];
    }
    if DateTruthy(p.start) && !DateTruthy(p.end) {
      q := q[DateTimeKey := Range(Some(Time(p.start.value)), None)];
    }
    if TextTruthy(p.tradeType) {
      q := q[SideKey := Eq(p.tradeType.value)];
    }
  }

  // ---------------------------------------------------------------------------
  // Properties of the filter as written
  // ---------------------------------------------------------------------------

  /** The handler's query selects exactly the trades that meet its truthy parameters. */
  lemma FilterMeaning(t: Trade, p: FilterParams)
    ensures Matches(t, Query(Truthy(p))) <==> Satisfies(t, Truthy(p))
  {
    QueryMeaning(t, Truthy(p));
  }

  /** A zero price bound is indistinguishable from a missing one. */
  lemma ZeroPriceIsAbsent(p: FilterParams)
    ensures p.minPrice == Some(0.0) ==> Query(Truthy(p)) == Query(Truthy(p.(minPrice := None)))
    ensures p.maxPrice == Some(0.0) ==> Query(Truthy(p)) == Query(Truthy(p.(maxPrice := None)))
  {
  }

  /**
   * A maximum price of zero is dropped, so the handler's query accepts a
   * trade priced above it: the filter widens instead of narrowing.
   */
  lemma ZeroMaxPriceWidens(t: Trade)
    requires t.tradeDetails.price > 0.0
    ensures var p := FilterParams(None, None, Some(0.0), None, None, None);
      Matches(t, Query(Truthy(p))) && !Satisfies(t, p)
  {
    var p := FilterParams(None, None, Some(0.0), None, None, None);
    assert Truthy(p) == FilterParams(None, None, None, None, None, None);
    QueryMeaning(t, Truthy(p));
  }

  /**
   * Adding parameters only narrows: a trade that matches the query for `p2`
   * matches the query for any `p1` whose given parameters `p2` also gives.
   */
  predicate Extends(p2: FilterParams, p1: FilterParams) {
    && (p1.assetClass.Some? ==> p2.assetClass == p1.assetClass)
    && (p1.tradeType.Some? ==> p2.tradeType == p1.tradeType)
    && (p1.minPrice.Some? ==> p2.minPrice == p1.minPrice)
    && (p1.maxPrice.Some? ==> p2.maxPrice == p1.maxPrice)
    && (p1.start.Some? ==> p2.start == p1.start)
    && (p1.end.Some? ==> p2.end == p1.end)
  }

  lemma QueryNarrows(t: Trade, p1: FilterParams, p2: FilterParams)
    requires Extends(p2, p1)
    ensures Matches(t, Query(p2)) ==> Matches(t, Query(p1))
  {
    QueryMeaning(t, p1);
    QueryMeaning(t, p2);
  }

  /** The handler's query narrows the same way: giving more parameters never adds matches. */
  lemma FilterNarrows(t: Trade, p1: FilterParams, p2: FilterParams)
    requires Extends(p2, p1)
    ensures Matches(t, Query(Truthy(p2))) ==> Matches(t, Query(Truthy(p1)))
  {
    QueryNarrows(t, Truthy(p1), Truthy(p2));
  }
}
