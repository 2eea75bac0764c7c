/**
 * The list endpoint's sort resolution: an optional sortable field and an
 * order in {"Des", "Asc"} (default "Des") become either no ordering or one
 * (field, direction) pair. Descending order is encoded by prefixing the
 * field with "-" and decoded again by stripping it.
 */
module TradeSort {
  import opened Options

  datatype Direction = Ascending | Descending

  /** The field names the list endpoint accepts for `sort`. */
  const SortableFields: seq<string> := [
    "asset_class", "counterparty", "instrument_id", "instrument_name", "trade_date_time",
    "trade_details.buySellIndicator", "trade_details.price", "trade_details.quantity",
    "trade_id", "trader"]

  /** The value `order` takes when the request leaves it out. */
  const DefaultOrder: string := "Des"

  predicate DashPrefixed(s: string) {
    |s| > 0 && s[0] == '-'
  }

  /**
   * The ordering the handler passes to the store. A missing or empty field
   * gives none; otherwise the field is prefixed with "-" for "Des", and a
   * prefixed key is read back as a descending sort on the rest of the key.
   */
  function ResolveSort(sort: Option<string>, order: Option<string>): (r: Option<(string, Direction)>)
    ensures r.None? <==> sort.None? || sort.value == ""
    ensures r.Some? && !DashPrefixed(sort.value) ==>
      r.value == (sort.value, if order.GetOr(DefaultOrder) == "Des" then Descending else Ascending)
    ensures r.Some? && DashPrefixed(sort.value) ==>
      r.value == (if order.GetOr(DefaultOrder) == "Des" then sort.value else sort.value[1..], Descending)
  {
    if sort.None? || sort.value == "" then None
    else
      var key := if order.GetOr(DefaultOrder) == "Des" then "-" + sort.value else sort.value;
      if DashPrefixed(key) then Some((key[1..], Descending)) else Some((key, Ascending))
  }

  /** No sortable field name starts with "-", so the prefix never collides with a caller's field. */
  lemma SortableFieldsUnprefixed(f: string)
    requires f in SortableFields
    ensures f != "" && !DashPrefixed(f)
  {
  }

  /** The order string that asks for a direction. */
  function OrderFor(d: Direction): (o: string)
    ensures o in {"Des", "Asc"}
    ensures o == "Des" <==> d == Descending
  {
    if d == Descending then "Des" else "Asc"
  }

  /**
   * For every sortable field, the resolved pair is the caller's own field
   * with the direction the order names; the second clause is the
   * default-order instance: descending when no order is given.
   */
  lemma ResolveSortableField(f: string, order: Option<string>)
    requires f in SortableFields
    ensures ResolveSort(Some(f), order) ==
      Some((f, if order.GetOr(DefaultOrder) == "Des" then Descending else Ascending))
    ensures ResolveSort(Some(f), None) == Some((f, Descending))
  {
    SortableFieldsUnprefixed(f);
  }

  /** Asking for a direction by its order string resolves to that direction. */
  lemma ResolveSortRoundTrip(f: string, d: Direction)
    requires f in SortableFields
    ensures ResolveSort(Some(f), Some(OrderFor(d))) == Some((f, d))
  {
    ResolveSortableField(f, Some(OrderFor(d)));
  }

  /**
   * The field enumeration is what keeps the promise: a field that already
   * starts with "-" is read as descending whatever order is asked, and under
   * any order other than "Des" it loses its first character.
   */
  lemma PrefixedKeyReadsDescending(f: string, order: Option<string>)
    requires DashPrefixed(f)
    ensures ResolveSort(Some(f), order) ==
      Some((if order.GetOr(DefaultOrder) == "Des" then f else f[1..], Descending))
  {
  }
}
