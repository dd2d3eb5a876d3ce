/**
 * Product prices.  A price is a JSON object whose `type` is `fixed` (with a
 * `value`), `byQuantity` (with `tiers`) or `byReason` (with a `base` and
 * `reasons`); the column may hold the object or its JSON text.  The product
 * forms build it, and the catalogue pages read it back into a label.
 */
module Pricing {
  import opened Wrappers
  import opened Json

  const FixedType: string := "fixed"
  const QuantityType: string := "byQuantity"
  const ReasonType: string := "byReason"

  /** The price object the product forms build from the selected type: `fixed` and
      `byQuantity` by name, anything else as `byReason`. */
  function PriceJson(priceType: string, fixedPrice: Json, tiers: Json, reasons: Json): (p: Json)
    ensures p.JObj? && "type" in p.fields
    ensures priceType == FixedType <==> p.fields["type"] == JStr(FixedType)
    ensures priceType == FixedType ==> p.fields == map["type" := JStr(FixedType), "value" := fixedPrice]
    ensures priceType == QuantityType ==> p.fields == map["type" := JStr(QuantityType), "tiers" := tiers]
    ensures priceType != FixedType && priceType != QuantityType ==>
      p.fields == map["type" := JStr(ReasonType), "base" := fixedPrice, "reasons" := reasons]
  {
    if priceType == FixedType then JObj(map["type" := JStr(FixedType), "value" := fixedPrice])
    else if priceType == QuantityType then JObj(map["type" := JStr(QuantityType), "tiers" := tiers])
    else JObj(map["type" := JStr(ReasonType), "base" := fixedPrice, "reasons" := reasons])
  }

  /** `parsed?.type === 'fixed'`. */
  predicate IsFixed(parsed: Json) {
    Get(Some(parsed), "type") == Some(JStr(FixedType))
  }

  /** `parsed.value || parsed.fixedPrice`. */
  function FixedValue(parsed: Json): Option<Json> {
    Or(Get(Some(parsed), "value"), Get(Some(parsed), "fixedPrice"))
  }

  /** The product card's label: the fixed amount with a euro sign, `variable €` for any other
      type and for a price whose text does not parse. */
  function CardLabel(rt: Runtime, price: Json): (text: string)
    ensures Coerce(rt, price).Returned? && IsFixed(Coerce(rt, price).value) ==>
      text == Render(FixedValue(Coerce(rt, price).value)) + " \U{20AC}"
    ensures !(Coerce(rt, price).Returned? && IsFixed(Coerce(rt, price).value)) ==> text == "variable \U{20AC}"
  {
    match Coerce(rt, price)
    case Threw => "variable \U{20AC}"
    case Returned(parsed) =>
      if IsFixed(parsed) then Render(FixedValue(parsed)) + " \U{20AC}" else "variable \U{20AC}"
  }

  /** `renderProductPrice` (favourites list and admin table): the fixed amount itself, else `var`. */
  function ShownPrice(rt: Runtime, price: Json): (shown: Option<Json>)
    ensures Coerce(rt, price).Returned? && IsFixed(Coerce(rt, price).value) ==>
      shown == FixedValue(Coerce(rt, price).value)
    ensures !(Coerce(rt, price).Returned? && IsFixed(Coerce(rt, price).value)) ==> shown == Some(JStr("var"))
  {
    match Coerce(rt, price)
    case Threw => Some(JStr("var"))
    case Returned(parsed) => if IsFixed(parsed) then FixedValue(parsed) else Some(JStr("var"))
  }

  /** A fixed price built by a form reads back as its amount, whether the column holds the
      object or a JSON text that parses to it. */
  lemma FixedPriceRoundTrip(rt: Runtime, amount: string, tiers: Json, reasons: Json, stored: Json)
    requires amount != ""
    requires stored == PriceJson(FixedType, JStr(amount), tiers, reasons)
      || (stored.JStr? && rt.parseJson(stored.s) == Some(PriceJson(FixedType, JStr(amount), tiers, reasons)))
    ensures CardLabel(rt, stored) == amount + " \U{20AC}"
    ensures ShownPrice(rt, stored) == Some(JStr(amount))
  {
    var p := PriceJson(FixedType, JStr(amount), tiers, reasons);
    assert Coerce(rt, stored) == Returned(p);
    assert Get(Some(p), "value") == Some(JStr(amount));
  }

  /** Every other price type reads back as variable. */
  lemma VariablePriceRoundTrip(rt: Runtime, priceType: string, base: Json, tiers: Json, reasons: Json)
    requires priceType != FixedType
    ensures CardLabel(rt, PriceJson(priceType, base, tiers, reasons)) == "variable \U{20AC}"
    ensures ShownPrice(rt, PriceJson(priceType, base, tiers, reasons)) == Some(JStr("var"))
  {
    var p := PriceJson(priceType, base, tiers, reasons);
    assert Get(Some(p), "type") != Some(JStr(FixedType));
  }

  /** A fixed price saved with an empty amount (the edit dialog does not insist on one) has
      no amount to show: the card reads "undefined €". */
  lemma EmptyFixedPriceShowsUndefined(rt: Runtime, tiers: Json, reasons: Json)
    ensures CardLabel(rt, PriceJson(FixedType, JStr(""), tiers, reasons)) == "undefined \U{20AC}"
  {
    var p := PriceJson(FixedType, JStr(""), tiers, reasons);
    assert Get(Some(p), "value") == Some(JStr(""));
    assert Get(Some(p), "fixedPrice") == None;
  }
}
