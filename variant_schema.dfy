/**
 * The Variant subdocument embedded in a Product: two required strings, a
 * price modifier defaulting to 0, and a required quantity between 0 and 255
 * that defaults to 0.
 */
module VariantSchema {
  import opened Wrappers
  import opened Documents

  datatype Variant = Variant(optionName: string, optionValue: string, priceModifier: real, quantity: real)

  /** The fields a new variant is given; any of them may be left out. */
  datatype VariantInput = VariantInput(
    optionName: Option<string>,
    optionValue: Option<string>,
    priceModifier: Option<real>,
    quantity: Option<real>)

  const MinQuantity: real := 0.0
  const MaxQuantity: real := 255.0

  /** The document built from `input`: defaults stand in for what is left out
      (a left-out string stays empty, which the required check refuses). */
  function Construct(input: VariantInput): (v: Variant)
    ensures input.priceModifier.None? ==> v.priceModifier == 0.0
    ensures input.quantity.None? ==> v.quantity == 0.0
    ensures input.priceModifier.Some? ==> v.priceModifier == input.priceModifier.value
    ensures input.quantity.Some? ==> v.quantity == input.quantity.value
    ensures input.optionName.Some? ==> v.optionName == input.optionName.value
    ensures input.optionValue.Some? ==> v.optionValue == input.optionValue.value
  {
    Variant(
      input.optionName.GetOr(""),
      input.optionValue.GetOr(""),
      input.priceModifier.GetOr(0.0),
      input.quantity.GetOr(0.0))
  }

  /** What saving a variant checks: both option strings present, quantity within 0..255. */
  predicate Valid(v: Variant) {
    RequiredString(v.optionName) && RequiredString(v.optionValue)
    && MinQuantity <= v.quantity <= MaxQuantity
  }

  /** A new variant is valid exactly when both option strings are given non-empty and any
      quantity given lies in 0..255; a left-out quantity is always valid, being 0. */
  lemma ConstructValid(input: VariantInput)
    ensures Valid(Construct(input)) <==>
      input.optionName.Some? && input.optionName.value != ""
      && input.optionValue.Some? && input.optionValue.value != ""
      && (input.quantity.Some? ==> 0.0 <= input.quantity.value <= 255.0)
  {
  }
}
