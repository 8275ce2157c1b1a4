/**
 * The Product document: required name, description, brand and category,
 * defaults for the rest, a non-negative price and a list of embedded
 * variants. `dateCreated` is not part of this model.
 */
module ProductSchema {
  import opened Wrappers
  import opened Documents
  import VariantSchema

  datatype Product = Product(
    name: string,
    description: string,
    richDescription: string,
    images: seq<Id>,
    mainImage: Option<Id>,
    brand: Option<Id>,
    category: Option<Id>,
    price: real,
    variants: seq<VariantSchema.Variant>,
    rating: real,
    numReviews: real,
    isFeatured: bool)

  /** The fields a new product is given; any of them may be left out. */
  datatype ProductInput = ProductInput(
    name: Option<string>,
    description: Option<string>,
    richDescription: Option<string>,
    images: Option<seq<Id>>,
    mainImage: Option<Id>,
    brand: Option<Id>,
    category: Option<Id>,
    price: Option<real>,
    variants: Option<seq<VariantSchema.VariantInput>>,
    rating: Option<real>,
    numReviews: Option<real>,
    isFeatured: Option<bool>)

  const MinPrice: real := 0.0

  function Variants(inputs: seq<VariantSchema.VariantInput>): (vs: seq<VariantSchema.Variant>)
    ensures |vs| == |inputs| && forall i :: 0 <= i < |inputs| ==> vs[i] == VariantSchema.Construct(inputs[i])
  {
    if inputs == [] then [] else [VariantSchema.Construct(inputs[0])] + Variants(inputs[1..])
  }

  /** The document built from `input`, with the schema's defaults for what is left out. */
  function Construct(input: ProductInput): (p: Product)
    ensures input.richDescription.None? ==> p.richDescription == ""
    ensures input.price.None? ==> p.price == 0.0
    ensures input.rating.None? ==> p.rating == 0.0
    ensures input.numReviews.None? ==> p.numReviews == 0.0
    ensures input.isFeatured.None? ==> !p.isFeatured
    ensures input.images.None? ==> p.images == []
    ensures input.variants.None? ==> p.variants == []
    ensures input.name.Some? ==> p.name == input.name.value
    ensures input.description.Some? ==> p.description == input.description.value
    ensures input.richDescription.Some? ==> p.richDescription == input.richDescription.value
    ensures input.price.Some? ==> p.price == input.price.value
    ensures input.rating.Some? ==> p.rating == input.rating.value
    ensures input.numReviews.Some? ==> p.numReviews == input.numReviews.value
    ensures input.isFeatured.Some? ==> p.isFeatured == input.isFeatured.value
    ensures input.images.Some? ==> p.images == input.images.value
    ensures input.variants.Some? ==> p.variants == Variants(input.variants.value)
    ensures p.mainImage == input.mainImage && p.brand == input.brand && p.category == input.category
  {
    Product(
      input.name.GetOr(""),
      input.description.GetOr(""),
      input.richDescription.GetOr(""),
      input.images.GetOr([]),
      input.mainImage,
      input.brand,
      input.category,
      input.price.GetOr(0.0),
      Variants(input.variants.GetOr([])),
      input.rating.GetOr(0.0),
      input.numReviews.GetOr(0.0),
      input.isFeatured.GetOr(false))
  }

  /** What saving a product checks. */
  predicate Valid(p: Product) {
    && RequiredString(p.name)
    && RequiredString(p.description)
    && p.brand.Some?
    && p.category.Some?
    && p.price >= MinPrice
    && forall i :: 0 <= i < |p.variants| ==> VariantSchema.Valid(p.variants[i])
  }

  /** A new product is valid exactly when name and description are given non-empty, brand and
      category are given, any price given is at least 0, and every variant given is valid. */
  lemma ConstructValid(input: ProductInput)
    ensures Valid(Construct(input)) <==>
      && input.name.Some? && input.name.value != ""
      && input.description.Some? && input.description.value != ""
      && input.brand.Some? && input.category.Some?
      && (input.price.Some? ==> input.price.value >= 0.0)
      && (input.variants.Some? ==>
            forall i :: 0 <= i < |input.variants.value| ==> VariantSchema.Valid(VariantSchema.Construct(input.variants.value[i])))
  {
  }
}
