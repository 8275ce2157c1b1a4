/**
 * The ProductImage document and its `setAsMainImage` operation, over an
 * in-memory store of images and products. The operation saves the receiver
 * with `isMain` set, clears the flag on every other image of the same
 * product one by one, and then points the product's `mainImage` at the
 * receiver.
 */
module ProductImageSchema {
  import opened Wrappers
  import opened Documents
  import ProductSchema

  datatype Image = Image(
    url: string,
    width: real,
    height: real,
    alt: string,
    title: string,
    product: Option<Id>,
    isMain: bool)

  /** The fields a new image is given; any of them may be left out. */
  datatype ImageInput = ImageInput(
    url: Option<string>,
    width: Option<real>,
    height: Option<real>,
    alt: Option<string>,
    title: Option<string>,
    product: Option<Id>,
    isMain: Option<bool>)

  const DefaultSize: real := 100.0

  /** The document built from `input`, with the schema's defaults for what is left out. */
  function Construct(input: ImageInput): (img: Image)
    ensures input.width.None? ==> img.width == 100.0
    ensures input.height.None? ==> img.height == 100.0
    ensures input.alt.None? ==> img.alt == ""
    ensures input.title.None? ==> img.title == ""
    ensures input.isMain.None? ==> !img.isMain
    ensures input.url.Some? ==> img.url == input.url.value
    ensures input.width.Some? ==> img.width == input.width.value
    ensures input.height.Some? ==> img.height == input.height.value
    ensures input.alt.Some? ==> img.alt == input.alt.value
    ensures input.title.Some? ==> img.title == input.title.value
    ensures input.isMain.Some? ==> img.isMain == input.isMain.value
    ensures img.product == input.product
  {
    Image(
      input.url.GetOr(""),
      input.width.GetOr(DefaultSize),
      input.height.GetOr(DefaultSize),
      input.alt.GetOr(""),
      input.title.GetOr(""),
      input.product,
      input.isMain.GetOr(false))
  }

  /** What saving an image checks: only that `url` is present. */
  predicate Valid(img: Image) {
    RequiredString(img.url)
  }

  /** A new image is valid exactly when a non-empty `url` is given. */
  lemma ConstructValid(input: ImageInput)
    ensures Valid(Construct(input)) <==> input.url.Some? && input.url.value != ""
  {
  }

  /** The images `find` returns: every stored image other than `self` with the same product. */
  function Siblings(images: map<Id, Image>, self: Id, product: Option<Id>): set<Id> {
    set k | k in images && k != self && images[k].product == product
  }

  /** The image store after `setAsMainImage` on `doc` stored under `self`. */
  function MarkedMain(images: map<Id, Image>, self: Id, doc: Image): map<Id, Image> {
    map k | k in images.Keys + {self} ::
      if k == self then doc.(isMain := true)
      else if images[k].product == doc.product then images[k].(isMain := false)
      else images[k]
  }

  /** A store that agrees with `MarkedMain` key by key is `MarkedMain`. */
  lemma MarkedMainByKeys(images: map<Id, Image>, self: Id, doc: Image, result: map<Id, Image>)
    requires result.Keys == images.Keys + {self}
    requires result[self] == doc.(isMain := true)
    requires forall k :: k in result && k != self ==>
      result[k] == if images[k].product == doc.product then images[k].(isMain := false) else images[k]
    ensures result == MarkedMain(images, self, doc)
  {
  }

  /** The product store after `setAsMainImage`: the owning product, when there is one and it is
      stored, points at `self`. */
  function Repointed(products: map<Id, ProductSchema.Product>, owner: Option<Id>, self: Id): map<Id, ProductSchema.Product> {
    if owner.Some? && owner.value in products then
      products[owner.value := products[owner.value].(mainImage := Some(self))]
    else
      products
  }

  /** The receiver is stored with `isMain` set, and otherwise as given. */
  lemma ReceiverIsMain(images: map<Id, Image>, self: Id, doc: Image)
    ensures self in MarkedMain(images, self, doc)
    ensures MarkedMain(images, self, doc)[self] == doc.(isMain := true)
  {
  }

  /** No image is added except the receiver, and none is removed. */
  lemma SameImages(images: map<Id, Image>, self: Id, doc: Image)
    ensures MarkedMain(images, self, doc).Keys == images.Keys + {self}
  {
  }

  /** Every other image of the receiver's product has its flag cleared, and nothing else of it changes. */
  lemma SiblingsCleared(images: map<Id, Image>, self: Id, doc: Image, k: Id)
    requires k in images && k != self && images[k].product == doc.product
    ensures MarkedMain(images, self, doc)[k] == images[k].(isMain := false)
  {
  }

  /** Images of other products are untouched. */
  lemma OtherProductsUntouched(images: map<Id, Image>, self: Id, doc: Image, k: Id)
    requires k in images && k != self && images[k].product != doc.product
    ensures MarkedMain(images, self, doc)[k] == images[k]
  {
  }

  /** Among the images of the receiver's product, exactly one is flagged main, and it is the receiver. */
  lemma ExactlyOneMain(images: map<Id, Image>, self: Id, doc: Image)
    ensures var r := MarkedMain(images, self, doc);
      (set k | k in r && r[k].product == doc.product && r[k].isMain) == {self}
  {
    var r := MarkedMain(images, self, doc);
    var flagged := set k | k in r && r[k].product == doc.product && r[k].isMain;
    assert self in flagged;
  }

  /** The owning product, when stored, points at the receiver; no other product changes,
      and no product is added or removed. */
  lemma ProductRepointed(products: map<Id, ProductSchema.Product>, owner: Option<Id>, self: Id)
    ensures Repointed(products, owner, self).Keys == products.Keys
    ensures owner.Some? && owner.value in products ==>
      Repointed(products, owner, self)[owner.value] == products[owner.value].(mainImage := Some(self))
    ensures forall p :: p in products && Some(p) != owner ==> Repointed(products, owner, self)[p] == products[p]
  {
  }

  /** The invariant the operation establishes: when the receiver's product is stored, exactly one
      of its images is flagged main, and it is the image the product's `mainImage` points to. */
  lemma MainImageConsistent(images: map<Id, Image>, products: map<Id, ProductSchema.Product>, self: Id, doc: Image)
    requires doc.product.Some? && doc.product.value in products
    ensures var r := MarkedMain(images, self, doc);
      var ps := Repointed(products, doc.product, self);
      ps[doc.product.value].mainImage == Some(self)
      && (forall k :: k in r && r[k].product == doc.product ==> (r[k].isMain <==> Some(k) == ps[doc.product.value].mainImage))
  {
    ExactlyOneMain(images, self, doc);
    var r := MarkedMain(images, self, doc);
    forall k | k in r && r[k].product == doc.product
      ensures r[k].isMain <==> k == self
    {
      if k != self {
        SiblingsCleared(images, self, doc, k);
      }
    }
  }

  /** Setting the same image as main twice leaves the stores as setting it once. */
  lemma Idempotent(images: map<Id, Image>, products: map<Id, ProductSchema.Product>, self: Id, doc: Image)
    ensures MarkedMain(MarkedMain(images, self, doc), self, doc) == MarkedMain(images, self, doc)
    ensures Repointed(Repointed(products, doc.product, self), doc.product, self) == Repointed(products, doc.product, self)
  {
    var once := MarkedMain(images, self, doc);
    var twice := MarkedMain(once, self, doc);
    assert twice.Keys == once.Keys;
    forall k | k in once ensures twice[k] == once[k] {
      if k != self && once[k].product == doc.product {
        assert once[k] == images[k].(isMain := false);
      }
    }
  }

  /** Validity of every stored image survives the operation, given a valid receiver. */
  lemma ValidityPreserved(images: map<Id, Image>, self: Id, doc: Image)
    requires forall k :: k in images ==> Valid(images[k])
    requires Valid(doc)
    ensures var r := MarkedMain(images, self, doc); forall k :: k in r ==> Valid(r[k])
  {
  }

  /** The persistent store: the images and products collections. */
  class Catalog {
    var images: map<Id, Image>
    var products: map<Id, ProductSchema.Product>

    /** Every stored image passed validation when it was saved. */
    ghost predicate Stored()
      reads this
    {
      forall k :: k in images ==> Valid(images[k])
    }

    constructor(images: map<Id, Image>, products: map<Id, ProductSchema.Product>)
      ensures this.images == images && this.products == products
    {
      this.images := images;
      this.products := products;
    }

    /**
     * `setAsMainImage` on the in-memory document `doc` whose id is `self`.
     * The first save validates the receiver: if it fails, the operation
     * stops there and nothing is written (`saved` is false).
     */
    method SetAsMainImage(self: Id, doc: Image) returns (saved: bool)
      modifies this
      ensures saved <==> Valid(doc)
      ensures !saved ==> images == old(images) && products == old(products)
      ensures saved ==> images == MarkedMain(old(images), self, doc)
      ensures saved ==> products == Repointed(old(products), doc.product, self)
      ensures old(Stored()) ==> Stored()
    {
      var marked := doc.(isMain := true);
      if !Valid(marked) {
        return false;
      }
      images := images[self := marked];
      var others := Siblings(images, self, doc.product);
      var todo := others;
      while todo != {}
        invariant todo <= others
        invariant images.Keys == old(images).Keys + {self}
        invariant images[self] == marked
        invariant products == old(products)
        invariant forall k :: k in images && k != self ==>
          images[k] == if k in others && k !in todo then old(images)[k].(isMain := false) else old(images)[k]
        decreases todo
      {
        var k :| k in todo;
        assert k in images && k != self;
        images := images[k := images[k].(isMain := false)];
        todo := todo - {k};
      }
      MarkedMainByKeys(old(images), self, doc, images);
      if old(Stored()) {
        ValidityPreserved(old(images), self, doc);
      }
      if doc.product.Some? && doc.product.value in products {
        var owner := doc.product.value;
        products := products[owner := products[owner].(mainImage := Some(self))];
      }
      saved := true;
    }
  }
}
