/**
 * The brand handlers over an in-memory collection: create, update, remove,
 * getAll and getById, each giving the first response it sends. The Brand
 * record itself (a required name and a list of product references) is
 * declared here.
 */
module BrandController {
  import opened Wrappers
  import opened Documents
  import opened Joi
  import opened Http
  import opened Populate
  import BrandDto
  import ProductSchema

  datatype Brand = Brand(name: string, products: seq<Id>)

  /** What saving a brand checks: only that `name` is present. */
  predicate Valid(b: Brand) {
    RequiredString(b.name)
  }

  /** A brand as getAll and getById present it. */
  datatype BrandView = BrandView(id: Id, name: string, products: seq<ProductRef>)

  /** A response's `data`: a stored document, or its presentation. */
  datatype Payload = Document(id: Id, brand: Brand) | View(view: BrandView)

  type BrandReply = Reply<Payload, BrandView>

  /** The options the update handler passes to the validator. */
  const UpdateOptions := Options(abortEarly := false, allowUnknown := true)

  /** The response remove sends once the delete has run. */
  const Deleted: BrandReply := Reply(OK, Says("Brand deleted"), None, None, None, Some("Remove"), Some("Success"))

  /** `new Brand(value)`: `products` defaults to []. */
  function FromValue(value: map<string, Value>): Brand {
    Brand(TextOf(value, "name").GetOr(""), [])
  }

  /** The update `findByIdAndUpdate` applies: the value's name replaces the stored one. */
  function Merge(b: Brand, value: map<string, Value>): Brand {
    b.(name := TextOf(value, "name").GetOr(b.name))
  }

  function Project(id: Id, b: Brand, products: map<Id, ProductSchema.Product>): BrandView {
    BrandView(id, b.name, ProductRefs(b.products, products))
  }

  /** The rows of getAll, one per stored brand in collection order. */
  function Views(order: seq<Id>, brands: map<Id, Brand>, products: map<Id, ProductSchema.Product>): (rows: seq<BrandView>)
    requires forall i :: 0 <= i < |order| ==> order[i] in brands
    ensures |rows| == |order|
    ensures forall i :: 0 <= i < |order| ==> rows[i] == Project(order[i], brands[order[i]], products)
    decreases |order|
  {
    if order == [] then []
    else [Project(order[0], brands[order[0]], products)] + Views(order[1..], brands, products)
  }

  /** What create stores for an accepted body: a valid brand with the body's name and no products. */
  lemma CreatedBrand(body: Body)
    requires Validate(BrandDto.CreateBrand, body, Defaults).Accepted?
    ensures var b := FromValue(Validate(BrandDto.CreateBrand, body, Defaults).value);
      Valid(b) && Lookup(body, "name") == Some(Text(b.name)) && b.products == []
  {
    BrandDto.AcceptedName(BrandDto.CreateBrand, body, Defaults);
  }

  /** An accepted update replaces the name with the body's and keeps the product list. */
  lemma UpdatedBrand(b: Brand, body: Body)
    requires Validate(BrandDto.UpdateBrand, body, UpdateOptions).Accepted?
    ensures var r := Merge(b, Validate(BrandDto.UpdateBrand, body, UpdateOptions).value);
      Valid(r) && Lookup(body, "name") == Some(Text(r.name)) && r.products == b.products
  {
    BrandDto.AcceptedName(BrandDto.UpdateBrand, body, UpdateOptions);
  }

  /** The brand collection, with the products it references. */
  class Controller {
    var brands: map<Id, Brand>
    /** The collection's natural order, in which `find()` returns the documents. */
    var order: seq<Id>
    /** The id the next created brand receives. */
    var nextId: Id
    var products: map<Id, ProductSchema.Product>

    ghost predicate Valid()
      reads this
    {
      && Increasing(order)
      && Elements(order) == brands.Keys
      && (forall id :: id in brands ==> id < nextId)
    }

    constructor(products: map<Id, ProductSchema.Product>)
      ensures Valid()
      ensures brands == map[] && order == [] && this.products == products
    {
      brands := map[];
      order := [];
      nextId := 0;
      this.products := products;
    }

    /** `new Brand(value)` and `save()`: the document joins the collection under a fresh id. */
    method Save(value: map<string, Value>) returns (id: Id, b: Brand)
      requires Valid()
      modifies this
      ensures Valid() && products == old(products)
      ensures id == old(nextId) && id !in old(brands) && b == FromValue(value)
      ensures brands == old(brands)[id := b] && order == old(order) + [id] && nextId == old(nextId) + 1
    {
      b := FromValue(value);
      id := nextId;
      AppendIncreasing(order, id);
      brands := brands[id := b];
      order := order + [id];
      nextId := nextId + 1;
      assert brands.Keys == old(brands).Keys + {id};
    }

    /** POST /brands. */
    method Create(payload: RequestBody) returns (r: BrandReply)
      requires Valid()
      modifies this
      ensures Valid() && products == old(products)
      ensures payload.JsonArray? ==> r == Plain(BAD_REQUEST, NotAnObject) && brands == old(brands)
      ensures var v := ValidateRequest(BrandDto.CreateBrand, payload, Defaults);
        v.Rejected? ==>
          && r == Plain(BAD_REQUEST, v.details[0].message)
          && brands == old(brands) && order == old(order) && nextId == old(nextId)
      ensures var v := ValidateRequest(BrandDto.CreateBrand, payload, Defaults);
        v.Accepted? ==>
          && old(nextId) !in old(brands)
          && r == Reply(CREATED, Says("Brand created"), Some(Document(old(nextId), FromValue(v.value))), None, None, None, None)
          && brands == old(brands)[old(nextId) := FromValue(v.value)]
          && order == old(order) + [old(nextId)]
          && nextId == old(nextId) + 1
    {
      var v := ValidateRequest(BrandDto.CreateBrand, payload, Defaults);
      if v.Rejected? {
        return Plain(BAD_REQUEST, v.details[0].message);
      }
      var id, b := Save(v.value);
      r := Reply(CREATED, Says("Brand created"), Some(Document(id, b)), None, None, None, None);
    }

    /** `findByIdAndUpdate(id, value)`. */
    method FindByIdAndUpdate(id: Id, value: map<string, Value>) returns (b: Brand)
      requires Valid() && id in brands
      modifies this
      ensures Valid() && order == old(order) && nextId == old(nextId) && products == old(products)
      ensures b == Merge(old(brands)[id], value) && brands == old(brands)[id := b]
    {
      b := Merge(brands[id], value);
      brands := brands[id := b];
      assert brands.Keys == old(brands).Keys;
    }

    /** PUT /brands/:id. */
    method Update(id: Id, payload: RequestBody) returns (r: BrandReply)
      requires Valid()
      modifies this
      ensures Valid() && order == old(order) && nextId == old(nextId) && products == old(products)
      ensures id !in old(brands) ==>
        r == Plain(NOT_FOUND, "Brand not found") && brands == old(brands)
      ensures id in old(brands) && payload.JsonArray? ==>
        r == Reply(BAD_REQUEST, Lists([NotAnObject]), None, None, None, None, None) && brands == old(brands)
      ensures var v := ValidateRequest(BrandDto.UpdateBrand, payload, UpdateOptions);
        id in old(brands) && v.Rejected? ==>
          && r == Reply(BAD_REQUEST, Lists(MessagesOf(v.details)), None, None, None, None, None)
          && brands == old(brands)
      ensures var v := ValidateRequest(BrandDto.UpdateBrand, payload, UpdateOptions);
        id in old(brands) && v.Accepted? ==>
          var b := Merge(old(brands)[id], v.value);
          && r == Reply(OK, Says("Brand updated"), Some(Document(id, b)), None, None, None, None)
          && brands == old(brands)[id := b]
    {
      if id !in brands {
        return Plain(NOT_FOUND, "Brand not found");
      }
      var v := ValidateRequest(BrandDto.UpdateBrand, payload, UpdateOptions);
      if v.Rejected? {
        assert payload.JsonArray? ==> MessagesOf(v.details) == [NotAnObject];
        return Reply(BAD_REQUEST, Lists(MessagesOf(v.details)), None, None, None, None, None);
      }
      var b := FindByIdAndUpdate(id, v.value);
      r := Reply(OK, Says("Brand updated"), Some(Document(id, b)), None, None, None, None);
    }

    /** `findByIdAndDelete(id)`: removes the id if stored, and does nothing otherwise. */
    method FindByIdAndDelete(id: Id)
      requires Valid()
      modifies this
      ensures Valid() && nextId == old(nextId) && products == old(products)
      ensures brands == old(brands) - {id} && order == Without(old(order), id)
    {
      WithoutIncreasing(order, id);
      brands := brands - {id};
      order := Without(order, id);
    }

    /**
     * DELETE /brands/:id as written: the lookup is not awaited, so what the
     * guard tests is a pending query, which is always truthy. The not-found
     * branch never runs, and every id is answered 200.
     */
    method Remove(id: Id) returns (r: BrandReply)
      requires Valid()
      modifies this
      ensures Valid() && nextId == old(nextId) && products == old(products)
      ensures r == Deleted
      ensures brands == old(brands) - {id} && order == Without(old(order), id)
    {
      FindByIdAndDelete(id);
      r := Deleted;
    }

    /** DELETE /brands/:id with the lookup awaited: a missing id is answered 404, as in the
        category handler. */
    method RemoveChecked(id: Id) returns (r: BrandReply)
      requires Valid()
      modifies this
      ensures Valid() && nextId == old(nextId) && products == old(products)
      ensures id !in old(brands) ==>
        r == Plain(NOT_FOUND, "Brand not found") && brands == old(brands) && order == old(order)
      ensures id in old(brands) ==>
        r == Deleted && brands == old(brands) - {id} && order == Without(old(order), id)
    {
      if id !in brands {
        return Plain(NOT_FOUND, "Brand not found");
      }
      FindByIdAndDelete(id);
      r := Deleted;
    }

    /** GET /brands: every brand projected, with `count` the number of rows, which is the number
        of stored brands. */
    method GetAll() returns (r: BrandReply)
      requires Valid()
      ensures |brands| == 0 ==> r == Reply(NOT_FOUND, Says("Any brands not found"), None, None, Some(0), None, None)
      ensures |brands| > 0 ==>
        && r == Reply(OK, Says("Brands fetched"), None, Some(Views(order, brands, products)), Some(|brands|), None, None)
        && |r.rows.value| == |brands|
    {
      IncreasingCard(order);
      assert |Elements(order)| == |brands.Keys|;
      if |order| < 1 {
        return Reply(NOT_FOUND, Says("Any brands not found"), None, None, Some(0), None, None);
      }
      assert forall i :: 0 <= i < |order| ==> order[i] in Elements(order);
      var rows := Views(order, brands, products);
      r := Reply(OK, Says("Brands fetched"), None, Some(rows), Some(|rows|), None, None);
    }

    /** GET /brands/:id. */
    method GetById(id: Id) returns (r: BrandReply)
      ensures id !in brands ==> r == Plain(NOT_FOUND, "Brand not found")
      ensures id in brands ==>
        r == Reply(OK, Says("Brand fetched"), Some(View(Project(id, brands[id], products))), None, None, None, None)
    {
      if id !in brands {
        return Plain(NOT_FOUND, "Brand not found");
      }
      r := Reply(OK, Says("Brand fetched"), Some(View(Project(id, brands[id], products))), None, None, None, None);
    }
  }

  /** Removing from an empty collection, where no brand can be found, still answers
      200 'Brand deleted' with operation 'Remove' and status 'Success'. */
  method RemoveOfMissingBrand() returns (r: BrandReply)
    ensures r.code == OK && r.message == Says("Brand deleted")
    ensures r.operation == Some("Remove") && r.status == Some("Success")
  {
    var store := new Controller(map[]);
    r := store.Remove(0);
  }

  /** With the lookup awaited, the same request is answered 404. */
  method RemoveCheckedOfMissingBrand() returns (r: BrandReply)
    ensures r.code == NOT_FOUND && r.message == Says("Brand not found")
  {
    var store := new Controller(map[]);
    r := store.RemoveChecked(0);
  }
}
