/**
 * The category handlers over an in-memory collection: create, update,
 * remove, getAll and getById, each giving the first response it sends.
 */
module CategoryController {
  import opened Wrappers
  import opened Documents
  import opened Joi
  import opened Http
  import opened Populate
  import opened CategorySchema
  import CategoryDto
  import ProductSchema

  /** A category as getAll and getById present it. */
  datatype CategoryView = CategoryView(
    id: Id,
    name: string,
    icon: Option<string>,
    color: Option<string>,
    image: string,
    products: seq<ProductRef>)

  /** A response's `data`: a stored document, or its presentation. */
  datatype Payload = Document(id: Id, category: Category) | View(view: CategoryView)

  type CategoryReply = Reply<Payload, CategoryView>

  /** The options the update handler passes to the validator. */
  const UpdateOptions := Options(abortEarly := false, allowUnknown := true)

  /** `new Category(value)`. */
  function FromValue(value: map<string, Value>): Category {
    Construct(CategoryInput(TextOf(value, "name"), TextOf(value, "icon"), TextOf(value, "color"), TextOf(value, "image"), None))
  }

  /** The update `findByIdAndUpdate` applies: each declared key the value carries replaces that field. */
  function Merge(c: Category, value: map<string, Value>): Category {
    Category(
      TextOf(value, "name").GetOr(c.name),
      if TextOf(value, "icon").Some? then TextOf(value, "icon") else c.icon,
      if TextOf(value, "color").Some? then TextOf(value, "color") else c.color,
      TextOf(value, "image").GetOr(c.image),
      c.products)
  }

  function Project(id: Id, c: Category, products: map<Id, ProductSchema.Product>): CategoryView {
    CategoryView(id, c.name, c.icon, c.color, c.image, ProductRefs(c.products, products))
  }

  /** The rows of getAll, one per stored category in collection order. */
  function Views(order: seq<Id>, categories: map<Id, Category>, products: map<Id, ProductSchema.Product>): (rows: seq<CategoryView>)
    requires forall i :: 0 <= i < |order| ==> order[i] in categories
    ensures |rows| == |order|
    ensures forall i :: 0 <= i < |order| ==> rows[i] == Project(order[i], categories[order[i]], products)
    decreases |order|
  {
    if order == [] then []
    else [Project(order[0], categories[order[0]], products)] + Views(order[1..], categories, products)
  }

  /** What create stores for a value validated from `body`: a valid category with the body's
      name, the body's image or '', no products, and a non-blank colour that is the body's own
      when that was not blank. */
  lemma CreatedCategory(body: Body, value: map<string, Value>, draw: nat)
    requires draw < ColorRange && CategoryDto.CreateValueOf(body, value)
    ensures var c := WithDefaultColor(FromValue(value), draw);
      && CategorySchema.Valid(c)
      && Lookup(body, "name") == Some(Text(c.name))
      && Lookup(body, "image").GetOr(Text("")) == Text(c.image)
      && c.products == []
      && c.color.Some? && !IsBlank(c.color.value)
      && (Lookup(body, "color").Some? && !IsBlank(Lookup(body, "color").value.s) ==>
            Lookup(body, "color") == Some(Text(c.color.value)))
  {
    ColorPresentAfterHook(FromValue(value), draw);
  }

  /** An accepted update sets the name, replaces each of icon, color and image the body supplies,
      and keeps every other field. */
  lemma UpdatedCategory(c: Category, body: Body, value: map<string, Value>)
    requires CategoryDto.UpdateValueOf(body, value)
    ensures var r := Merge(c, value);
      && Lookup(body, "name") == Some(Text(r.name))
      && (Lookup(body, "icon").Some? ==> Lookup(body, "icon") == Some(Text(r.icon.value)))
      && (Lookup(body, "icon").None? ==> r.icon == c.icon)
      && (Lookup(body, "color").Some? ==> Lookup(body, "color") == Some(Text(r.color.value)))
      && (Lookup(body, "color").None? ==> r.color == c.color)
      && (Lookup(body, "image").Some? ==> Lookup(body, "image") == Some(Text(r.image)))
      && (Lookup(body, "image").None? ==> r.image == c.image)
      && r.products == c.products
  {
  }

  /** The save hook does not run on update, so an update can store an empty colour. */
  lemma UpdateCanBlankColor(c: Category)
    ensures var body := [Member("name", Text("Abc")), Member("color", Text(""))];
      && Validate(CategoryDto.UpdateCategory, body, UpdateOptions).Accepted?
      && Merge(c, Validate(CategoryDto.UpdateCategory, body, UpdateOptions).value).color == Some("")
  {
    var body := [Member("name", Text("Abc")), Member("color", Text(""))];
    assert Fields(body) == map["name" := Text("Abc"), "color" := Text("")];
    CategoryDto.UpdateAccepted(body, UpdateOptions);
    CategoryDto.UpdateValue(body, UpdateOptions);
    UpdatedCategory(c, body, Validate(CategoryDto.UpdateCategory, body, UpdateOptions).value);
  }

  /** The category collection, with the products it references. */
  class Controller {
    var categories: map<Id, Category>
    /** The collection's natural order, in which `find()` returns the documents. */
    var order: seq<Id>
    /** The id the next created category receives. */
    var nextId: Id
    var products: map<Id, ProductSchema.Product>

    ghost predicate Valid()
      reads this
    {
      && Increasing(order)
      && Elements(order) == categories.Keys
      && (forall id :: id in categories ==> id < nextId)
    }

    constructor(products: map<Id, ProductSchema.Product>)
      ensures Valid()
      ensures categories == map[] && order == [] && this.products == products
    {
      categories := map[];
      order := [];
      nextId := 0;
      this.products := products;
    }

    /** `new Category(value)` and `save()`: the hook fills in the colour and the document joins
        the collection under a fresh id. */
    method Save(value: map<string, Value>, draw: nat) returns (id: Id, c: Category)
      requires Valid() && draw < ColorRange
      modifies this
      ensures Valid() && products == old(products)
      ensures id == old(nextId) && id !in old(categories)
      ensures c == WithDefaultColor(FromValue(value), draw)
      ensures categories == old(categories)[id := c] && order == old(order) + [id] && nextId == old(nextId) + 1
    {
      var doc := new CategoryDocument(FromValue(value));
      doc.PreSave(draw);
      c := doc.Value();
      id := nextId;
      AppendIncreasing(order, id);
      categories := categories[id := c];
      order := order + [id];
      nextId := nextId + 1;
      assert categories.Keys == old(categories).Keys + {id};
    }

    /** POST /categories, with the save hook's random draw as a parameter. */
    method Create(payload: RequestBody, draw: nat) returns (r: CategoryReply)
      requires Valid() && draw < ColorRange
      modifies this
      ensures Valid() && products == old(products)
      ensures payload.JsonArray? ==> r == Plain(BAD_REQUEST, NotAnObject) && categories == old(categories)
      ensures var v := ValidateRequest(CategoryDto.CreateCategory, payload, Defaults);
        v.Rejected? ==>
          && r == Plain(BAD_REQUEST, v.details[0].message)
          && categories == old(categories) && order == old(order) && nextId == old(nextId)
      ensures var v := ValidateRequest(CategoryDto.CreateCategory, payload, Defaults);
        v.Accepted? ==>
          var c := WithDefaultColor(FromValue(v.value), draw);
          && old(nextId) !in old(categories)
          && r == Reply(CREATED, Says("Category created"), Some(Document(old(nextId), c)), None, None, None, None)
          && categories == old(categories)[old(nextId) := c]
          && order == old(order) + [old(nextId)]
          && nextId == old(nextId) + 1
    {
      var v := ValidateRequest(CategoryDto.CreateCategory, payload, Defaults);
      if v.Rejected? {
        return Plain(BAD_REQUEST, v.details[0].message);
      }
      var id, c := Save(v.value, draw);
      r := Reply(CREATED, Says("Category created"), Some(Document(id, c)), None, None, None, None);
    }

    /** `findByIdAndUpdate(id, value)`: the declared fields the value carries replace the stored ones. */
    method FindByIdAndUpdate(id: Id, value: map<string, Value>) returns (c: Category)
      requires Valid() && id in categories
      modifies this
      ensures Valid() && order == old(order) && nextId == old(nextId) && products == old(products)
      ensures c == Merge(old(categories)[id], value) && categories == old(categories)[id := c]
    {
      c := Merge(categories[id], value);
      categories := categories[id := c];
      assert categories.Keys == old(categories).Keys;
    }

    /** PUT /categories/:id. */
    method Update(id: Id, payload: RequestBody) returns (r: CategoryReply)
      requires Valid()
      modifies this
      ensures Valid() && order == old(order) && nextId == old(nextId) && products == old(products)
      ensures id !in old(categories) ==>
        r == Plain(NOT_FOUND, "Category not found") && categories == old(categories)
      ensures id in old(categories) && payload.JsonArray? ==>
        r == Reply(BAD_REQUEST, Lists([NotAnObject]), None, None, None, None, None) && categories == old(categories)
      ensures var v := ValidateRequest(CategoryDto.UpdateCategory, payload, UpdateOptions);
        id in old(categories) && v.Rejected? ==>
          && r == Reply(BAD_REQUEST, Lists(MessagesOf(v.details)), None, None, None, None, None)
          && categories == old(categories)
      ensures var v := ValidateRequest(CategoryDto.UpdateCategory, payload, UpdateOptions);
        id in old(categories) && v.Accepted? ==>
          var c := Merge(old(categories)[id], v.value);
          && r == Reply(OK, Says("Category updated"), Some(Document(id, c)), None, None, None, None)
          && categories == old(categories)[id := c]
    {
      if id !in categories {
        return Plain(NOT_FOUND, "Category not found");
      }
      var v := ValidateRequest(CategoryDto.UpdateCategory, payload, UpdateOptions);
      if v.Rejected? {
        assert payload.JsonArray? ==> MessagesOf(v.details) == [NotAnObject];
        return Reply(BAD_REQUEST, Lists(MessagesOf(v.details)), None, None, None, None, None);
      }
      var c := FindByIdAndUpdate(id, v.value);
      r := Reply(OK, Says("Category updated"), Some(Document(id, c)), None, None, None, None);
    }

    /** `findByIdAndDelete(id)`. */
    method FindByIdAndDelete(id: Id)
      requires Valid()
      modifies this
      ensures Valid() && nextId == old(nextId) && products == old(products)
      ensures categories == old(categories) - {id} && order == Without(old(order), id)
    {
      WithoutIncreasing(order, id);
      categories := categories - {id};
      order := Without(order, id);
    }

    /** DELETE /categories/:id. */
    method Remove(id: Id) returns (r: CategoryReply)
      requires Valid()
      modifies this
      ensures Valid() && nextId == old(nextId) && products == old(products)
      ensures id !in old(categories) ==>
        r == Plain(NOT_FOUND, "Category not found") && categories == old(categories) && order == old(order)
      ensures id in old(categories) ==>
        && r == Plain(OK, "Category deleted")
        && categories == old(categories) - {id}
        && order == Without(old(order), id)
    {
      if id !in categories {
        return Plain(NOT_FOUND, "Category not found");
      }
      FindByIdAndDelete(id);
      r := Plain(OK, "Category deleted");
    }

    /** GET /categories: every category projected, with `count` the number of rows, which is
        the number of stored categories. */
    method GetAll() returns (r: CategoryReply)
      requires Valid()
      ensures |categories| == 0 ==> r == Reply(NOT_FOUND, Says("Any categories not found"), None, None, Some(0), None, None)
      ensures |categories| > 0 ==>
        && r == Reply(OK, Says("Categories fetched"), None, Some(Views(order, categories, products)), Some(|categories|), None, None)
        && |r.rows.value| == |categories|
    {
      IncreasingCard(order);
      assert |Elements(order)| == |categories.Keys|;
      if |order| < 1 {
        return Reply(NOT_FOUND, Says("Any categories not found"), None, None, Some(0), None, None);
      }
      assert forall i :: 0 <= i < |order| ==> order[i] in Elements(order);
      var rows := Views(order, categories, products);
      r := Reply(OK, Says("Categories fetched"), None, Some(rows), Some(|rows|), None, None);
    }

    /** GET /categories/:id. */
    method GetById(id: Id) returns (r: CategoryReply)
      ensures id !in categories ==> r == Plain(NOT_FOUND, "Category not found")
      ensures id in categories ==>
        r == Reply(OK, Says("Category fetched"), Some(View(Project(id, categories[id], products))), None, None, None, None)
    {
      if id !in categories {
        return Plain(NOT_FOUND, "Category not found");
      }
      r := Reply(OK, Says("Category fetched"), Some(View(Project(id, categories[id], products))), None, None, None, None);
    }
  }
}
