/**
 * `populate('products', 'id name')`: a list of product references is
 * replaced by the `{id, name}` of each referenced product that exists;
 * references to missing products drop out.
 */
module Populate {
  import opened Documents
  import ProductSchema

  datatype ProductRef = ProductRef(id: Id, name: string)

  function ProductRefs(ids: seq<Id>, products: map<Id, ProductSchema.Product>): (refs: seq<ProductRef>)
    ensures |refs| <= |ids|
    ensures forall j :: 0 <= j < |refs| ==>
      refs[j].id in ids && refs[j].id in products && refs[j].name == products[refs[j].id].name
    decreases |ids|
  {
    if ids == [] then []
    else
      var rest := ProductRefs(ids[1..], products);
      if ids[0] in products then [ProductRef(ids[0], products[ids[0]].name)] + rest else rest
  }

  /** Every existing referenced product appears. */
  lemma {:induction false} ProductRefsComplete(ids: seq<Id>, products: map<Id, ProductSchema.Product>, id: Id)
    requires id in ids && id in products
    ensures exists j :: 0 <= j < |ProductRefs(ids, products)| && ProductRefs(ids, products)[j].id == id
    decreases |ids|
  {
    var refs := ProductRefs(ids, products);
    if ids[0] == id {
      assert refs[0].id == id;
    } else {
      ProductRefsComplete(ids[1..], products, id);
      var j :| 0 <= j < |ProductRefs(ids[1..], products)| && ProductRefs(ids[1..], products)[j].id == id;
      if ids[0] in products {
        assert refs[j + 1].id == id;
      } else {
        assert refs[j].id == id;
      }
    }
  }

  /** When every reference resolves, the projection keeps the list's length and order. */
  lemma {:induction false} ProductRefsAllPresent(ids: seq<Id>, products: map<Id, ProductSchema.Product>)
    requires forall i :: 0 <= i < |ids| ==> ids[i] in products
    ensures |ProductRefs(ids, products)| == |ids|
    ensures forall i :: 0 <= i < |ids| ==> ProductRefs(ids, products)[i] == ProductRef(ids[i], products[ids[i]].name)
    decreases |ids|
  {
    if ids != [] {
      ProductRefsAllPresent(ids[1..], products);
    }
  }
}
