/**
 * What the persistence layer gives every collection: document ids, the
 * required-string check, and the natural (insertion) order in which `find()`
 * returns the documents of a collection.
 */
module Documents {

  /** A document id (an ObjectId in the store). */
  type Id = nat

  /** A required String path: the store's required validator rejects a missing value and the empty string alike. */
  predicate RequiredString(s: string) {
    |s| > 0
  }

  /** The ids of a collection in natural order: each id once, oldest first. */
  predicate Increasing(order: seq<Id>) {
    forall i, j :: 0 <= i < j < |order| ==> order[i] < order[j]
  }

  /** `order` with `id` taken out. */
  function Without(order: seq<Id>, id: Id): (r: seq<Id>)
    ensures forall x :: x in r <==> x in order && x != id
    ensures id !in order ==> r == order
  {
    if order == [] then []
    else if order[0] == id then Without(order[1..], id)
    else [order[0]] + Without(order[1..], id)
  }

  /** The tail of an increasing sequence is increasing, and its head lies below all of it. */
  lemma IncreasingTail(order: seq<Id>)
    requires Increasing(order) && order != []
    ensures Increasing(order[1..])
    ensures forall x :: x in order[1..] ==> order[0] < x
  {
    var rest := order[1..];
    forall i, j | 0 <= i < j < |rest| ensures rest[i] < rest[j] {
      assert rest[i] == order[i + 1] && rest[j] == order[j + 1];
    }
    forall x | x in rest ensures order[0] < x {
      var k :| 0 <= k < |rest| && rest[k] == x;
      assert rest[k] == order[k + 1];
    }
  }

  /** Taking an id out keeps the order increasing. */
  lemma {:induction false} WithoutIncreasing(order: seq<Id>, id: Id)
    requires Increasing(order)
    ensures Increasing(Without(order, id))
  {
    if order != [] {
      var rest := order[1..];
      IncreasingTail(order);
      WithoutIncreasing(rest, id);
      if order[0] != id {
        var w := Without(rest, id);
        var r := [order[0]] + w;
        assert r == Without(order, id);
        forall i, j | 0 <= i < j < |r| ensures r[i] < r[j] {
          if i == 0 {
            assert r[j] == w[j - 1] && r[j] in w;
          } else {
            assert r[i] == w[i - 1] && r[j] == w[j - 1];
          }
        }
      }
    }
  }

  /** Taking an id out of two runs one after the other takes it out of each: the ids kept stay in
      their relative order. */
  lemma {:induction false} WithoutConcat(a: seq<Id>, b: seq<Id>, id: Id)
    ensures Without(a + b, id) == Without(a, id) + Without(b, id)
    decreases |a|
  {
    if a != [] {
      assert (a + b)[1..] == a[1..] + b;
      WithoutConcat(a[1..], b, id);
    } else {
      assert a + b == b;
    }
  }

  /** Two increasing sequences with the same elements are equal: the natural order of a set of
      ids is determined by the set. */
  lemma {:induction false} IncreasingDetermined(a: seq<Id>, b: seq<Id>)
    requires Increasing(a) && Increasing(b)
    requires Elements(a) == Elements(b)
    ensures a == b
    decreases |a|
  {
    assert a != [] ==> a[0] in Elements(a);
    assert b != [] ==> b[0] in Elements(b);
    if a != [] && b != [] {
      IncreasingTail(a);
      IncreasingTail(b);
      assert a[0] in Elements(b) && b[0] in Elements(a);
      assert a[0] == b[0];
      assert Elements(a[1..]) == Elements(b[1..]) by {
        assert a == [a[0]] + a[1..] && b == [b[0]] + b[1..];
        assert a[0] !in a[1..] && b[0] !in b[1..];
        assert Elements(a) == {a[0]} + Elements(a[1..]);
        assert Elements(b) == {b[0]} + Elements(b[1..]);
      }
      IncreasingDetermined(a[1..], b[1..]);
      assert a == [a[0]] + a[1..] && b == [b[0]] + b[1..];
    }
  }

  /** An increasing sequence lists each of its elements once, so it has as many elements as its set. */
  lemma {:induction false} IncreasingCard(order: seq<Id>)
    requires Increasing(order)
    ensures |Elements(order)| == |order|
  {
    if order != [] {
      var rest := order[1..];
      IncreasingCard(rest);
      assert order[0] !in rest by {
        forall i | 0 <= i < |rest| ensures rest[i] != order[0] {
          assert rest[i] == order[i + 1];
        }
      }
      assert Elements(order) == Elements(rest) + {order[0]};
    }
  }

  /** Appending an id above every listed one keeps the order increasing and adds that id. */
  lemma AppendIncreasing(order: seq<Id>, id: Id)
    requires Increasing(order)
    requires forall x :: x in Elements(order) ==> x < id
    ensures Increasing(order + [id])
    ensures Elements(order + [id]) == Elements(order) + {id}
  {
    forall i | 0 <= i < |order| ensures order[i] < id {
      assert order[i] in Elements(order);
    }
  }

  function Elements(order: seq<Id>): set<Id> {
    set x | x in order
  }
}
