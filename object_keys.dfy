/**
 * The order in which `Object.keys` lists the own keys of an object parsed
 * from JSON: first the keys that are array indices, in ascending numeric
 * order, then the other keys in the order they were created. Parsing creates
 * a key at its first occurrence; a repeated key only replaces the value, so
 * each key is listed once.
 */
module ObjectKeys {
  import Numerals

  /**
   * An array index: the canonical decimal numeral of an integer below
   * 2^32 - 1, so "0" and "7", but not "07", "-1" or "4294967295".
   */
  predicate IsArrayIndex(k: string) {
    exists n: nat :: n < 0xFFFF_FFFF && Numerals.ToString(n, 10) == k
  }

  function IndexValue(k: string): nat {
    Numerals.Parse(k, 10)
  }

  /** No key is listed twice. */
  predicate Distinct(s: seq<string>) {
    forall i, j :: 0 <= i < j < |s| ==> s[i] != s[j]
  }

  /** `a` may be listed before `b`: `b` is not an index, or both are and `a` is not above `b`. */
  predicate Before(a: string, b: string) {
    !IsArrayIndex(b) || (IsArrayIndex(a) && IndexValue(a) <= IndexValue(b))
  }

  predicate KeyOrdered(s: seq<string>) {
    forall i, j :: 0 <= i < j < |s| ==> Before(s[i], s[j])
  }

  /** The array index `k` placed in front of the first key that is not an index below it. */
  function InsertIndex(k: string, keys: seq<string>): seq<string>
    decreases |keys|
  {
    if keys == [] || !IsArrayIndex(keys[0]) || IndexValue(k) <= IndexValue(keys[0]) then [k] + keys
    else [keys[0]] + InsertIndex(k, keys[1..])
  }

  /** The keys of an object whose keys were `keys`, once property `k` is set. */
  function Add(k: string, keys: seq<string>): seq<string> {
    if k in keys then keys
    else if IsArrayIndex(k) then InsertIndex(k, keys)
    else keys + [k]
  }

  /** `Object.keys` of the object whose members have the keys `keys`, in the order written. */
  function OwnKeys(keys: seq<string>): seq<string>
    decreases |keys|
  {
    if keys == [] then [] else Add(keys[|keys| - 1], OwnKeys(keys[..|keys| - 1]))
  }

  lemma {:induction false} InsertIndexMembers(k: string, keys: seq<string>)
    ensures forall x :: x in InsertIndex(k, keys) <==> x == k || x in keys
    decreases |keys|
  {
    if !(keys == [] || !IsArrayIndex(keys[0]) || IndexValue(k) <= IndexValue(keys[0])) {
      InsertIndexMembers(k, keys[1..]);
      assert keys == [keys[0]] + keys[1..];
    }
  }

  lemma AddMembers(k: string, keys: seq<string>)
    ensures forall x :: x in Add(k, keys) <==> x == k || x in keys
  {
    InsertIndexMembers(k, keys);
  }

  /** `Object.keys` lists exactly the keys written. */
  lemma {:induction false} OwnKeysMembers(keys: seq<string>)
    ensures forall x :: x in OwnKeys(keys) <==> x in keys
    decreases |keys|
  {
    if keys != [] {
      OwnKeysMembers(keys[..|keys| - 1]);
      AddMembers(keys[|keys| - 1], OwnKeys(keys[..|keys| - 1]));
      assert keys == keys[..|keys| - 1] + [keys[|keys| - 1]];
    }
  }

  /** Both orders hold of the tail of a sequence they hold of. */
  lemma TailKeeps(s: seq<string>)
    requires s != [] && Distinct(s) && KeyOrdered(s)
    ensures Distinct(s[1..]) && KeyOrdered(s[1..])
  {
    forall i, j | 0 <= i < j < |s| - 1 ensures s[1..][i] != s[1..][j] && Before(s[1..][i], s[1..][j]) {
      assert s[1..][i] == s[i + 1] && s[1..][j] == s[j + 1];
    }
  }

  /** A key before every key of `tail` and outside it keeps both orders as its head. */
  lemma ConsKeeps(k: string, tail: seq<string>, s: seq<string>)
    requires Distinct(tail) && KeyOrdered(tail)
    requires k !in tail && forall x :: x in tail ==> Before(k, x)
    requires s == [k] + tail
    ensures Distinct(s) && KeyOrdered(s)
  {
    forall i, j | 0 <= i < j < |s| ensures s[i] != s[j] && Before(s[i], s[j]) {
      assert s[j] == tail[j - 1] && s[j] in tail;
      if i > 0 {
        assert s[i] == tail[i - 1];
      }
    }
  }

  lemma {:induction false} InsertIndexKeeps(k: string, keys: seq<string>)
    requires IsArrayIndex(k) && k !in keys
    requires Distinct(keys) && KeyOrdered(keys)
    ensures Distinct(InsertIndex(k, keys)) && KeyOrdered(InsertIndex(k, keys))
    decreases |keys|
  {
    var r := InsertIndex(k, keys);
    if keys == [] || !IsArrayIndex(keys[0]) || IndexValue(k) <= IndexValue(keys[0]) {
      forall x | x in keys ensures Before(k, x) {
        var j :| 0 <= j < |keys| && keys[j] == x;
        if j > 0 {
          assert Before(keys[0], keys[j]);
        }
      }
      ConsKeeps(k, keys, r);
    } else {
      assert keys == [keys[0]] + keys[1..];
      TailKeeps(keys);
      InsertIndexKeeps(k, keys[1..]);
      var rest := InsertIndex(k, keys[1..]);
      InsertIndexMembers(k, keys[1..]);
      forall x | x in rest ensures x != keys[0] && Before(keys[0], x) {
        if x != k {
          var j :| 0 <= j < |keys[1..]| && keys[1..][j] == x;
          assert keys[j + 1] == x;
        }
      }
      ConsKeeps(keys[0], rest, r);
    }
  }

  lemma AddKeeps(k: string, keys: seq<string>)
    requires Distinct(keys) && KeyOrdered(keys)
    ensures Distinct(Add(k, keys)) && KeyOrdered(Add(k, keys))
  {
    if k !in keys {
      if IsArrayIndex(k) {
        InsertIndexKeeps(k, keys);
      } else {
        var r := keys + [k];
        forall i, j | 0 <= i < j < |r| ensures r[i] != r[j] && Before(r[i], r[j]) {
          assert r[i] == keys[i];
          if j < |keys| {
            assert r[j] == keys[j];
          }
        }
      }
    }
  }

  /** `Object.keys` lists every key once, array indices first and ascending. */
  lemma {:induction false} OwnKeysOrdered(keys: seq<string>)
    ensures Distinct(OwnKeys(keys)) && KeyOrdered(OwnKeys(keys))
    decreases |keys|
  {
    if keys != [] {
      OwnKeysOrdered(keys[..|keys| - 1]);
      AddKeeps(keys[|keys| - 1], OwnKeys(keys[..|keys| - 1]));
    }
  }

  /** The keys of `ks` outside `declared`, in their order there. */
  function Outside(ks: seq<string>, declared: set<string>): seq<string>
    decreases |ks|
  {
    if ks == [] then []
    else (if ks[0] in declared then [] else [ks[0]]) + Outside(ks[1..], declared)
  }

  lemma {:induction false} OutsideMembers(ks: seq<string>, declared: set<string>)
    ensures forall x :: x in Outside(ks, declared) <==> x in ks && x !in declared
    decreases |ks|
  {
    if ks != [] {
      OutsideMembers(ks[1..], declared);
      assert ks == [ks[0]] + ks[1..];
    }
  }

  /** Leaving keys out keeps the others in key order and each once. */
  lemma {:induction false} OutsideKeeps(ks: seq<string>, declared: set<string>)
    requires Distinct(ks) && KeyOrdered(ks)
    ensures Distinct(Outside(ks, declared)) && KeyOrdered(Outside(ks, declared))
    decreases |ks|
  {
    if ks != [] {
      TailKeeps(ks);
      OutsideKeeps(ks[1..], declared);
      var tail := Outside(ks[1..], declared);
      OutsideMembers(ks[1..], declared);
      if ks[0] !in declared {
        forall x | x in tail ensures x != ks[0] && Before(ks[0], x) {
          var j :| 0 <= j < |ks[1..]| && ks[1..][j] == x;
          assert ks[j + 1] == x;
        }
        ConsKeeps(ks[0], tail, Outside(ks, declared));
      }
    }
  }

  /** The keys of `s` that are not array indices, in their order there. */
  function Named(s: seq<string>): seq<string>
    decreases |s|
  {
    if s == [] then [] else (if IsArrayIndex(s[0]) then [] else [s[0]]) + Named(s[1..])
  }

  /** `s` with every repeat dropped, each element kept at its first occurrence. */
  function FirstOccurrences(s: seq<string>): seq<string>
    decreases |s|
  {
    if s == [] then []
    else if s[|s| - 1] in s[..|s| - 1] then FirstOccurrences(s[..|s| - 1])
    else FirstOccurrences(s[..|s| - 1]) + [s[|s| - 1]]
  }

  lemma {:induction false} NamedConcat(a: seq<string>, b: seq<string>)
    ensures Named(a + b) == Named(a) + Named(b)
    decreases |a|
  {
    if a != [] {
      assert (a + b)[1..] == a[1..] + b;
      NamedConcat(a[1..], b);
    } else {
      assert a + b == b;
    }
  }

  lemma {:induction false} NamedMembers(s: seq<string>)
    ensures forall x :: x in Named(s) <==> x in s && !IsArrayIndex(x)
    decreases |s|
  {
    if s != [] {
      NamedMembers(s[1..]);
      assert s == [s[0]] + s[1..];
    }
  }

  lemma {:induction false} FirstOccurrencesMembers(s: seq<string>)
    ensures forall x :: x in FirstOccurrences(s) <==> x in s
    decreases |s|
  {
    if s != [] {
      FirstOccurrencesMembers(s[..|s| - 1]);
      assert s == s[..|s| - 1] + [s[|s| - 1]];
    }
  }

  /** Placing an array index among the keys leaves the other keys as they were. */
  lemma {:induction false} InsertIndexNamed(k: string, keys: seq<string>)
    requires IsArrayIndex(k)
    ensures Named(InsertIndex(k, keys)) == Named(keys)
    decreases |keys|
  {
    if keys == [] || !IsArrayIndex(keys[0]) || IndexValue(k) <= IndexValue(keys[0]) {
      NamedConcat([k], keys);
    } else {
      InsertIndexNamed(k, keys[1..]);
      NamedConcat([keys[0]], InsertIndex(k, keys[1..]));
      NamedConcat([keys[0]], keys[1..]);
      assert keys == [keys[0]] + keys[1..];
    }
  }

  /** Setting one more key keeps the non-index keys in first-occurrence order. */
  lemma AddNamed(init: seq<string>, k: string, own: seq<string>)
    requires own == OwnKeys(init) && Named(own) == FirstOccurrences(Named(init))
    ensures Named(Add(k, own)) == FirstOccurrences(Named(init + [k]))
  {
    OwnKeysMembers(init);
    NamedConcat(init, [k]);
    var n := Named(init + [k]);
    if IsArrayIndex(k) {
      assert n == Named(init);
      if k !in own {
        InsertIndexNamed(k, own);
      }
    } else {
      NamedMembers(init);
      FirstOccurrencesMembers(Named(init));
      assert n == Named(init) + [k];
      assert n[..|n| - 1] == Named(init);
      if k !in own {
        NamedConcat(own, [k]);
      }
    }
  }

  /** `Object.keys` lists the keys that are not array indices in the order they first occur. */
  lemma {:induction false} OwnKeysNamed(keys: seq<string>)
    ensures Named(OwnKeys(keys)) == FirstOccurrences(Named(keys))
    decreases |keys|
  {
    if keys != [] {
      var init := keys[..|keys| - 1];
      OwnKeysNamed(init);
      AddNamed(init, keys[|keys| - 1], OwnKeys(init));
      assert keys == init + [keys[|keys| - 1]];
    }
  }

  /** Leaving out declared keys and leaving out array indices can be done in either order. */
  lemma {:induction false} OutsideNamed(ks: seq<string>, declared: set<string>)
    ensures Named(Outside(ks, declared)) == Outside(Named(ks), declared)
    decreases |ks|
  {
    if ks != [] {
      OutsideNamed(ks[1..], declared);
      var head := if ks[0] in declared then [] else [ks[0]];
      NamedConcat(head, Outside(ks[1..], declared));
      if !IsArrayIndex(ks[0]) {
        var n := Named(ks);
        assert n == [ks[0]] + Named(ks[1..]);
        assert n[0] == ks[0] && n[1..] == Named(ks[1..]);
        assert Outside(n, declared) == head + Outside(n[1..], declared);
        assert Named(head) == head;
      } else {
        assert Named(ks) == Named(ks[1..]);
        assert Named(head) == [];
      }
    }
  }

  /** `7` is an array index; `name` and `zz` are not. */
  lemma ExampleKeys()
    ensures !IsArrayIndex("name") && !IsArrayIndex("zz") && IsArrayIndex("7")
  {
    assert Numerals.ToString(7, 10) == "7";
  }

  /** `Object.keys` of `{"name": …, "zz": …, "7": …}` lists `7` first. */
  lemma IndexKeysFirst()
    ensures OwnKeys(["name", "zz", "7"]) == ["7", "name", "zz"]
    ensures Outside(["7", "name", "zz"], {"name"}) == ["7", "zz"]
  {
    ExampleKeys();
    assert OwnKeys(["name"]) == ["name"] by {
      assert ["name"][..0] == [];
    }
    assert OwnKeys(["name", "zz"]) == ["name", "zz"] by {
      assert ["name", "zz"][..1] == ["name"];
    }
    assert OwnKeys(["name", "zz", "7"]) == Add("7", ["name", "zz"]) by {
      assert ["name", "zz", "7"][..2] == ["name", "zz"];
    }
    assert Add("7", ["name", "zz"]) == InsertIndex("7", ["name", "zz"]);
    var own := ["7", "name", "zz"];
    assert own[1..] == ["name", "zz"] && own[1..][1..] == ["zz"] && own[1..][1..][1..] == [];
  }

  /** `Object.keys` of `{"name": …, "zz": …, "zz": …}` lists `zz` once. */
  lemma RepeatedKeyOnce()
    ensures OwnKeys(["name", "zz", "zz"]) == ["name", "zz"]
    ensures Outside(["name", "zz"], {"name"}) == ["zz"]
  {
    ExampleKeys();
    assert OwnKeys(["name"]) == ["name"] by {
      assert ["name"][..0] == [];
    }
    assert OwnKeys(["name", "zz"]) == ["name", "zz"] by {
      assert ["name", "zz"][..1] == ["name"];
    }
    assert ["name", "zz", "zz"][..2] == ["name", "zz"];
    var own := ["name", "zz"];
    assert own[1..] == ["zz"] && own[1..][1..] == [];
  }
}
