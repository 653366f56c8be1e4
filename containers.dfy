/// jsmn::Object and jsmn::Array: the two containers whose members update their
/// wrapped std::map / std::vector in place.
module Containers {
  import opened Values

  /** jsmn::Object. `fields` is the std::map `object_`, listed in iteration order. */
  class Object {
    var fields: seq<Field>

    /** A std::map keeps its keys unique and ascending. */
    ghost predicate Valid()
      reads this
    {
      SortedKeys(fields)
    }

    /** Object(): an empty map. */
    constructor ()
      ensures Valid() && fields == []
    {
      fields := [];
    }

    /** Object(const Object&): a copy of the other map. */
    constructor Copy(other: Object)
      requires other.Valid()
      ensures Valid() && fields == other.fields
    {
      fields := other.fields;
    }

    /** operator=: self-assignment changes nothing, otherwise the map is replaced. */
    method Assign(other: Object)
      requires Valid() && other.Valid()
      modifies this
      ensures Valid() && fields == old(other.fields)
    {
      if this == other {
        return;
      }
      fields := other.fields;
    }

    /** size(): the number of distinct keys. */
    function Size(): (n: nat)
      reads this
      requires Valid()
      ensures n == |KeySet(fields)|
    {
      SortedDistinct(fields);
      |fields|
    }

    /** const operator[]: the stored value, or KeyNotFound; the map is unchanged. */
    method Get(key: string) returns (r: Result<Value>)
      requires Valid()
      ensures r.Ok? <==> key in KeySet(fields)
      ensures r.Ok? ==> Find(fields, key) == Some(r.value)
      ensures r.Err? ==> r.error == KeyNotFound
    {
      r := Lookup(fields, key);
    }

    /** Non-const operator[]: inserts a default (NIL) value when the key is absent,
        and yields the value now stored under the key. */
    method Subscript(key: string) returns (v: Value)
      requires Valid()
      modifies this
      ensures Valid()
      ensures Find(fields, key) == Some(v)
      ensures old(Find(fields, key)).Some? ==> fields == old(fields) && v == old(Find(fields, key)).value
      ensures old(Find(fields, key)).None? ==> fields == Upsert(old(fields), key, Nil) && v == Nil
      ensures forall k :: k != key ==> Find(fields, k) == old(Find(fields, k))
    {
      match Find(fields, key)
      case Some(found) =>
        v := found;
      case None =>
        UpsertSorted(fields, key, Nil);
        UpsertFind(fields, key, Nil, key);
        forall k | k != key
          ensures Find(Upsert(fields, key, Nil), k) == Find(fields, k)
        {
          UpsertFind(fields, key, Nil, k);
        }
        fields := Upsert(fields, key, Nil);
        v := Nil;
    }

    /** `o[key] = v`: the key now maps to `v`; every other key keeps its value. */
    method Put(key: string, v: Value)
      requires Valid()
      modifies this
      ensures Valid()
      ensures fields == Upsert(old(fields), key, v)
    {
      UpsertSorted(fields, key, v);
      fields := Upsert(fields, key, v);
    }
  }

  /** jsmn::Array. `elems` is the std::vector `array_`. */
  class Array {
    var elems: seq<Value>

    /** Array(): an empty vector. */
    constructor ()
      ensures elems == []
    {
      elems := [];
    }

    /** Array(const Array&): a copy of the other vector. */
    constructor Copy(other: Array)
      ensures elems == other.elems
    {
      elems := other.elems;
    }

    /** operator=: self-assignment changes nothing, otherwise the vector is replaced. */
    method Assign(other: Array)
      modifies this
      ensures elems == old(other.elems)
    {
      if this == other {
        return;
      }
      elems := other.elems;
    }

    /** size(). */
    function Size(): (n: nat)
      reads this
      ensures n == |elems|
    {
      |elems|
    }

    /** const operator[](int): the element, or IndexOutOfRange for an index that is
        negative or not below size(). */
    method Get(index: int) returns (r: Result<Value>)
      requires IntMin <= index <= IntMax
      requires |elems| <= MaxElements
      ensures r.Ok? <==> 0 <= index < |elems|
      ensures r.Ok? ==> r.value == elems[index]
      ensures r.Err? ==> r.error == IndexOutOfRange
    {
      AtInRange(elems, index);
      r := At(elems, index);
    }

    /** `a[index] = v` through the non-const operator[]: same bounds check, then the
        element is overwritten and nothing else changes. */
    method Put(index: int, v: Value) returns (r: Result<Value>)
      requires IntMin <= index <= IntMax
      requires |elems| <= MaxElements
      modifies this
      ensures r.Ok? <==> 0 <= index < old(|elems|)
      ensures r.Ok? ==> r.value == old(elems[index]) && elems == old(elems)[index := v]
      ensures r.Err? ==> r.error == IndexOutOfRange && elems == old(elems)
    {
      AtInRange(elems, index);
      r := At(elems, index);
      if r.Ok? {
        elems := elems[index := v];
      }
    }

    /** Push: appends at the end; earlier elements are unchanged. */
    method Push(v: Value)
      modifies this
      ensures elems == old(elems) + [v]
      ensures |elems| == old(|elems|) + 1 && elems[|elems| - 1] == v
      ensures forall i :: 0 <= i < old(|elems|) ==> elems[i] == old(elems[i])
    {
      elems := elems + [v];
    }
  }
}
