/// The value model of jsmn.hpp: the Value::Type tag, the tagged value, the
/// sorted key/value list that stands for the std::map inside jsmn::Object,
/// and the read-only accessors (unwrap<T>, the const subscript operators).
/// Exceptions of the source are the `Err` side of `Result`.
module Values {
  import opened Keys

  /** jsmn::Number is a C++ double; the model keeps its 64-bit pattern and never
      does arithmetic on it. */
  type Double = bv64

  /** The text-to-double conversion (`std::stringstream >> double`), which this
      model takes as given. */
  datatype NumberReader = NumberReader(read: string -> Double)

  /** Value::Type. */
  datatype Tag = BooleanTag | NumberTag | StringTag | ArrayTag | ObjectTag | NilTag

  /** jsmn::Value with only its active payload (see Cells for the physical layout). */
  datatype Value =
    | Nil
    | Boolean(b: bool)
    | Number(num: Double)
    | String(str: string)
    | Array(elems: seq<Value>)
    | Object(fields: seq<Field>)

  /** One entry of an object, in the object's iteration order. */
  datatype Field = Field(key: string, value: Value)

  /** The failure kinds behind the source's jsmn::Error messages. */
  datatype Error =
    | KeyNotFound              // "Object key not exists!"
    | IndexOutOfRange          // "Index out of range!"
    | TypeMismatch(expected: Tag)  // "Type is not ...!", "Value type is not ..."
    | UnsupportedToken         // "Unsupported Token type!"
    | TokensExhausted          // a subtree runs past the tokens the tokenizer produced
    | ParseFailed              // "Parse json string failed!"
    | ObjectExpected           // "Object expected!"

  datatype Result<T> = Ok(value: T) | Err(error: Error)

  datatype Option<T> = None | Some(value: T)

  /** Value::type(). */
  function TypeOf(v: Value): (r: Tag)
    ensures r == ObjectTag <==> v.Object?
    ensures r == ArrayTag <==> v.Array?
    ensures r == NilTag <==> v.Nil?
  {
    match v
    case Nil => NilTag
    case Boolean(_) => BooleanTag
    case Number(_) => NumberTag
    case String(_) => StringTag
    case Array(_) => ArrayTag
    case Object(_) => ObjectTag
  }

  // unwrap<T>: succeeds exactly when the tag is T's tag, and then hands back
  // the payload the value was built from.

  function AsBoolean(v: Value): (r: Result<bool>)
    ensures r.Ok? <==> TypeOf(v) == BooleanTag
    ensures r.Ok? ==> v == Boolean(r.value)
    ensures r.Err? ==> r.error == TypeMismatch(BooleanTag)
  {
    if v.Boolean? then Ok(v.b) else Err(TypeMismatch(BooleanTag))
  }

  function AsNumber(v: Value): (r: Result<Double>)
    ensures r.Ok? <==> TypeOf(v) == NumberTag
    ensures r.Ok? ==> v == Number(r.value)
    ensures r.Err? ==> r.error == TypeMismatch(NumberTag)
  {
    if v.Number? then Ok(v.num) else Err(TypeMismatch(NumberTag))
  }

  function AsString(v: Value): (r: Result<string>)
    ensures r.Ok? <==> TypeOf(v) == StringTag
    ensures r.Ok? ==> v == String(r.value)
    ensures r.Err? ==> r.error == TypeMismatch(StringTag)
  {
    if v.String? then Ok(v.str) else Err(TypeMismatch(StringTag))
  }

  function AsArray(v: Value): (r: Result<seq<Value>>)
    ensures r.Ok? <==> TypeOf(v) == ArrayTag
    ensures r.Ok? ==> v == Array(r.value)
    ensures r.Err? ==> r.error == TypeMismatch(ArrayTag)
  {
    if v.Array? then Ok(v.elems) else Err(TypeMismatch(ArrayTag))
  }

  function AsObject(v: Value): (r: Result<seq<Field>>)
    ensures r.Ok? <==> TypeOf(v) == ObjectTag
    ensures r.Ok? ==> v == Object(r.value)
    ensures r.Err? ==> r.error == TypeMismatch(ObjectTag)
  {
    if v.Object? then Ok(v.fields) else Err(TypeMismatch(ObjectTag))
  }

  // ---------------------------------------------------------------------
  // The std::map behind jsmn::Object, as a list of fields.

  function KeySet(fields: seq<Field>): set<string>
  {
    set i | 0 <= i < |fields| :: fields[i].key
  }

  /** Keys strictly ascending: what a std::map iterates. */
  predicate SortedKeys(fields: seq<Field>)
  {
    forall i, j :: 0 <= i < j < |fields| ==> KeyLess(fields[i].key, fields[j].key)
  }

  /** The value stored under `key` (first entry with that key). */
  function Find(fields: seq<Field>, key: string): (r: Option<Value>)
    ensures r.Some? <==> key in KeySet(fields)
    ensures r.Some? ==> Field(key, r.value) in fields
    decreases |fields|
  {
    if |fields| == 0 then None
    else if fields[0].key == key then Some(fields[0].value)
    else
      assert KeySet(fields) == {fields[0].key} + KeySet(fields[1..]);
      Find(fields[1..], key)
  }

  /** const Object::operator[]: throws when the key is absent, changes nothing. */
  function Lookup(fields: seq<Field>, key: string): (r: Result<Value>)
    ensures r.Ok? <==> key in KeySet(fields)
    ensures r.Ok? ==> Field(key, r.value) in fields
    ensures r.Err? ==> r.error == KeyNotFound
  {
    match Find(fields, key)
    case Some(v) => Ok(v)
    case None => Err(KeyNotFound)
  }

  /** `map[key] = v`: replaces the entry for `key`, or inserts one at its place
      in key order. */
  function Upsert(fields: seq<Field>, key: string, v: Value): seq<Field>
    decreases |fields|
  {
    if |fields| == 0 then [Field(key, v)]
    else if fields[0].key == key then [Field(key, v)] + fields[1..]
    else if KeyLess(key, fields[0].key) then [Field(key, v)] + fields
    else [fields[0]] + Upsert(fields[1..], key, v)
  }

  /** The object a sequence of `o[k] = v` assignments leaves behind, starting
      from an empty one. */
  function Collect(pairs: seq<Field>): seq<Field>
  {
    if |pairs| == 0 then []
    else Upsert(Collect(pairs[..|pairs| - 1]), pairs[|pairs| - 1].key, pairs[|pairs| - 1].value)
  }

  /** One more assignment: the fold applies it on top of the earlier ones. */
  lemma CollectStep(pairs: seq<Field>, f: Field)
    ensures Collect(pairs + [f]) == Upsert(Collect(pairs), f.key, f.value)
  {
    assert (pairs + [f])[..|pairs|] == pairs;
  }

  /** The value of the last pair with key `key`. */
  function LastValue(pairs: seq<Field>, key: string): Option<Value>
  {
    if |pairs| == 0 then None
    else if pairs[|pairs| - 1].key == key then Some(pairs[|pairs| - 1].value)
    else LastValue(pairs[..|pairs| - 1], key)
  }

  lemma KeySetCons(fields: seq<Field>)
    requires |fields| > 0
    ensures KeySet(fields) == {fields[0].key} + KeySet(fields[1..])
  {
    forall k | k in KeySet(fields)
      ensures k in {fields[0].key} + KeySet(fields[1..])
    {
      var i :| 0 <= i < |fields| && fields[i].key == k;
      if i > 0 {
        assert fields[1..][i - 1].key == k;
      }
    }
    forall k | k in KeySet(fields[1..])
      ensures k in KeySet(fields)
    {
      var i :| 0 <= i < |fields[1..]| && fields[1..][i].key == k;
      assert fields[i + 1].key == k;
    }
  }

  /** The keys of a list with one more entry at its end. */
  lemma KeySetSnoc(fields: seq<Field>, f: Field)
    ensures KeySet(fields + [f]) == KeySet(fields) + {f.key}
  {
    var all := fields + [f];
    forall k | k in KeySet(all)
      ensures k in KeySet(fields) + {f.key}
    {
      var i :| 0 <= i < |all| && all[i].key == k;
      if i < |fields| {
        assert fields[i] == all[i];
      }
    }
    forall k | k in KeySet(fields)
      ensures k in KeySet(all)
    {
      var i :| 0 <= i < |fields| && fields[i].key == k;
      assert all[i] == fields[i];
    }
    assert all[|fields|] == f;
  }

  lemma {:induction false} UpsertKeys(fields: seq<Field>, key: string, v: Value)
    ensures KeySet(Upsert(fields, key, v)) == KeySet(fields) + {key}
    decreases |fields|
  {
    var r := Upsert(fields, key, v);
    if |fields| == 0 {
      assert r[0].key == key;
    } else if fields[0].key == key {
      KeySetCons(fields);
      assert r[1..] == fields[1..];
      KeySetCons(r);
    } else if KeyLess(key, fields[0].key) {
      assert r[1..] == fields;
      KeySetCons(r);
    } else {
      UpsertKeys(fields[1..], key, v);
      KeySetCons(fields);
      assert r[1..] == Upsert(fields[1..], key, v);
      KeySetCons(r);
    }
  }

  lemma {:induction false} UpsertSorted(fields: seq<Field>, key: string, v: Value)
    requires SortedKeys(fields)
    ensures SortedKeys(Upsert(fields, key, v))
    decreases |fields|
  {
    var r := Upsert(fields, key, v);
    if |fields| == 0 {
    } else if fields[0].key == key {
      assert forall i :: 0 <= i < |r| ==> r[i].key == fields[i].key;
    } else if KeyLess(key, fields[0].key) {
      forall j | 1 <= j < |r|
        ensures KeyLess(key, r[j].key)
      {
        if j > 1 {
          KeyLessTransitive(key, fields[0].key, fields[j - 1].key);
        }
      }
    } else {
      UpsertSorted(fields[1..], key, v);
      UpsertKeys(fields[1..], key, v);
      var tail := Upsert(fields[1..], key, v);
      assert r == [fields[0]] + tail;
      KeyLessTotal(key, fields[0].key);
      forall j | 0 <= j < |tail|
        ensures KeyLess(fields[0].key, tail[j].key)
      {
        assert tail[j].key in KeySet(tail);
        if tail[j].key != key {
          assert tail[j].key in KeySet(fields[1..]);
          var m :| 0 <= m < |fields[1..]| && fields[1..][m].key == tail[j].key;
          assert fields[m + 1].key == tail[j].key;
        }
      }
    }
  }

  lemma {:induction false} UpsertFind(fields: seq<Field>, key: string, v: Value, other: string)
    ensures Find(Upsert(fields, key, v), key) == Some(v)
    ensures other != key ==> Find(Upsert(fields, key, v), other) == Find(fields, other)
    decreases |fields|
  {
    if |fields| > 0 && fields[0].key != key && !KeyLess(key, fields[0].key) {
      UpsertFind(fields[1..], key, v, other);
      assert Upsert(fields, key, v)[1..] == Upsert(fields[1..], key, v);
    } else if |fields| > 0 && fields[0].key == key {
      assert Upsert(fields, key, v)[1..] == fields[1..];
    } else if |fields| > 0 {
      assert Upsert(fields, key, v)[1..] == fields;
    }
  }

  /** A sorted list has no repeated key, so its length is its number of keys. */
  lemma {:induction false} SortedDistinct(fields: seq<Field>)
    requires SortedKeys(fields)
    ensures |KeySet(fields)| == |fields|
    decreases |fields|
  {
    if |fields| > 0 {
      SortedDistinct(fields[1..]);
      assert KeySet(fields) == {fields[0].key} + KeySet(fields[1..]);
      forall m | 0 <= m < |fields[1..]|
        ensures fields[1..][m].key != fields[0].key
      {
        assert KeyLess(fields[0].key, fields[m + 1].key);
      }
    }
  }

  /** Upserting grows a sorted object by one exactly when the key was absent. */
  lemma UpsertLength(fields: seq<Field>, key: string, v: Value)
    requires SortedKeys(fields)
    ensures |Upsert(fields, key, v)| == if key in KeySet(fields) then |fields| else |fields| + 1
  {
    UpsertSorted(fields, key, v);
    UpsertKeys(fields, key, v);
    SortedDistinct(fields);
    SortedDistinct(Upsert(fields, key, v));
  }

  lemma {:induction false} CollectSorted(pairs: seq<Field>)
    ensures SortedKeys(Collect(pairs))
    ensures KeySet(Collect(pairs)) == KeySet(pairs)
    ensures |Collect(pairs)| <= |pairs|
    decreases |pairs|
  {
    if |pairs| > 0 {
      var init, last := pairs[..|pairs| - 1], pairs[|pairs| - 1];
      CollectSorted(init);
      var prev := Collect(init);
      assert Collect(pairs) == Upsert(prev, last.key, last.value);
      UpsertSorted(prev, last.key, last.value);
      UpsertKeys(prev, last.key, last.value);
      UpsertLength(prev, last.key, last.value);
      KeySetSnoc(init, last);
      assert init + [last] == pairs;
    }
  }

  /** Duplicate keys: the last assignment to a key is the one the object keeps. */
  lemma {:induction false} CollectLastWins(pairs: seq<Field>, key: string)
    ensures Find(Collect(pairs), key) == LastValue(pairs, key)
    decreases |pairs|
  {
    if |pairs| > 0 {
      var init, last := pairs[..|pairs| - 1], pairs[|pairs| - 1];
      CollectLastWins(init, key);
      UpsertFind(Collect(init), last.key, last.value, key);
    }
  }

  /** Every entry of an upserted object is an old entry or the assigned one. */
  lemma {:induction false} UpsertFrom(fields: seq<Field>, key: string, v: Value)
    ensures forall f :: f in Upsert(fields, key, v) ==> f in fields || f == Field(key, v)
    decreases |fields|
  {
    if |fields| > 0 && fields[0].key != key && !KeyLess(key, fields[0].key) {
      UpsertFrom(fields[1..], key, v);
      assert Upsert(fields, key, v) == [fields[0]] + Upsert(fields[1..], key, v);
      assert forall f :: f in fields[1..] ==> f in fields;
    }
  }

  /** Assigning a well-formed value keeps an object well formed. */
  lemma UpsertWellFormed(fields: seq<Field>, key: string, v: Value)
    requires WellFormed(Object(fields)) && WellFormed(v)
    ensures WellFormed(Object(Upsert(fields, key, v)))
  {
    UpsertSorted(fields, key, v);
    UpsertFrom(fields, key, v);
  }

  /** Assigning keys that arrive in ascending order rebuilds exactly that list. */
  lemma {:induction false} CollectOfSorted(pairs: seq<Field>)
    requires SortedKeys(pairs)
    ensures Collect(pairs) == pairs
    decreases |pairs|
  {
    if |pairs| > 0 {
      var init, last := pairs[..|pairs| - 1], pairs[|pairs| - 1];
      CollectOfSorted(init);
      UpsertAppends(init, last);
      assert init + [last] == pairs;
    }
  }

  lemma {:induction false} UpsertAppends(fields: seq<Field>, f: Field)
    requires forall i :: 0 <= i < |fields| ==> KeyLess(fields[i].key, f.key)
    ensures Upsert(fields, f.key, f.value) == fields + [f]
    decreases |fields|
  {
    if |fields| > 0 {
      KeyLessIrreflexive(f.key);
      KeyLessAsymmetric(fields[0].key, f.key);
      UpsertAppends(fields[1..], f);
      assert fields == [fields[0]] + fields[1..];
    }
  }

  // ---------------------------------------------------------------------
  // Array indexing (Array::operator[]) and the Value subscripts.

  /** size_t wraps modulo 2^64. */
  const SizeModulus := 0x1_0000_0000_0000_0000
  /** Bound on std::vector<Value>::max_size(): no vector gets this large. */
  const MaxElements := 0x8000_0000_0000_0000
  /** Range of a C++ int. */
  const IntMin := -0x8000_0000
  const IntMax := 0x7fff_ffff

  /** Array::operator[](int): `index >= array_.size()` compares after the int is
      converted to size_t, so a negative index wraps to a huge position. */
  function At(elems: seq<Value>, index: int): (r: Result<Value>)
    ensures r.Ok? ==> r.value in elems
    ensures r.Err? ==> r.error == IndexOutOfRange
  {
    var position := index % SizeModulus;
    if position >= |elems| then Err(IndexOutOfRange) else Ok(elems[position])
  }

  /** For any C++ int, the subscript succeeds exactly on 0 <= index < size(). */
  lemma AtInRange(elems: seq<Value>, index: int)
    requires IntMin <= index <= IntMax
    requires |elems| <= MaxElements
    ensures At(elems, index).Ok? <==> 0 <= index < |elems|
    ensures At(elems, index).Ok? ==> At(elems, index).value == elems[index]
    ensures At(elems, index).Err? ==> At(elems, index).error == IndexOutOfRange
  {
    if index < 0 {
      assert index % SizeModulus == index + SizeModulus;
    } else {
      assert index % SizeModulus == index;
    }
  }

  /** const Value::operator[](key): an Object's const subscript, else a type error. */
  function ValueKey(v: Value, key: string): (r: Result<Value>)
    ensures r.Ok? <==> v.Object? && key in KeySet(v.fields)
    ensures r.Ok? ==> Field(key, r.value) in v.fields
    ensures !v.Object? ==> r == Err(TypeMismatch(ObjectTag))
  {
    if !v.Object? then Err(TypeMismatch(ObjectTag)) else Lookup(v.fields, key)
  }

  /** Value::operator[](int): an Array's subscript, else a type error. */
  function ValueIndex(v: Value, index: int): (r: Result<Value>)
    ensures !v.Array? ==> r == Err(TypeMismatch(ArrayTag))
    ensures r.Ok? ==> v.Array? && r.value in v.elems
  {
    if !v.Array? then Err(TypeMismatch(ArrayTag)) else At(v.elems, index)
  }

  lemma ValueIndexCases(v: Value, index: int)
    requires IntMin <= index <= IntMax
    requires v.Array? ==> |v.elems| <= MaxElements
    ensures !v.Array? ==> ValueIndex(v, index) == Err(TypeMismatch(ArrayTag))
    ensures v.Array? ==> (ValueIndex(v, index).Ok? <==> 0 <= index < |v.elems|)
    ensures ValueIndex(v, index).Ok? ==> ValueIndex(v, index).value == v.elems[index]
  {
    if v.Array? {
      AtInRange(v.elems, index);
    }
  }

  /** Every object in the tree has strictly ascending, hence distinct, keys. */
  predicate WellFormed(v: Value)
    decreases v
  {
    match v
    case Array(a) => forall e :: e in a ==> WellFormed(e)
    case Object(fs) => SortedKeys(fs) && forall f :: f in fs ==> WellFormed(f.value)
    case _ => true
  }
}
