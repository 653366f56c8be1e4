/// The serializer of jsmn.cpp: both `serialize` overloads, which render a
/// value tree as compact JSON text. `Render` is the text the code evidently
/// means to produce; `Serialize` is what the code does, which is that text
/// unless the tree holds an empty array somewhere (see `SerializeEmptyArray`).
module Serializer {
  import opened Values
  import Containers

  /** The double-to-text conversion (`std::stringstream << double`), which this
      model takes as given. */
  datatype NumberWriter = NumberWriter(write: Double -> string)

  /** `"` + s + `"`: the characters of s are copied as they are, with no
      escaping. */
  function Quoted(s: string): string
  {
    "\"" + s + "\""
  }

  /** The compact JSON text of a value: literals for NIL and the booleans, the
      number writer for numbers, and the elements (pairs) of an array (object)
      in order, separated by commas. */
  function Render(v: Value, fmt: NumberWriter): string
    decreases v, 1
  {
    match v
    case Nil => "null"
    case Boolean(b) => if b then "true" else "false"
    case Number(x) => fmt.write(x)
    case String(s) => Quoted(s)
    case Array(a) => "[" + ElementsText(a, |a|, fmt) + "]"
    case Object(fs) => "{" + MembersText(fs, |fs|, fmt) + "}"
  }

  /** The first n elements of an array, rendered and joined with ",". */
  function ElementsText(a: seq<Value>, n: nat, fmt: NumberWriter): string
    requires n <= |a|
    decreases Array(a), 0, n
  {
    if n == 0 then ""
    else if n == 1 then Render(a[0], fmt)
    else ElementsText(a, n - 1, fmt) + "," + Render(a[n - 1], fmt)
  }

  /** One pair of an object: `"key":value`. */
  function MemberText(fs: seq<Field>, j: nat, fmt: NumberWriter): string
    requires j < |fs|
    decreases Object(fs), 0, 0
  {
    Quoted(fs[j].key) + ":" + Render(fs[j].value, fmt)
  }

  /** The first n pairs of an object, rendered and joined with ",". */
  function MembersText(fs: seq<Field>, n: nat, fmt: NumberWriter): string
    requires n <= |fs|
    decreases Object(fs), 0, n + 1
  {
    if n == 0 then ""
    else if n == 1 then MemberText(fs, 0, fmt)
    else MembersText(fs, n - 1, fmt) + "," + MemberText(fs, n - 1, fmt)
  }

  /** The trees the serializer accepts: no array anywhere in them is empty. */
  predicate Serializable(v: Value)
    ensures v.Array? && |v.elems| == 0 ==> !Serializable(v)
    ensures !v.Array? && !v.Object? ==> Serializable(v)
    decreases v
  {
    match v
    case Array(a) => |a| > 0 && forall e :: e in a ==> Serializable(e)
    case Object(fs) => forall f :: f in fs ==> Serializable(f.value)
    case _ => true
  }

  /** What `serialize` returns: the rendered text, or the "Index out of range!"
      error that an empty array anywhere in the tree raises. */
  function Serialize(v: Value, fmt: NumberWriter): (r: Result<string>)
    ensures r.Ok? <==> Serializable(v)
    ensures r.Err? ==> r.error == IndexOutOfRange
  {
    if Serializable(v) then Ok(Render(v, fmt)) else Err(IndexOutOfRange)
  }

  /** static serialize(const Value&). */
  method SerializeValue(v: Value, fmt: NumberWriter) returns (r: Result<string>)
    ensures r == Serialize(v, fmt)
    decreases v, 1
  {
    match v
    case Boolean(b) =>
      if b {
        return Ok("true");
      }
      return Ok("false");
    case String(str) =>
      return Ok("\"" + str + "\"");
    case Nil =>
      return Ok("null");
    case Number(x) =>
      return Ok(fmt.write(x));
    case Array(a) =>
      r := SerializeElements(a, fmt);
    case Object(fs) =>
      r := SerializeMembers(fs, fmt);
  }

  /** The array loop: every element but the last followed by a comma, then
      the last one, which `a[a.size() - 1]` fetches. */
  method SerializeElements(a: seq<Value>, fmt: NumberWriter) returns (r: Result<string>)
    ensures r == Serialize(Array(a), fmt)
    decreases Array(a), 0
  {
    var s := "[";
    // a.size() - 1 is computed in size_t: for an empty array it wraps to the
    // largest size_t, so the loop body runs and subscripts a[0].
    var bound := if |a| == 0 then SizeModulus - 1 else |a| - 1;
    var i := 0;
    while i < bound
      invariant 0 <= i <= |a|
      invariant |a| > 0 ==> i <= |a| - 1
      invariant forall k :: 0 <= k < i ==> Serializable(a[k])
      invariant s == "[" + ElementsText(a, i, fmt) + (if i > 0 then "," else "")
    {
      if i >= |a| {
        // Array::operator[]: the index is not below size().
        return Err(IndexOutOfRange);
      }
      var t := SerializeValue(a[i], fmt);
      if t.Err? {
        return t;
      }
      ElementsStep(a, i, fmt);
      s := s + t.value + ",";
      i := i + 1;
    }
    if |a| >= 1 {
      var t := SerializeValue(a[|a| - 1], fmt);
      if t.Err? {
        return t;
      }
      ElementsStep(a, |a| - 1, fmt);
      s := s + t.value;
    }
    assert forall e :: e in a ==> Serializable(e);
    return Ok(s + "]");
  }

  /** The object loop, which the source writes out in both overloads: each
      pair as `"key":value`, a comma after every pair but the last. */
  method SerializeMembers(fs: seq<Field>, fmt: NumberWriter) returns (r: Result<string>)
    ensures r == Serialize(Object(fs), fmt)
    decreases Object(fs), 0
  {
    var s := "{";
    var k := 0;
    while k < |fs|
      invariant 0 <= k <= |fs|
      invariant forall j :: 0 <= j < k ==> Serializable(fs[j].value)
      invariant s == "{" + MembersText(fs, k, fmt) + (if 0 < k < |fs| then "," else "")
    {
      var key := fs[k].key;
      s := s + "\"" + key + "\":";
      var t := SerializeValue(fs[k].value, fmt);
      if t.Err? {
        return t;
      }
      MembersStep(fs, k, fmt);
      s := s + t.value;
      k := k + 1;
      if k < |fs| {
        s := s + ",";
      }
    }
    assert forall f :: f in fs ==> Serializable(f.value);
    assert s == "{" + MembersText(fs, |fs|, fmt) + "";
    assert s + "}" == Render(Object(fs), fmt);
    return Ok(s + "}");
  }

  /** serialize(const Object&): the same text as serializing the object as a
      Value. */
  method SerializeObject(o: Containers.Object, fmt: NumberWriter) returns (r: Result<string>)
    ensures r == Serialize(Object(o.fields), fmt)
  {
    r := SerializeMembers(o.fields, fmt);
  }

  /** Growing the rendered prefix of an array by one element. */
  lemma ElementsStep(a: seq<Value>, i: nat, fmt: NumberWriter)
    requires i < |a|
    ensures "[" + ElementsText(a, i, fmt) + (if i > 0 then "," else "") + Render(a[i], fmt)
         == "[" + ElementsText(a, i + 1, fmt)
  {
    if i > 0 {
      var p := ElementsText(a, i, fmt);
      assert "[" + p + "," + Render(a[i], fmt) == "[" + (p + "," + Render(a[i], fmt));
    }
  }

  /** Growing the rendered prefix of an object by one pair. */
  lemma MembersStep(fs: seq<Field>, k: nat, fmt: NumberWriter)
    requires k < |fs|
    ensures "{" + MembersText(fs, k, fmt) + (if 0 < k < |fs| then "," else "") + "\"" + fs[k].key + "\":"
              + Render(fs[k].value, fmt)
         == "{" + MembersText(fs, k + 1, fmt)
  {
    var m := MemberText(fs, k, fmt);
    assert m == "\"" + fs[k].key + "\"" + ":" + Render(fs[k].value, fmt);
    if k > 0 {
      var p := MembersText(fs, k, fmt);
      assert "{" + p + "," + "\"" + fs[k].key + "\":" + Render(fs[k].value, fmt) == "{" + (p + "," + m);
    } else {
      assert "{" + "" + "" + "\"" + fs[k].key + "\":" + Render(fs[k].value, fmt) == "{" + m;
    }
  }

  /** The leaves: the literals `null`, `true` and `false`, the number writer's
      text, and a string between quotes, copied without escaping. */
  lemma SerializeLeaves(str: string, x: Double, fmt: NumberWriter)
    ensures Serialize(Nil, fmt) == Ok("null")
    ensures Serialize(Boolean(true), fmt) == Ok("true")
    ensures Serialize(Boolean(false), fmt) == Ok("false")
    ensures Serialize(Number(x), fmt) == Ok(fmt.write(x))
    ensures Serialize(String(str), fmt) == Ok("\"" + str + "\"")
    ensures |Render(String(str), fmt)| == |str| + 2
  {
  }

  /** An empty array cannot be serialized, nor can anything that holds one,
      although its text would be `[]`. */
  lemma SerializeEmptyArray(fmt: NumberWriter)
    ensures Serialize(Array([]), fmt) == Err(IndexOutOfRange)
    ensures forall v: Value :: Serialize(Array([v, Array([])]), fmt) == Err(IndexOutOfRange)
    ensures forall key: string :: Serialize(Object([Field(key, Array([]))]), fmt) == Err(IndexOutOfRange)
    ensures Render(Array([]), fmt) == "[]"
  {
    forall v: Value
      ensures !Serializable(Array([v, Array([])]))
    {
      assert Array([]) in [v, Array([])];
    }
    forall key: string
      ensures !Serializable(Object([Field(key, Array([]))]))
    {
      assert Field(key, Array([])) in [Field(key, Array([]))];
    }
  }

  /** An empty object is `{}`; a one-pair object is `{"key":value}`. */
  lemma SerializeSmallObjects(key: string, v: Value, fmt: NumberWriter)
    ensures Serialize(Object([]), fmt) == Ok("{}")
    ensures Serializable(v) ==>
              Serialize(Object([Field(key, v)]), fmt) == Ok("{" + Quoted(key) + ":" + Render(v, fmt) + "}")
    ensures !Serializable(v) ==> Serialize(Object([Field(key, v)]), fmt) == Err(IndexOutOfRange)
  {
    assert Serialize(Object([]), fmt) == Ok("{}") by {
      assert Render(Object([]), fmt) == "{" + "" + "}" == "{}";
      assert Serializable(Object([]));
    }
    var fs := [Field(key, v)];
    assert Serializable(Object(fs)) <==> Serializable(v) by {
      assert fs[0] in fs;
    }
    assert Render(Object(fs), fmt) == "{" + Quoted(key) + ":" + Render(v, fmt) + "}" by {
      var text := Quoted(key) + ":" + Render(v, fmt);
      assert MembersText(fs, 1, fmt) == MemberText(fs, 0, fmt) == text;
      assert "{" + text + "}" == "{" + Quoted(key) + ":" + Render(v, fmt) + "}";
    }
  }

  /** A non-empty array is `[`, its elements' texts joined by `,`, then `]`,
      and it serializes exactly when each element does. */
  lemma {:induction false} SerializeArray(a: seq<Value>, fmt: NumberWriter)
    requires |a| > 0
    ensures Serialize(Array(a), fmt).Ok? <==> forall k :: 0 <= k < |a| ==> Serialize(a[k], fmt).Ok?
    ensures Serialize(Array(a), fmt).Ok? ==>
              Serialize(Array(a), fmt).value == "[" + ElementsText(a, |a|, fmt) + "]"
  {
    if forall k :: 0 <= k < |a| ==> Serialize(a[k], fmt).Ok? {
      forall e | e in a
        ensures Serializable(e)
      {
        var k :| 0 <= k < |a| && a[k] == e;
        assert Serialize(a[k], fmt).Ok?;
      }
    } else {
      var k :| 0 <= k < |a| && !Serialize(a[k], fmt).Ok?;
      assert a[k] in a;
    }
  }
}
