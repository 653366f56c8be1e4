/// The storage of jsmn::Value as the source lays it out: one field per payload
/// kind (o_, a_, s_, num_, b_) next to the tag type_. Only the payload the tag
/// names is ever read, so whatever the other fields hold is never observable.
module Cells {
  import opened Values

  class Cell {
    var tag: Tag
    var o: seq<Field>
    var a: seq<Value>
    var s: string
    var num: Double
    var b: bool

    /** The value this storage stands for: the tag and its active payload. */
    function Abstract(): (v: Value)
      reads this
      ensures TypeOf(v) == tag
    {
      match tag
      case BooleanTag => Boolean(b)
      case NumberTag => Number(num)
      case StringTag => String(s)
      case ArrayTag => Array(a)
      case ObjectTag => Object(o)
      case NilTag => Nil
    }

    /** Value(): NIL. */
    constructor ()
      ensures Abstract() == Nil
    {
      tag := NilTag;
    }

    /** Value(const Object&). */
    constructor OfObject(fields: seq<Field>)
      ensures Abstract() == Object(fields)
    {
      tag, o := ObjectTag, fields;
    }

    /** Value(const Array&). */
    constructor OfArray(elems: seq<Value>)
      ensures Abstract() == Array(elems)
    {
      tag, a := ArrayTag, elems;
    }

    /** Value(const String&) and Value(const char*). */
    constructor OfString(str: string)
      ensures Abstract() == String(str)
    {
      tag, s := StringTag, str;
    }

    /** Value(const Number&). */
    constructor OfNumber(n: Double)
      ensures Abstract() == Number(n)
    {
      tag, num := NumberTag, n;
    }

    /** Value(const Boolean&). */
    constructor OfBoolean(x: bool)
      ensures Abstract() == Boolean(x)
    {
      tag, b := BooleanTag, x;
    }

    /** Value(const Value&): copies the tag and the active payload only. */
    constructor Copy(other: Cell)
      ensures Abstract() == other.Abstract()
    {
      tag := other.tag;
      match other.tag
      case BooleanTag => b := other.b;
      case NumberTag => num := other.num;
      case StringTag => s := other.s;
      case ArrayTag => a := other.a;
      case ObjectTag => o := other.o;
      case NilTag =>
    }

    /** operator=: copies the tag and the active payload; the payload fields of
        the other kinds keep their stale contents. */
    method Assign(other: Cell)
      modifies this
      ensures Abstract() == old(other.Abstract())
      ensures tag != ObjectTag ==> o == old(o)
      ensures tag != ArrayTag ==> a == old(a)
      ensures tag != StringTag ==> s == old(s)
      ensures tag != NumberTag ==> num == old(num)
      ensures tag != BooleanTag ==> b == old(b)
    {
      if this == other {
        return;
      }
      tag := other.tag;
      match other.tag
      case BooleanTag => b := other.b;
      case NumberTag => num := other.num;
      case StringTag => s := other.s;
      case ArrayTag => a := other.a;
      case ObjectTag => o := other.o;
      case NilTag =>
    }

    /** unwrap<Boolean>: checks the tag first. */
    method UnwrapBoolean() returns (r: Result<bool>)
      ensures r.Ok? <==> tag == BooleanTag
      ensures r.Ok? ==> r.value == b
      ensures r == AsBoolean(Abstract())
    {
      if tag != BooleanTag {
        return Err(TypeMismatch(BooleanTag));
      }
      return Ok(b);
    }

    /** unwrap<Number>. */
    method UnwrapNumber() returns (r: Result<Double>)
      ensures r.Ok? <==> tag == NumberTag
      ensures r.Ok? ==> r.value == num
      ensures r == AsNumber(Abstract())
    {
      if tag != NumberTag {
        return Err(TypeMismatch(NumberTag));
      }
      return Ok(num);
    }

    /** unwrap<String>. */
    method UnwrapString() returns (r: Result<string>)
      ensures r.Ok? <==> tag == StringTag
      ensures r.Ok? ==> r.value == s
      ensures r == AsString(Abstract())
    {
      if tag != StringTag {
        return Err(TypeMismatch(StringTag));
      }
      return Ok(s);
    }

    /** unwrap<Array>. */
    method UnwrapArray() returns (r: Result<seq<Value>>)
      ensures r.Ok? <==> tag == ArrayTag
      ensures r.Ok? ==> r.value == a
      ensures r == AsArray(Abstract())
    {
      if tag != ArrayTag {
        return Err(TypeMismatch(ArrayTag));
      }
      return Ok(a);
    }

    /** unwrap<Object>. */
    method UnwrapObject() returns (r: Result<seq<Field>>)
      ensures r.Ok? <==> tag == ObjectTag
      ensures r.Ok? ==> r.value == o
      ensures r == AsObject(Abstract())
    {
      if tag != ObjectTag {
        return Err(TypeMismatch(ObjectTag));
      }
      return Ok(o);
    }

    /** const operator[](key): a type error unless the tag is OBJECT, otherwise the
        const Object subscript. */
    method GetKey(key: string) returns (r: Result<Value>)
      ensures tag != ObjectTag ==> r == Err(TypeMismatch(ObjectTag))
      ensures tag == ObjectTag ==> r == Lookup(o, key)
      ensures r == ValueKey(Abstract(), key)
    {
      if tag != ObjectTag {
        return Err(TypeMismatch(ObjectTag));
      }
      r := Lookup(o, key);
    }

    /** Non-const operator[](key): a type error unless the tag is OBJECT, otherwise
        the upserting Object subscript on the stored object. */
    method SubscriptKey(key: string) returns (r: Result<Value>)
      requires tag == ObjectTag ==> SortedKeys(o)
      modifies this
      ensures tag == old(tag) && a == old(a) && s == old(s) && num == old(num) && b == old(b)
      ensures old(tag) != ObjectTag ==> r == Err(TypeMismatch(ObjectTag)) && o == old(o)
      ensures old(tag) == ObjectTag ==> SortedKeys(o) && r.Ok? && Find(o, key) == Some(r.value)
      ensures old(tag) == ObjectTag && old(Find(o, key)).Some? ==> o == old(o)
      ensures old(tag) == ObjectTag && old(Find(o, key)).None? ==> o == Upsert(old(o), key, Nil)
    {
      if tag != ObjectTag {
        return Err(TypeMismatch(ObjectTag));
      }
      match Find(o, key)
      case Some(found) =>
        r := Ok(found);
      case None =>
        UpsertSorted(o, key, Nil);
        UpsertFind(o, key, Nil, key);
        o := Upsert(o, key, Nil);
        r := Ok(Nil);
    }

    /** operator[](int): a type error unless the tag is ARRAY, otherwise the Array
        subscript. */
    method GetIndex(index: int) returns (r: Result<Value>)
      requires IntMin <= index <= IntMax
      requires tag == ArrayTag ==> |a| <= MaxElements
      ensures tag != ArrayTag ==> r == Err(TypeMismatch(ArrayTag))
      ensures tag == ArrayTag ==> (r.Ok? <==> 0 <= index < |a|)
      ensures r.Ok? ==> tag == ArrayTag && r.value == a[index]
      ensures r == ValueIndex(Abstract(), index)
    {
      if tag != ArrayTag {
        return Err(TypeMismatch(ArrayTag));
      }
      AtInRange(a, index);
      r := At(a, index);
    }
  }
}
