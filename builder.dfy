/// The tree builder of jsmn.cpp: the static `parse(js, token, count)`, which
/// rebuilds a Value from the tokenizer's pre-order token array and reports how
/// many tokens the subtree took. `Build` is its specification; `ParseValue` is
/// the builder itself, with the source's loops and in-place containers.
module Builder {
  import opened Values
  import opened Tokens
  import Containers

  /** The built value and the number of tokens its subtree consumed (`count`). */
  datatype Built = Built(value: Value, count: nat)

  /** What the first n children of an array gave: their values and tokens used. */
  datatype Items = Items(values: seq<Value>, count: nat)

  /** What the first n pairs of an object gave: the (key, value) assignments in
      token order and the tokens used. */
  datatype Members = Members(pairs: seq<Field>, fields: seq<Field>, count: nat)

  /** One pair of an object: the assignment it makes and the tokens it used. */
  datatype Pair = Pair(field: Field, count: nat)

  /** `js[token->start]` on the NUL-terminated buffer. */
  function FirstChar(text: string, start: int): (c: char)
    requires 0 <= start <= |text|
    ensures start < |text| ==> c == text[start]
    ensures start == |text| ==> c == '\0'
  {
    if start < |text| then text[start] else '\0'
  }

  /** A PRIMITIVE token: 't', 'f' and 'n' select true, false and NIL by their
      first character alone; anything else is handed to the number parser. */
  function Primitive(text: string, t: Token, numbers: NumberReader): (v: Value)
    requires 0 <= t.start <= t.end <= |text|
    ensures v.Boolean? || v.Nil? || v.Number?
    ensures v.Number? <==> FirstChar(text, t.start) !in {'t', 'f', 'n'}
  {
    var c := FirstChar(text, t.start);
    if c == 't' then Boolean(true)
    else if c == 'f' then Boolean(false)
    else if c == 'n' then Nil
    else Number(numbers.read(text[t.start..t.end]))
  }

  /** The subtree rooted at token i. */
  function Build(text: string, toks: seq<Token>, i: nat, numbers: NumberReader): (r: Result<Built>)
    requires SpansWithin(text, toks)
    requires i <= |toks|
    ensures r.Ok? ==> 1 <= r.value.count <= |toks| - i
    decreases |toks| - i, 0, 1
  {
    if i == |toks| then Err(TokensExhausted)
    else
      var t := toks[i];
      match t.kind
      case StringToken => Ok(Built(String(text[t.start..t.end]), 1))
      case PrimitiveToken => Ok(Built(Primitive(text, t, numbers), 1))
      case ArrayToken => BuildArray(text, toks, i, numbers)
      case ObjectToken => BuildObject(text, toks, i, numbers)
      case Undefined => Err(UnsupportedToken)
  }

  /** An ARRAY token: its children, in token order. */
  function BuildArray(text: string, toks: seq<Token>, i: nat, numbers: NumberReader): (r: Result<Built>)
    requires SpansWithin(text, toks)
    requires i < |toks|
    ensures r.Ok? ==> 1 <= r.value.count <= |toks| - i
    decreases |toks| - i, 0, 0
  {
    match BuildItems(text, toks, i + 1, toks[i].size, numbers)
    case Err(e) => Err(e)
    case Ok(items) => Ok(Built(Array(items.values), 1 + items.count))
  }

  /** An OBJECT token: the map its pairs assign, in token order, so that a key
      given twice keeps its last value. */
  function BuildObject(text: string, toks: seq<Token>, i: nat, numbers: NumberReader): (r: Result<Built>)
    requires SpansWithin(text, toks)
    requires i < |toks|
    ensures r.Ok? ==> 1 <= r.value.count <= |toks| - i
    decreases |toks| - i, 0, 0
  {
    match BuildMembers(text, toks, i + 1, toks[i].size, numbers)
    case Err(e) => Err(e)
    case Ok(members) => Ok(Built(Object(members.fields), 1 + members.count))
  }

  /** The first n children of an array whose children start at token `start`:
      each child starts right after the tokens of the one before it. */
  function BuildItems(text: string, toks: seq<Token>, start: nat, n: int, numbers: NumberReader): (r: Result<Items>)
    requires SpansWithin(text, toks)
    requires start <= |toks|
    ensures r.Ok? ==> |r.value.values| == (if n < 0 then 0 else n) && r.value.count <= |toks| - start
    decreases |toks| - start, n, 2
  {
    if n <= 0 then Ok(Items([], 0))
    else
      match BuildItems(text, toks, start, n - 1, numbers)
      case Err(e) => Err(e)
      case Ok(prev) =>
        match Build(text, toks, start + prev.count, numbers)
        case Err(e) => Err(e)
        case Ok(item) => Ok(Items(prev.values + [item.value], prev.count + item.count))
  }

  /** One key/value pair of an object starting at token j: the key subtree, the
      value subtree right after it, then the key unwrapped as a String. The
      value is built before the key is unwrapped (the order C++17 gives
      `o[key.unwrap<String>()] = parse(...)`). */
  function BuildPair(text: string, toks: seq<Token>, j: nat, numbers: NumberReader): (r: Result<Pair>)
    requires SpansWithin(text, toks)
    requires j <= |toks|
    ensures r.Ok? ==> 2 <= r.value.count <= |toks| - j
    decreases |toks| - j, 0, 2
  {
    match Build(text, toks, j, numbers)
    case Err(e) => Err(e)
    case Ok(key) =>
      match Build(text, toks, j + key.count, numbers)
      case Err(e) => Err(e)
      case Ok(value) =>
        match AsString(key.value)
        case Err(e) => Err(e)
        case Ok(name) => Ok(Pair(Field(name, value.value), key.count + value.count))
  }

  /** The first n pairs of an object whose pairs start at token `start`. */
  function BuildMembers(text: string, toks: seq<Token>, start: nat, n: int, numbers: NumberReader): (r: Result<Members>)
    requires SpansWithin(text, toks)
    requires start <= |toks|
    ensures r.Ok? ==> |r.value.pairs| == (if n < 0 then 0 else n) && r.value.count <= |toks| - start
    decreases |toks| - start, n, 2
  {
    if n <= 0 then Ok(Members([], [], 0))
    else
      match BuildMembers(text, toks, start, n - 1, numbers)
      case Err(e) => Err(e)
      case Ok(prev) =>
        match BuildPair(text, toks, start + prev.count, numbers)
        case Err(e) => Err(e)
        case Ok(pair) =>
          Ok(Members(prev.pairs + [pair.field], Upsert(prev.fields, pair.field.key, pair.field.value), prev.count + pair.count))
  }

  /** The builder. Containers are filled in place, one child at a time, and
      `offset` advances by the count each child reports. */
  method ParseValue(text: string, toks: seq<Token>, i: nat, numbers: NumberReader) returns (r: Result<Built>)
    requires SpansWithin(text, toks)
    requires i <= |toks|
    ensures r == Build(text, toks, i, numbers)
    decreases |toks| - i, 0, 1
  {
    if i == |toks| {
      return Err(TokensExhausted);
    }
    var t := toks[i];
    if t.kind == StringToken {
      return Ok(Built(String(text[t.start..t.end]), 1));
    }
    if t.kind == PrimitiveToken {
      var c := FirstChar(text, t.start);
      if c == 't' {
        return Ok(Built(Boolean(true), 1));
      } else if c == 'f' {
        return Ok(Built(Boolean(false), 1));
      } else if c == 'n' {
        return Ok(Built(Nil, 1));
      } else {
        return Ok(Built(Number(numbers.read(text[t.start..t.end])), 1));
      }
    }
    if t.kind == ArrayToken {
      r := ParseArray(text, toks, i, numbers);
      return;
    }
    if t.kind == ObjectToken {
      r := ParseObject(text, toks, i, numbers);
      return;
    }
    return Err(UnsupportedToken);
  }

  /** The ARRAY branch of the builder: a fresh Array, filled by Push. */
  method ParseArray(text: string, toks: seq<Token>, i: nat, numbers: NumberReader) returns (r: Result<Built>)
    requires SpansWithin(text, toks)
    requires i < |toks|
    ensures r == BuildArray(text, toks, i, numbers)
    decreases |toks| - i, 0, 0
  {
    var t := toks[i];
    var a := new Containers.Array();
    var offset := 1;
    var k := 0;
    while k < t.size
      invariant 0 <= k && (k <= t.size || k == 0)
      invariant 1 <= offset && i + offset <= |toks|
      invariant BuildItems(text, toks, i + 1, k, numbers) == Ok(Items(a.elems, offset - 1))
    {
      var child := ParseValue(text, toks, i + offset, numbers);
      if child.Err? {
        ItemsErrorPersists(text, toks, i + 1, k + 1, t.size, numbers);
        return Err(child.error);
      }
      a.Push(child.value.value);
      offset := offset + child.value.count;
      k := k + 1;
    }
    return Ok(Built(Array(a.elems), offset));
  }

  /** The OBJECT branch of the builder: a fresh Object, filled by `o[key] = value`. */
  method ParseObject(text: string, toks: seq<Token>, i: nat, numbers: NumberReader) returns (r: Result<Built>)
    requires SpansWithin(text, toks)
    requires i < |toks|
    ensures r == BuildObject(text, toks, i, numbers)
    decreases |toks| - i, 0, 0
  {
    var t := toks[i];
    var o := new Containers.Object();
    var offset := 1;
    var k := 0;
    while k < t.size
      invariant 0 <= k && (k <= t.size || k == 0)
      invariant 1 <= offset && i + offset <= |toks|
      invariant o.Valid()
      invariant BuildMembers(text, toks, i + 1, k, numbers).Ok?
      invariant BuildMembers(text, toks, i + 1, k, numbers).value.fields == o.fields
      invariant BuildMembers(text, toks, i + 1, k, numbers).value.count == offset - 1
    {
      ghost var done := BuildMembers(text, toks, i + 1, k, numbers).value;
      var pair := ParsePair(text, toks, i + offset, numbers);
      if pair.Err? {
        ObjectFailsAt(text, toks, i, k, done, i + offset, pair.error, numbers);
        return Err(pair.error);
      }
      MembersAdvance(text, toks, i + 1, k, numbers, done, i + offset, pair.value);
      o.Put(pair.value.field.key, pair.value.field.value);
      offset := offset + pair.value.count;
      k := k + 1;
    }
    ObjectBuilt(text, toks, i, k, BuildMembers(text, toks, i + 1, k, numbers).value, numbers);
    return Ok(Built(Object(o.fields), offset));
  }

  /** The body of the OBJECT loop: parse the key, then the value, then unwrap
      the key as a String. */
  method ParsePair(text: string, toks: seq<Token>, j: nat, numbers: NumberReader) returns (r: Result<Pair>)
    requires SpansWithin(text, toks)
    requires j <= |toks|
    ensures r == BuildPair(text, toks, j, numbers)
    decreases |toks| - j, 0, 2
  {
    var key := ParseValue(text, toks, j, numbers);
    if key.Err? {
      return Err(key.error);
    }
    var value := ParseValue(text, toks, j + key.value.count, numbers);
    if value.Err? {
      return Err(value.error);
    }
    var name := AsString(key.value.value);
    if name.Err? {
      return Err(name.error);
    }
    return Ok(Pair(Field(name.value, value.value.value), key.value.count + value.value.count));
  }

  /** An object whose first k pairs (all of them) built: the object holds
      what their assignments made. */
  lemma ObjectBuilt(text: string, toks: seq<Token>, i: nat, k: nat, m: Members, numbers: NumberReader)
    requires SpansWithin(text, toks)
    requires i < |toks|
    requires k == toks[i].size || (k == 0 && toks[i].size < 0)
    requires BuildMembers(text, toks, i + 1, k, numbers) == Ok(m)
    ensures BuildObject(text, toks, i, numbers) == Ok(Built(Object(m.fields), m.count + 1))
  {
    if k != toks[i].size {
      assert BuildMembers(text, toks, i + 1, toks[i].size, numbers) == Ok(Members([], [], 0));
    }
  }

  /** An object whose pair number k fails fails with the same error: the
      pairs after it are never looked at. */
  lemma ObjectFailsAt(text: string, toks: seq<Token>, i: nat, k: nat, m: Members, at: nat,
                      e: Error, numbers: NumberReader)
    requires SpansWithin(text, toks)
    requires i < |toks| && k < toks[i].size
    requires BuildMembers(text, toks, i + 1, k, numbers) == Ok(m)
    requires at == i + 1 + m.count && at <= |toks|
    requires BuildPair(text, toks, at, numbers) == Err(e)
    ensures BuildObject(text, toks, i, numbers) == Err(e)
  {
    MembersFail(text, toks, i + 1, k, numbers, m, at, e);
    MembersErrorPersists(text, toks, i + 1, k + 1, toks[i].size, numbers);
  }

  /** One more child after the first k: it is appended. */
  lemma ItemsAdvance(text: string, toks: seq<Token>, start: nat, k: nat, numbers: NumberReader,
                     m: Items, at: nat, item: Built)
    requires SpansWithin(text, toks) && start <= |toks|
    requires BuildItems(text, toks, start, k, numbers) == Ok(m)
    requires at == start + m.count && at <= |toks|
    requires Build(text, toks, at, numbers) == Ok(item)
    ensures BuildItems(text, toks, start, k + 1, numbers) == Ok(Items(m.values + [item.value], m.count + item.count))
  {
  }

  /** One more pair after the first k: it is recorded and assigned. */
  lemma MembersAdvance(text: string, toks: seq<Token>, start: nat, k: nat, numbers: NumberReader,
                       m: Members, at: nat, pair: Pair)
    requires SpansWithin(text, toks) && start <= |toks|
    requires BuildMembers(text, toks, start, k, numbers) == Ok(m)
    requires at == start + m.count && at <= |toks|
    requires BuildPair(text, toks, at, numbers) == Ok(pair)
    ensures BuildMembers(text, toks, start, k + 1, numbers)
         == Ok(Members(m.pairs + [pair.field], Upsert(m.fields, pair.field.key, pair.field.value), m.count + pair.count))
  {
  }

  /** A failing pair after the first k makes the prefix fail with its error. */
  lemma MembersFail(text: string, toks: seq<Token>, start: nat, k: nat, numbers: NumberReader,
                    m: Members, at: nat, e: Error)
    requires SpansWithin(text, toks) && start <= |toks|
    requires BuildMembers(text, toks, start, k, numbers) == Ok(m)
    requires at == start + m.count && at <= |toks|
    requires BuildPair(text, toks, at, numbers) == Err(e)
    ensures BuildMembers(text, toks, start, k + 1, numbers) == Err(e)
  {
  }

  /** Once a prefix of the children fails, the whole array fails the same way. */
  lemma {:induction false} ItemsErrorPersists(text: string, toks: seq<Token>, start: nat, k: int, n: int, numbers: NumberReader)
    requires SpansWithin(text, toks) && start <= |toks|
    requires 0 < k <= n
    requires BuildItems(text, toks, start, k, numbers).Err?
    ensures BuildItems(text, toks, start, n, numbers) == BuildItems(text, toks, start, k, numbers)
    decreases n
  {
    if k < n {
      ItemsErrorPersists(text, toks, start, k, n - 1, numbers);
    }
  }

  /** Once a prefix of the pairs fails, the whole object fails the same way. */
  lemma {:induction false} MembersErrorPersists(text: string, toks: seq<Token>, start: nat, k: int, n: int, numbers: NumberReader)
    requires SpansWithin(text, toks) && start <= |toks|
    requires 0 < k <= n
    requires BuildMembers(text, toks, start, k, numbers).Err?
    ensures BuildMembers(text, toks, start, n, numbers) == BuildMembers(text, toks, start, k, numbers)
    decreases n
  {
    if k < n {
      MembersErrorPersists(text, toks, start, k, n - 1, numbers);
    }
  }
}
