# jsmnpp core in Dafny

jsmnpp is a small C++ wrapper around the jsmn JSON tokenizer. This project models its core:

- **The value model.** `jsmn::Value` is a six-way tagged value: NIL, Boolean, Number, String, Array or Object.
  - `jsmn::Object` wraps a `std::map<string, Value>`. Its keys are unique and iterate in ascending byte order.
  - `jsmn::Array` wraps a `std::vector<Value>`.
  - Each class has accessors that check the tag, the bounds or the key.
- **The tree builder.** The static `parse(js, token, count)` rebuilds a Value from the tokenizer's flat, pre-order token array. It also reports how many tokens the subtree used.
- **The document parse.** `parse(const string&)` checks the tokenizer's return code and the kind of the root token, then builds the root object.
- **The serializer.** The two `serialize` overloads write a value tree as compact JSON text.

Module by module:

- `Keys`: the `std::string` key order, and the fact that it is a strict total order.
- `Values`:
  - the `Value` datatype, the `Error` kinds that stand for the exceptions, and `unwrap<T>` (`AsBoolean` … `AsObject`);
  - the map as a sorted field list: `Upsert` is `map[key] = v`, and `Collect` folds a sequence of such assignments;
  - the array and value subscripts. The int index is converted to `size_t` explicitly.
- `Containers`: the `Object` and `Array` classes, whose methods update the wrapped map or vector in place.
- `Cells`: the physical layout of `jsmn::Value`, with one field per payload next to the tag. Its constructors, copy, assignment and unwraps are methods on it.
- `Tokens`: the tokenizer's output. The tokenizer itself is not modelled.
- `Builder`:
  - `Build` is the specification of the builder;
  - `ParseValue`, `ParseArray`, `ParseObject` and `ParsePair` are the builder itself, with the source's loops, Push and `o[key] = value`, and are proved equal to `Build`.
- `BuilderProperties`: what the builder promises about leaves, arrays, objects and well-formedness.
- `Document`: `parse(const string&)` on the tokenizer's result.
- `Serializer`:
  - `Render` is the JSON text;
  - `Serialize` is what the code returns: that text, or "Index out of range!" when the tree holds an empty array;
  - `SerializeValue`, `SerializeElements` and `SerializeMembers` are the source's loops, proved equal to `Serialize`.
- `RoundTrip`: parsing what the serializer writes gives the object back.

Strings are `seq<char>`, with one Dafny `char` standing for one byte of a `std::string`. Token offsets therefore count bytes, as jsmn's do. The key order compares characters by code, as `char_traits<char>` compares bytes as unsigned char. Characters above U+00FF have no counterpart in the source. The exception is '\0': the builder reads the text as a NUL-terminated C string, and the model does not (see "## Left out").

The two `serialize` overloads contain the same object loop (jsmn.cpp:356-366 and jsmn.cpp:374-384). The model has that loop once, as `Serializer.SerializeMembers`, and both overloads call it. Their agreement therefore holds by construction, not by a proof about two copies.

Numbers are 64-bit patterns. The text-to-double and double-to-text conversions (`std::stringstream`) are the parameters `NumberReader` and `NumberWriter`.

## Model

| member | source | states |
|---|---|---|
| Keys.KeyLess | jsmn.hpp:47 | defines the map's key order, `std::string`'s `operator<`: lexicographic, characters compared by code, a proper prefix first; a key never sorts before an equal key |
| Keys.KeyLessIrreflexive | jsmn.hpp:47 | no key sorts before itself in the map's key order |
| Keys.KeyLessTransitive | jsmn.hpp:47 | the map's key order is transitive |
| Keys.KeyLessTotal | jsmn.hpp:47 | two different keys are always ordered one way or the other, so the map's iteration order is determined |
| Keys.KeyLessAsymmetric | jsmn.hpp:47 | the key order is asymmetric |
| Values.TypeOf | jsmn.hpp:161-163 | defines `type()`: the tag of the active payload, OBJECT, ARRAY and NIL exactly for those values |
| Values.AsBoolean | jsmn.cpp:164-173 | unwrap<Boolean> succeeds iff the tag is BOOLEAN and then returns the payload; otherwise it fails with a type mismatch |
| Values.AsNumber | jsmn.cpp:153-162 | unwrap<Number> succeeds iff the tag is NUMBER, returning the payload; otherwise it is a type mismatch |
| Values.AsString | jsmn.cpp:175-184 | unwrap<String> succeeds iff the tag is STRING, returning the payload; otherwise it is a type mismatch |
| Values.AsArray | jsmn.cpp:197-206 | unwrap<Array> succeeds iff the tag is ARRAY, returning the payload; otherwise it is a type mismatch |
| Values.AsObject | jsmn.cpp:186-195 | unwrap<Object> succeeds iff the tag is OBJECT, returning the payload; otherwise it is a type mismatch |
| Values.Find | jsmn.cpp:29 | `map::find` succeeds iff the key is present, and the pair it finds is in the map |
| Values.Lookup | jsmn.cpp:28-32 | the const Object subscript succeeds iff the key is present, returning its stored pair's value; otherwise KeyNotFound |
| Values.Upsert | jsmn.cpp:25-27 | defines `map[key] = v` on the sorted field list: replace the entry for `key`, or insert it at its place in key order; its map semantics are proved in UpsertKeys, UpsertSorted, UpsertFind and UpsertLength |
| Values.Collect | jsmn.cpp:284-290 | defines the map the object loop leaves behind: its `o[key] = value` assignments folded in token order from an empty map; its properties are proved in CollectSorted, CollectLastWins and CollectOfSorted |
| Values.CollectStep | jsmn.cpp:288 | one more `o[key] = value` applies on top of the earlier assignments |
| Values.UpsertKeys | jsmn.cpp:25-27 | after `map[key] = v` the key set is the old key set plus `key` |
| Values.UpsertSorted | jsmn.hpp:47 | `map[key] = v` keeps the keys unique and ascending |
| Values.UpsertFind | jsmn.cpp:25-27 | after `map[key] = v` the key maps to v, and every other key keeps its old lookup result |
| Values.SortedDistinct | jsmn.hpp:47 | a map's keys are distinct, so its entry count is its number of keys |
| Values.UpsertLength | jsmn.hpp:69-71 | `map[key] = v` grows size() by one exactly when the key was absent |
| Values.CollectSorted | jsmn.cpp:284-290 | the map the object loop fills has ascending keys, exactly the keys assigned, and at most one entry per assignment |
| Values.CollectLastWins | jsmn.cpp:284-290 | for a key assigned twice, the object keeps the value of the last assignment |
| Values.UpsertFrom | jsmn.cpp:25-27 | every entry after `map[key] = v` is an old entry or the new one |
| Values.UpsertWellFormed | jsmn.cpp:288 | assigning a well-formed value keeps every object in the tree sorted |
| Values.CollectOfSorted | jsmn.cpp:288 | assigning keys that arrive in ascending order rebuilds exactly that list |
| Values.UpsertAppends | jsmn.cpp:25-27 | assigning a key larger than every present key appends it at the end of the iteration order |
| Values.At | jsmn.cpp:60-67 | defines Array::operator[](int), with the int converted to size_t before the comparison; a hit is an element of the array, a miss is IndexOutOfRange (the exact range is AtInRange) |
| Values.AtInRange | jsmn.cpp:60-67 | for every int index, Array::operator[] succeeds iff 0 <= index < size(), and then returns that element; a negative index wraps as size_t and fails |
| Values.ValueKey | jsmn.cpp:212-215 | Value::operator[](key) fails unless the tag is OBJECT, and otherwise succeeds iff the key is present |
| Values.ValueIndex | jsmn.cpp:217-224 | defines Value::operator[](int): a type mismatch unless the tag is ARRAY, otherwise the Array subscript, whose hit is an element of the array (the exact range is ValueIndexCases) |
| Values.ValueIndexCases | jsmn.cpp:217-224 | Value::operator[](index) fails unless the tag is ARRAY, and otherwise succeeds iff the index is in range, returning that element |
| Containers.Object.constructor | jsmn.cpp:12-13 | a new object is an empty map |
| Containers.Object.Copy | jsmn.cpp:14-16 | the copy holds the other object's map |
| Containers.Object.Assign | jsmn.cpp:17-21 | after assignment, including self-assignment, the object holds the other's map |
| Containers.Object.Size | jsmn.hpp:69-71 | size() is the number of distinct keys |
| Containers.Object.Get | jsmn.cpp:28-32 | the const subscript finds the stored value iff the key is present, and otherwise fails with KeyNotFound; the map is unchanged |
| Containers.Object.Subscript | jsmn.cpp:25-27 | the non-const subscript inserts NIL only when the key is absent, returns the stored value, and leaves every other key unchanged |
| Containers.Object.Put | jsmn.cpp:288 | `o[key] = v` is an upsert that keeps the keys sorted |
| Containers.Array.constructor | jsmn.cpp:47-48 | a new array is empty |
| Containers.Array.Copy | jsmn.cpp:49-51 | the copy holds the other array's elements |
| Containers.Array.Assign | jsmn.cpp:52-56 | after assignment, including self-assignment, the array holds the other's elements |
| Containers.Array.Size | jsmn.hpp:118-120 | size() is the number of elements |
| Containers.Array.Get | jsmn.cpp:64-67 | the const subscript succeeds iff 0 <= index < size(), returning that element, and otherwise fails with IndexOutOfRange |
| Containers.Array.Put | jsmn.cpp:60-63 | writing through the non-const subscript succeeds iff the index is in range, and then replaces exactly that element |
| Containers.Array.Push | jsmn.cpp:82-84 | Push appends at the end: size grows by one, the last element is the value pushed, and earlier elements are unchanged |
| Cells.Cell.Abstract | jsmn.hpp:161-163 | the value a cell stands for carries the cell's tag |
| Cells.Cell.constructor | jsmn.cpp:86-88 | Value() is NIL |
| Cells.Cell.OfObject | jsmn.cpp:89-91 | Value(Object) is that object |
| Cells.Cell.OfArray | jsmn.cpp:92-94 | Value(Array) is that array |
| Cells.Cell.OfString | jsmn.cpp:95-100 | Value(String) and Value(const char*) are that string |
| Cells.Cell.OfNumber | jsmn.cpp:101-103 | Value(Number) is that number |
| Cells.Cell.OfBoolean | jsmn.cpp:107-109 | Value(Boolean) is that boolean |
| Cells.Cell.Copy | jsmn.cpp:110-127 | the copy constructor keeps the tag and the active payload |
| Cells.Cell.Assign | jsmn.cpp:128-147 | assignment keeps the other's tag and active payload, and the inactive payload fields keep their stale contents |
| Cells.Cell.UnwrapBoolean | jsmn.cpp:164-173 | unwrap<Boolean> succeeds iff the tag is BOOLEAN, reading the b_ field |
| Cells.Cell.UnwrapNumber | jsmn.cpp:153-162 | unwrap<Number> succeeds iff the tag is NUMBER, reading num_ |
| Cells.Cell.UnwrapString | jsmn.cpp:175-184 | unwrap<String> succeeds iff the tag is STRING, reading s_ |
| Cells.Cell.UnwrapArray | jsmn.cpp:197-206 | unwrap<Array> succeeds iff the tag is ARRAY, reading a_ |
| Cells.Cell.UnwrapObject | jsmn.cpp:186-195 | unwrap<Object> succeeds iff the tag is OBJECT, reading o_ |
| Cells.Cell.GetKey | jsmn.cpp:212-215 | the const key subscript fails unless the tag is OBJECT, and otherwise is the Object's const subscript |
| Cells.Cell.SubscriptKey | jsmn.cpp:208-211 | the non-const key subscript fails unless the tag is OBJECT, and otherwise upserts NIL only for an absent key; the other payloads are unchanged |
| Cells.Cell.GetIndex | jsmn.cpp:217-224 | the index subscript fails unless the tag is ARRAY, and otherwise succeeds iff the index is in range |
| Builder.FirstChar | jsmn.cpp:245-251 | defines `js[token->start]` on the NUL-terminated buffer: the character at that position, or NUL just past the end |
| Builder.Primitive | jsmn.cpp:243-261 | a PRIMITIVE token is always true, false, NIL or a number, and it is a number exactly when its first character is not `t`, `f` or `n` |
| Builder.Build | jsmn.cpp:236-297 | a subtree that builds uses at least one token and no more than remain |
| Builder.BuildArray | jsmn.cpp:263-276 | an array uses its own token plus its children's, within the tokens that remain |
| Builder.BuildObject | jsmn.cpp:278-293 | an object uses its own token plus its pairs', within the tokens that remain |
| Builder.BuildItems | jsmn.cpp:270-273 | the array loop's first n iterations give exactly n elements, using tokens that remain |
| Builder.BuildPair | jsmn.cpp:286-289 | a pair uses at least two tokens: its key's and its value's |
| Builder.BuildMembers | jsmn.cpp:285-290 | the object loop's first n iterations record exactly n pairs, using tokens that remain |
| Builder.ParseValue | jsmn.cpp:236-297 | the builder returns exactly what `Build` specifies, value and token count, or the same error |
| Builder.ParseArray | jsmn.cpp:263-276 | the Push loop builds exactly `BuildArray` |
| Builder.ParseObject | jsmn.cpp:278-293 | the `o[key] = value` loop builds exactly `BuildObject` |
| Builder.ParsePair | jsmn.cpp:286-289 | one iteration of the object loop: key, then value, then the String unwrap, as `BuildPair` |
| Builder.ObjectBuilt | jsmn.cpp:285-292 | once every pair has been assigned, the object holds their assignments and uses one token plus theirs |
| Builder.ObjectFailsAt | jsmn.cpp:285-290 | a failing pair makes the whole object fail with its error |
| Builder.ItemsAdvance | jsmn.cpp:271-272 | the next child is appended and starts right after the tokens used so far |
| Builder.MembersAdvance | jsmn.cpp:286-289 | the next pair is recorded and upserted, and starts right after the tokens used so far |
| Builder.MembersFail | jsmn.cpp:286-288 | a failing pair fails the loop at that iteration |
| Builder.ItemsErrorPersists | jsmn.cpp:270-273 | once a child fails, the array fails with that error |
| Builder.MembersErrorPersists | jsmn.cpp:285-290 | once a pair fails, the object fails with that error |
| BuilderProperties.Leaves | jsmn.cpp:237-261 | a STRING token gives its text unchanged and a PRIMITIVE gives true, false, NIL or a number by its first character, both using one token; an unsupported kind or a read past the tokens fails |
| BuilderProperties.ItemsLast | jsmn.cpp:270-273 | n built children are the first n - 1 plus one more subtree right after them |
| BuilderProperties.MembersLast | jsmn.cpp:285-290 | n built pairs are the first n - 1 plus one more pair right after them |
| BuilderProperties.ItemsTiled | jsmn.cpp:270-274 | the array's children tile the tokens after it, each starting where the one before ended |
| BuilderProperties.TiledSnoc | jsmn.cpp:271-272 | one more child after the tiled ones keeps the tiling |
| BuilderProperties.ArrayChildren | jsmn.cpp:263-276 | an ARRAY token with size n gives exactly n elements in token order, and uses 1 plus the sum of the children's counts |
| BuilderProperties.MembersTiled | jsmn.cpp:285-291 | the object's pairs tile the tokens after it |
| BuilderProperties.PairsTiledSnoc | jsmn.cpp:286-289 | one more pair after the tiled ones keeps the tiling |
| BuilderProperties.MembersFold | jsmn.cpp:285-290 | the map the loop fills is the fold of its assignments in token order |
| BuilderProperties.PairShape | jsmn.cpp:286-288 | a pair succeeds iff its key and value build and the key is a String; a key of another type fails with a type mismatch |
| BuilderProperties.ObjectChildren | jsmn.cpp:278-293 | an OBJECT token assigns its pairs in token order: the keys are unique and ascending, there are at most size of them, and a repeated key keeps its last value |
| BuilderProperties.BuildWellFormed | jsmn.cpp:236-297 | every tree the builder returns has unique, ascending keys in each object |
| BuilderProperties.ItemsWellFormed | jsmn.cpp:270-273 | the elements the array loop builds are well formed |
| BuilderProperties.MembersWellFormed | jsmn.cpp:285-290 | the object the loop fills is well formed |
| BuilderProperties.PairWellFormed | jsmn.cpp:288 | the value of a pair is well formed |
| Document.ParseDocument | jsmn.cpp:309-317 | a negative tokenizer result fails to parse; zero tokens or a non-OBJECT root fails with ObjectExpected; success needs an OBJECT root |
| Document.Parse | jsmn.cpp:299-318 | the document parse returns exactly `ParseDocument` |
| Document.ParseDocumentObject | jsmn.hpp:200-206 | a document either fails with the builder's error, or is the well-formed object the builder made from token 0 |
| Serializer.Render | jsmn.cpp:320-367 | defines the compact JSON text of a value, as the serializer writes it for every tree it accepts and as it evidently means to write an empty array (`[]`) |
| Serializer.Serializable | jsmn.cpp:341-352 | the trees the serializer accepts: a non-empty array whose elements are accepted, an object whose values are; an empty array never is, and leaves always are |
| Serializer.Serialize | jsmn.cpp:320-371 | what `serialize` returns: it succeeds exactly on the accepted trees, and otherwise fails with IndexOutOfRange |
| Serializer.SerializeValue | jsmn.cpp:320-371 | serializing a value returns exactly `Serialize`: its text, or IndexOutOfRange when it holds an empty array |
| Serializer.SerializeElements | jsmn.cpp:341-352 | the array loop, with the bound computed in size_t, returns exactly `Serialize` of the array |
| Serializer.SerializeMembers | jsmn.cpp:354-367 | the object loop returns exactly `Serialize` of the object |
| Serializer.SerializeObject | jsmn.cpp:373-385 | serialize(Object) produces the same result as serializing Value(Object); both overloads run the one model loop SerializeMembers, so they agree by construction |
| Serializer.SerializeLeaves | jsmn.cpp:322-339 | NIL, true, false, a number and a string serialize as `null`, `true`, `false`, the writer's text and the string between quotes with no escaping |
| Serializer.SerializeEmptyArray | jsmn.cpp:344 | an empty array, or any tree that holds one, fails with IndexOutOfRange although its text would be `[]` |
| Serializer.SerializeSmallObjects | jsmn.cpp:354-367 | an empty object gives `{}`; a one-pair object gives `{"key":value}`, or fails when its value does |
| Serializer.SerializeArray | jsmn.cpp:341-352 | a non-empty array serializes iff each element does, as `[`, its elements joined by `,`, then `]` |
| RoundTrip.BuildRender | jsmn.cpp:236-297 | given the serializer's text and its tokens, the builder rebuilds the value, using all of its tokens |
| RoundTrip.BuildRenderLeaf | jsmn.cpp:237-261 | the builder reads back each rendered leaf |
| RoundTrip.BuildRenderArray | jsmn.cpp:263-276 | the builder reads back each rendered array |
| RoundTrip.BuildRenderObject | jsmn.cpp:278-293 | the builder reads back each rendered object |
| RoundTrip.BuildRenderItems | jsmn.cpp:270-273 | the array loop reads back the first n rendered elements |
| RoundTrip.BuildRenderMembers | jsmn.cpp:285-290 | the object loop reads back the first n rendered pairs |
| RoundTrip.BuildRenderPair | jsmn.cpp:286-289 | one rendered pair reads back as its key and value |
| RoundTrip.LayoutWithin | jsmn.cpp:236-297 | every token of a rendered value spans a part of its text |
| RoundTrip.ParseSerialized | jsmn.cpp:299-318 | parse(Render(o)) == o: the document parse of the corrected serializer's text, with its tokens, gives back every object whose keys are sorted at every level and whose numbers read back |
| RoundTrip.ParseSerializeResult | jsmn.cpp:299-318 | parse(serialize(o)) == o for the serializer as written: whenever `serialize` succeeds (no empty array in the object), parsing its text gives the object back |

## Left out

- The jsmn tokenizer (`jsmn_init`, `jsmn_parse`, `jsmn.h`) is foreign code. Its return code and its tokens are inputs of the document parse. The round trip builds the tokens itself, as the tokenizer lays them out.
- `parse(const char* file)` (jsmn.cpp:226-234) reads a file and is not modelled.
- `malloc`, `free` and the fixed `MAX_TOKEN_SIZE` buffer are not modelled. The tokens are an arbitrary sequence, and the allocation failure "Insufficient memory!" is not represented.
- Number conversion through `std::stringstream` is left out because of precision and locale. It appears only as the `NumberReader` and `NumberWriter` parameters.
- `Value(const int)` (jsmn.cpp:104-106) converts an int to a double and is not modelled.
- Error messages are modelled as `Error` kinds. Exceptions are `Err` results.
- The `begin`/`end` iterators are not modelled. Iteration is the order of the field sequence.
- Non-const references returned by `operator[]` are not modelled. Writes through them are `Containers.Object.Put` and `Containers.Array.Put`.
- Containers.Object.Put: its contract gives the new map as `Upsert`. The map semantics of `Upsert` are proved separately in `Values.UpsertFind` and `Values.UpsertKeys`.
- Builder.ParseObject: the model evaluates the value before unwrapping the key, as C++17 orders `o[key.unwrap<String>()] = parse(...)`. Before C++17 the order is unspecified. A non-String key whose value subtree also fails may then report the other error.
- Builder.Build: reading past the last token is undefined behaviour in the source. The model reports it as `TokensExhausted`.
- Builder.Build: the source cuts each string and number token out of `json_string.c_str()` with `string(js, start, end - start)` (jsmn.cpp:238, 255, 300). That constructor reads `js` only up to its first '\0'. A token that reaches past the first '\0' yields a truncated string in the source, and a token that starts past it throws `std::out_of_range`. The model reads `text[start..end]` in full, so it agrees with the source only while every token ends before the first '\0' of the text. Whether the jsmn tokenizer stops at '\0' depends on `jsmn_parse`, which is not part of this model.
- The `start`, `end` and `size` fields of `jsmntok_t` are C `int`s, while those of `Tokens.Token` are unbounded integers. A text longer than 2^31 - 1 characters, where those fields would overflow, is not modelled.
- Serializer.Render: strings are copied without escaping. This does not follow section 7 of RFC 8259.
- RoundTrip.ParseSerialized:
  - It assumes every number reads back as itself (`Readable`), which NaN and rounding may break.
  - Its tokens match the jsmn tokenizer only for strings without quotes or backslashes, because the serializer does not escape.
  - It does not hold in the source for a key or a string that contains '\0', or for a number text that contains one. `Render` copies the '\0' into the text, and the source's builder then stops reading at it (see the Builder.Build line above). For example, `{"k":"a\0b"}` comes back as `"a"` in the source but whole in the model. The same holds for `RoundTrip.ParseSerializeResult`.
  - The source's `parse(const string&)` hands the tokenizer a buffer of `MAX_TOKEN_SIZE` = 1000 tokens (jsmn.cpp:10, 305-310). A document that needs more tokens fails there with "Parse json string failed!". The lemma takes the token count as given, so it holds for the source only for documents of at most 1000 tokens.
  - It is stated for `Serializer.Render`, the corrected text. For the serializer as written it holds only where `serialize` succeeds, which is `RoundTrip.ParseSerializeResult`.

## Findings

| source | as written | input that shows it | evidently intended | confidence | as-written member | corrected member |
|---|---|---|---|---|---|---|
| jsmn.cpp:344 | `a.size() - 1` is computed in size_t, so for an empty array the loop runs and `a[0]` throws "Index out of range!" (jsmn.cpp:65) | `Array([])`, or any object holding one | the text `[]` | not executed | Serializer.SerializeEmptyArray | RoundTrip.ParseSerialized |

The corrected serializer is `Serializer.Render`. It writes an empty array as `[]`, and `RoundTrip.ParseSerialized` proves that the text it writes parses back to the object, empty arrays included. `Serializer.SerializeValue` and `Serializer.SerializeElements` keep the behaviour as written.
