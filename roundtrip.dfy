/// Serializing and parsing back. `Layout` is the token array the jsmn
/// tokenizer reports for the text `Render` produces (a STRING token spans the
/// characters between the quotes; the key of a pair is a STRING token with one
/// child); `BuildRender` shows that the builder, given that text and those
/// tokens, rebuilds the value it came from.
module RoundTrip {
  import opened Values
  import opened Tokens
  import opened Builder
  import opened Serializer
  import BuilderProperties
  import Document

  /** `w` is written in `text` from position `pos` on. */
  predicate Occurs(text: string, pos: nat, w: string)
  {
    pos + |w| <= |text| && text[pos..pos + |w|] == w
  }

  /** `ts` sits in `toks` from index `i` on. */
  predicate Placed(toks: seq<Token>, i: nat, ts: seq<Token>)
  {
    i + |ts| <= |toks| && toks[i..i + |ts|] == ts
  }

  lemma OccursConcat(text: string, pos: nat, x: string, y: string)
    requires Occurs(text, pos, x + y)
    ensures Occurs(text, pos, x) && Occurs(text, pos + |x|, y)
  {
    assert text[pos..pos + |x|] == (x + y)[..|x|];
    assert text[pos + |x|..pos + |x| + |y|] == (x + y)[|x|..];
  }

  lemma PlacedConcat(toks: seq<Token>, i: nat, xs: seq<Token>, ys: seq<Token>)
    requires Placed(toks, i, xs + ys)
    ensures Placed(toks, i, xs) && Placed(toks, i + |xs|, ys)
  {
    assert toks[i..i + |xs|] == (xs + ys)[..|xs|];
    assert toks[i + |xs|..i + |xs| + |ys|] == (xs + ys)[|xs|..];
  }

  lemma PrefixSnoc<T>(s: seq<T>, n: nat)
    requires 0 < n <= |s|
    ensures s[..n - 1] + [s[n - 1]] == s[..n]
  {
  }

  /** Where, in the text, element n of an array whose elements start at `pos`
      begins: after the text of elements 0 .. n-1 and the comma after them. */
  function ElementAt(a: seq<Value>, n: nat, pos: nat, fmt: NumberWriter): nat
    requires n < |a|
  {
    pos + |ElementsText(a, n, fmt)| + (if n > 0 then 1 else 0)
  }

  /** The same for pair n of an object. */
  function MemberAt(fs: seq<Field>, n: nat, pos: nat, fmt: NumberWriter): nat
    requires n < |fs|
  {
    pos + |MembersText(fs, n, fmt)| + (if n > 0 then 1 else 0)
  }

  /** The tokens of `Render(v, fmt)` written at text position `pos`. */
  function Layout(v: Value, pos: nat, fmt: NumberWriter): seq<Token>
    decreases v, 1
  {
    match v
    case String(s) => [Token(StringToken, pos + 1, pos + 1 + |s|, 0)]
    case Array(a) =>
      [Token(ArrayToken, pos, pos + |Render(v, fmt)|, |a|)] + ElementsLayout(a, |a|, pos + 1, fmt)
    case Object(fs) =>
      [Token(ObjectToken, pos, pos + |Render(v, fmt)|, |fs|)] + MembersLayout(fs, |fs|, pos + 1, fmt)
    case _ => [Token(PrimitiveToken, pos, pos + |Render(v, fmt)|, 0)]
  }

  /** The tokens of the first n elements of an array whose text starts at `pos`. */
  function ElementsLayout(a: seq<Value>, n: nat, pos: nat, fmt: NumberWriter): seq<Token>
    requires n <= |a|
    decreases Array(a), 0, n
  {
    if n == 0 then []
    else ElementsLayout(a, n - 1, pos, fmt) + Layout(a[n - 1], ElementAt(a, n - 1, pos, fmt), fmt)
  }

  /** The tokens of one pair: its key (a STRING token with one child), then its value. */
  function MemberLayout(fs: seq<Field>, n: nat, pos: nat, fmt: NumberWriter): seq<Token>
    requires n < |fs|
    decreases Object(fs), 0, 0
  {
    var at := MemberAt(fs, n, pos, fmt);
    var key := fs[n].key;
    [Token(StringToken, at + 1, at + 1 + |key|, 1)] + Layout(fs[n].value, at + |Quoted(key)| + 1, fmt)
  }

  /** The tokens of the first n pairs of an object whose text starts at `pos`. */
  function MembersLayout(fs: seq<Field>, n: nat, pos: nat, fmt: NumberWriter): seq<Token>
    requires n <= |fs|
    decreases Object(fs), 0, n + 1
  {
    if n == 0 then [] else MembersLayout(fs, n - 1, pos, fmt) + MemberLayout(fs, n - 1, pos, fmt)
  }

  /** A number the writer and the reader agree on: its text is not empty,
      does not start like `true`, `false` or `null`, and reads back as the
      same double. */
  predicate Readable(x: Double, numbers: NumberReader, fmt: NumberWriter)
  {
    var w := fmt.write(x);
    |w| > 0 && w[0] != 't' && w[0] != 'f' && w[0] != 'n' && numbers.read(w) == x
  }

  /** Every number in the tree is Readable. */
  predicate NumbersReadable(v: Value, numbers: NumberReader, fmt: NumberWriter)
    decreases v
  {
    match v
    case Number(x) => Readable(x, numbers, fmt)
    case Array(a) => forall e :: e in a ==> NumbersReadable(e, numbers, fmt)
    case Object(fs) => forall f :: f in fs ==> NumbersReadable(f.value, numbers, fmt)
    case _ => true
  }

  /** Parsing what the serializer writes gives the value back, token count
      included, for every tree whose objects are std::maps (keys unique and
      ascending) and whose numbers survive the text conversion. */
  lemma {:induction false} BuildRender(text: string, toks: seq<Token>, i: nat, v: Value, pos: nat,
                                       numbers: NumberReader, fmt: NumberWriter)
    requires SpansWithin(text, toks)
    requires Occurs(text, pos, Render(v, fmt))
    requires Placed(toks, i, Layout(v, pos, fmt))
    requires WellFormed(v) && NumbersReadable(v, numbers, fmt)
    ensures Build(text, toks, i, numbers) == Ok(Built(v, |Layout(v, pos, fmt)|))
    decreases v, 2
  {
    match v
    case Array(a) => BuildRenderArray(text, toks, i, a, pos, numbers, fmt);
    case Object(fs) => BuildRenderObject(text, toks, i, fs, pos, numbers, fmt);
    case _ => BuildRenderLeaf(text, toks, i, v, pos, numbers, fmt);
  }

  /** A literal, a number or a string is one token. */
  lemma BuildRenderLeaf(text: string, toks: seq<Token>, i: nat, v: Value, pos: nat,
                        numbers: NumberReader, fmt: NumberWriter)
    requires SpansWithin(text, toks)
    requires !v.Array? && !v.Object?
    requires Occurs(text, pos, Render(v, fmt))
    requires Placed(toks, i, Layout(v, pos, fmt))
    requires NumbersReadable(v, numbers, fmt)
    ensures Build(text, toks, i, numbers) == Ok(Built(v, 1))
  {
    var w := Render(v, fmt);
    assert toks[i] == Layout(v, pos, fmt)[0];
    match v
    case Nil =>
      assert text[pos] == text[pos..pos + |w|][0] == 'n';
    case Boolean(b) =>
      assert text[pos] == text[pos..pos + |w|][0] == (if b then 't' else 'f');
    case Number(x) =>
      assert text[pos..pos + |w|] == w;
    case String(s) =>
      OccursConcat(text, pos, "\"" + s, "\"");
      OccursConcat(text, pos, "\"", s);
  }

  lemma {:induction false} BuildRenderArray(text: string, toks: seq<Token>, i: nat, a: seq<Value>, pos: nat,
                                            numbers: NumberReader, fmt: NumberWriter)
    requires SpansWithin(text, toks)
    requires Occurs(text, pos, Render(Array(a), fmt))
    requires Placed(toks, i, Layout(Array(a), pos, fmt))
    requires forall e :: e in a ==> WellFormed(e) && NumbersReadable(e, numbers, fmt)
    ensures Build(text, toks, i, numbers) == Ok(Built(Array(a), |Layout(Array(a), pos, fmt)|))
    decreases Array(a), 1
  {
    ArrayShape(text, toks, i, a, pos, fmt);
    BuildRenderItems(text, toks, i + 1, a, |a|, pos + 1, numbers, fmt);
    assert a[..|a|] == a;
    assert Build(text, toks, i, numbers) == BuildArray(text, toks, i, numbers);
  }

  /** The text of an array is `[`, its elements, `]`; its tokens are its own
      ARRAY token, then its elements'. */
  lemma ArrayShape(text: string, toks: seq<Token>, i: nat, a: seq<Value>, pos: nat, fmt: NumberWriter)
    requires Occurs(text, pos, Render(Array(a), fmt))
    requires Placed(toks, i, Layout(Array(a), pos, fmt))
    ensures i < |toks| && toks[i].kind == ArrayToken && toks[i].size == |a|
    ensures Occurs(text, pos + 1, ElementsText(a, |a|, fmt))
    ensures Placed(toks, i + 1, ElementsLayout(a, |a|, pos + 1, fmt))
    ensures |Layout(Array(a), pos, fmt)| == 1 + |ElementsLayout(a, |a|, pos + 1, fmt)|
  {
    var inner := ElementsText(a, |a|, fmt);
    assert Render(Array(a), fmt) == "[" + inner + "]";
    OccursConcat(text, pos, "[" + inner, "]");
    OccursConcat(text, pos, "[", inner);
    var own := Token(ArrayToken, pos, pos + |Render(Array(a), fmt)|, |a|);
    var kids := ElementsLayout(a, |a|, pos + 1, fmt);
    assert Layout(Array(a), pos, fmt) == [own] + kids;
    PlacedConcat(toks, i, [own], kids);
    assert toks[i] == own;
  }

  lemma {:induction false} BuildRenderObject(text: string, toks: seq<Token>, i: nat, fs: seq<Field>, pos: nat,
                                             numbers: NumberReader, fmt: NumberWriter)
    requires SpansWithin(text, toks)
    requires Occurs(text, pos, Render(Object(fs), fmt))
    requires Placed(toks, i, Layout(Object(fs), pos, fmt))
    requires SortedKeys(fs)
    requires forall f :: f in fs ==> WellFormed(f.value) && NumbersReadable(f.value, numbers, fmt)
    ensures Build(text, toks, i, numbers) == Ok(Built(Object(fs), |Layout(Object(fs), pos, fmt)|))
    decreases Object(fs), 1
  {
    ObjectShape(text, toks, i, fs, pos, fmt);
    BuildRenderMembers(text, toks, i + 1, fs, |fs|, pos + 1, numbers, fmt);
    var m := BuildMembers(text, toks, i + 1, |fs|, numbers).value;
    assert m.pairs == fs by {
      assert fs[..|fs|] == fs;
    }
    assert m.fields == fs by {
      BuilderProperties.MembersFold(text, toks, i + 1, |fs|, numbers);
      CollectOfSorted(fs);
    }
    ObjectBuilt(text, toks, i, |fs|, m, numbers);
    assert Build(text, toks, i, numbers) == BuildObject(text, toks, i, numbers);
  }

  /** The text of an object is `{`, its pairs, `}`; its tokens are its own
      OBJECT token, then its pairs'. */
  lemma ObjectShape(text: string, toks: seq<Token>, i: nat, fs: seq<Field>, pos: nat, fmt: NumberWriter)
    requires Occurs(text, pos, Render(Object(fs), fmt))
    requires Placed(toks, i, Layout(Object(fs), pos, fmt))
    ensures i < |toks| && toks[i].kind == ObjectToken && toks[i].size == |fs|
    ensures Occurs(text, pos + 1, MembersText(fs, |fs|, fmt))
    ensures Placed(toks, i + 1, MembersLayout(fs, |fs|, pos + 1, fmt))
    ensures |Layout(Object(fs), pos, fmt)| == 1 + |MembersLayout(fs, |fs|, pos + 1, fmt)|
  {
    var inner := MembersText(fs, |fs|, fmt);
    assert Render(Object(fs), fmt) == "{" + inner + "}";
    OccursConcat(text, pos, "{" + inner, "}");
    OccursConcat(text, pos, "{", inner);
    var own := Token(ObjectToken, pos, pos + |Render(Object(fs), fmt)|, |fs|);
    var kids := MembersLayout(fs, |fs|, pos + 1, fmt);
    assert Layout(Object(fs), pos, fmt) == [own] + kids;
    PlacedConcat(toks, i, [own], kids);
    assert toks[i] == own;
  }

  /** Element n - 1 is written right after the text of the first n - 1. */
  lemma ElementsTextSplit(text: string, pos: nat, a: seq<Value>, n: nat, fmt: NumberWriter)
    requires 0 < n <= |a|
    requires Occurs(text, pos, ElementsText(a, n, fmt))
    ensures Occurs(text, pos, ElementsText(a, n - 1, fmt))
    ensures Occurs(text, ElementAt(a, n - 1, pos, fmt), Render(a[n - 1], fmt))
  {
    var init := ElementsText(a, n - 1, fmt);
    if n > 1 {
      OccursConcat(text, pos, init + ",", Render(a[n - 1], fmt));
      OccursConcat(text, pos, init, ",");
    }
  }

  /** Pair n - 1 is written right after the text of the first n - 1. */
  lemma MembersTextSplit(text: string, pos: nat, fs: seq<Field>, n: nat, fmt: NumberWriter)
    requires 0 < n <= |fs|
    requires Occurs(text, pos, MembersText(fs, n, fmt))
    ensures Occurs(text, pos, MembersText(fs, n - 1, fmt))
    ensures Occurs(text, MemberAt(fs, n - 1, pos, fmt), MemberText(fs, n - 1, fmt))
  {
    var init := MembersText(fs, n - 1, fmt);
    if n > 1 {
      OccursConcat(text, pos, init + ",", MemberText(fs, n - 1, fmt));
      OccursConcat(text, pos, init, ",");
    }
  }

  /** The first n children build, are the first n elements of `a`, and take
      `count` tokens. */
  predicate ItemsRebuilt(text: string, toks: seq<Token>, start: nat, a: seq<Value>, n: nat, count: nat,
                         numbers: NumberReader)
    requires SpansWithin(text, toks) && start <= |toks| && n <= |a|
  {
    var r := BuildItems(text, toks, start, n, numbers);
    r.Ok? && r.value.values == a[..n] && r.value.count == count
  }

  lemma {:induction false} BuildRenderItems(text: string, toks: seq<Token>, start: nat, a: seq<Value>, n: nat,
                                            pos: nat, numbers: NumberReader, fmt: NumberWriter)
    requires SpansWithin(text, toks)
    requires n <= |a|
    requires Occurs(text, pos, ElementsText(a, n, fmt))
    requires Placed(toks, start, ElementsLayout(a, n, pos, fmt))
    requires forall e :: e in a ==> WellFormed(e) && NumbersReadable(e, numbers, fmt)
    ensures ItemsRebuilt(text, toks, start, a, n, |ElementsLayout(a, n, pos, fmt)|, numbers)
    decreases Array(a), 0, n
  {
    if n > 0 {
      var used := |ElementsLayout(a, n - 1, pos, fmt)|;
      var at := ElementAt(a, n - 1, pos, fmt);
      ElementsShape(text, toks, start, a, n, pos, fmt);
      BuildRenderItems(text, toks, start, a, n - 1, pos, numbers, fmt);
      assert a[n - 1] in a;
      BuildRender(text, toks, start + used, a[n - 1], at, numbers, fmt);
      ItemsRenderStep(text, toks, start, a, n, used, |Layout(a[n - 1], at, fmt)|, numbers);
    }
  }

  /** The text and the tokens of the first n elements: those of the first
      n - 1, then those of element n - 1. */
  lemma ElementsShape(text: string, toks: seq<Token>, start: nat, a: seq<Value>, n: nat, pos: nat, fmt: NumberWriter)
    requires 0 < n <= |a|
    requires Occurs(text, pos, ElementsText(a, n, fmt))
    requires Placed(toks, start, ElementsLayout(a, n, pos, fmt))
    ensures Occurs(text, pos, ElementsText(a, n - 1, fmt))
    ensures Occurs(text, ElementAt(a, n - 1, pos, fmt), Render(a[n - 1], fmt))
    ensures Placed(toks, start, ElementsLayout(a, n - 1, pos, fmt))
    ensures Placed(toks, start + |ElementsLayout(a, n - 1, pos, fmt)|,
                   Layout(a[n - 1], ElementAt(a, n - 1, pos, fmt), fmt))
    ensures |ElementsLayout(a, n, pos, fmt)|
         == |ElementsLayout(a, n - 1, pos, fmt)| + |Layout(a[n - 1], ElementAt(a, n - 1, pos, fmt), fmt)|
  {
    var before := ElementsLayout(a, n - 1, pos, fmt);
    var item := Layout(a[n - 1], ElementAt(a, n - 1, pos, fmt), fmt);
    assert ElementsLayout(a, n, pos, fmt) == before + item;
    ElementsTextSplit(text, pos, a, n, fmt);
    PlacedConcat(toks, start, before, item);
  }

  /** The first n - 1 elements and then element n - 1 make the first n. */
  lemma ItemsRenderStep(text: string, toks: seq<Token>, start: nat, a: seq<Value>, n: nat,
                        used: nat, count: nat, numbers: NumberReader)
    requires SpansWithin(text, toks) && start + used <= |toks|
    requires 0 < n <= |a|
    requires ItemsRebuilt(text, toks, start, a, n - 1, used, numbers)
    requires Build(text, toks, start + used, numbers) == Ok(Built(a[n - 1], count))
    ensures ItemsRebuilt(text, toks, start, a, n, used + count, numbers)
  {
    var prev := BuildItems(text, toks, start, n - 1, numbers).value;
    ItemsAdvance(text, toks, start, n - 1, numbers, prev, start + used, Built(a[n - 1], count));
    PrefixSnoc(a, n);
  }

  /** The first n pairs build, are the first n fields of `fs`, and take
      `count` tokens. */
  predicate MembersRebuilt(text: string, toks: seq<Token>, start: nat, fs: seq<Field>, n: nat, count: nat,
                           numbers: NumberReader)
    requires SpansWithin(text, toks) && start <= |toks| && n <= |fs|
  {
    var r := BuildMembers(text, toks, start, n, numbers);
    r.Ok? && r.value.pairs == fs[..n] && r.value.count == count
  }

  /** The pair at token j builds, is field n of `fs`, and takes `count` tokens. */
  predicate PairRebuilt(text: string, toks: seq<Token>, j: nat, fs: seq<Field>, n: nat, count: nat,
                        numbers: NumberReader)
    requires SpansWithin(text, toks) && j <= |toks| && n < |fs|
  {
    BuildPair(text, toks, j, numbers) == Ok(Pair(fs[n], count))
  }

  lemma {:induction false} BuildRenderMembers(text: string, toks: seq<Token>, start: nat, fs: seq<Field>, n: nat,
                                              pos: nat, numbers: NumberReader, fmt: NumberWriter)
    requires SpansWithin(text, toks)
    requires n <= |fs|
    requires Occurs(text, pos, MembersText(fs, n, fmt))
    requires Placed(toks, start, MembersLayout(fs, n, pos, fmt))
    requires forall f :: f in fs ==> WellFormed(f.value) && NumbersReadable(f.value, numbers, fmt)
    ensures MembersRebuilt(text, toks, start, fs, n, |MembersLayout(fs, n, pos, fmt)|, numbers)
    decreases Object(fs), 0, n + 1
  {
    if n > 0 {
      var used := |MembersLayout(fs, n - 1, pos, fmt)|;
      MembersShape(text, toks, start, fs, n, pos, fmt);
      BuildRenderMembers(text, toks, start, fs, n - 1, pos, numbers, fmt);
      BuildRenderPair(text, toks, start + used, fs, n - 1, pos, numbers, fmt);
      MembersRenderStep(text, toks, start, fs, n, used, |MemberLayout(fs, n - 1, pos, fmt)|, numbers);
    }
  }

  /** The text and the tokens of the first n pairs: those of the first n - 1,
      then those of pair n - 1. */
  lemma MembersShape(text: string, toks: seq<Token>, start: nat, fs: seq<Field>, n: nat, pos: nat, fmt: NumberWriter)
    requires 0 < n <= |fs|
    requires Occurs(text, pos, MembersText(fs, n, fmt))
    requires Placed(toks, start, MembersLayout(fs, n, pos, fmt))
    ensures Occurs(text, pos, MembersText(fs, n - 1, fmt))
    ensures Occurs(text, MemberAt(fs, n - 1, pos, fmt), MemberText(fs, n - 1, fmt))
    ensures Placed(toks, start, MembersLayout(fs, n - 1, pos, fmt))
    ensures Placed(toks, start + |MembersLayout(fs, n - 1, pos, fmt)|, MemberLayout(fs, n - 1, pos, fmt))
    ensures |MembersLayout(fs, n, pos, fmt)|
         == |MembersLayout(fs, n - 1, pos, fmt)| + |MemberLayout(fs, n - 1, pos, fmt)|
  {
    var before := MembersLayout(fs, n - 1, pos, fmt);
    var pair := MemberLayout(fs, n - 1, pos, fmt);
    assert MembersLayout(fs, n, pos, fmt) == before + pair;
    MembersTextSplit(text, pos, fs, n, fmt);
    PlacedConcat(toks, start, before, pair);
  }

  /** The first n - 1 pairs and then pair n - 1 make the first n pairs. */
  lemma MembersRenderStep(text: string, toks: seq<Token>, start: nat, fs: seq<Field>, n: nat,
                          used: nat, count: nat, numbers: NumberReader)
    requires SpansWithin(text, toks) && start + used <= |toks|
    requires 0 < n <= |fs|
    requires MembersRebuilt(text, toks, start, fs, n - 1, used, numbers)
    requires PairRebuilt(text, toks, start + used, fs, n - 1, count, numbers)
    ensures MembersRebuilt(text, toks, start, fs, n, used + count, numbers)
  {
    var prev := BuildMembers(text, toks, start, n - 1, numbers).value;
    MembersAdvance(text, toks, start, n - 1, numbers, prev, start + used, Pair(fs[n - 1], count));
    PrefixSnoc(fs, n);
  }

  /** One pair: its key token gives the key, its value tokens the value. */
  lemma {:induction false} BuildRenderPair(text: string, toks: seq<Token>, j: nat, fs: seq<Field>, n: nat,
                                           pos: nat, numbers: NumberReader, fmt: NumberWriter)
    requires SpansWithin(text, toks)
    requires n < |fs|
    requires Occurs(text, MemberAt(fs, n, pos, fmt), MemberText(fs, n, fmt))
    requires Placed(toks, j, MemberLayout(fs, n, pos, fmt))
    requires forall f :: f in fs ==> WellFormed(f.value) && NumbersReadable(f.value, numbers, fmt)
    ensures PairRebuilt(text, toks, j, fs, n, |MemberLayout(fs, n, pos, fmt)|, numbers)
    decreases Object(fs), 0, 0
  {
    var at := MemberAt(fs, n, pos, fmt);
    var key := fs[n].key;
    var value := fs[n].value;
    var vat := at + |Quoted(key)| + 1;
    OccursConcat(text, at, Quoted(key) + ":", Render(value, fmt));
    OccursConcat(text, at, Quoted(key), ":");
    OccursConcat(text, at, "\"" + key, "\"");
    OccursConcat(text, at, "\"", key);
    var keyToken := Token(StringToken, at + 1, at + 1 + |key|, 1);
    PlacedConcat(toks, j, [keyToken], Layout(value, vat, fmt));
    assert toks[j] == keyToken;
    assert Build(text, toks, j, numbers) == Ok(Built(String(key), 1));
    assert fs[n] in fs;
    BuildRender(text, toks, j + 1, value, vat, numbers, fmt);
  }

  /** Every token of `ts` spans a part of [lo, hi). */
  predicate Within(ts: seq<Token>, lo: int, hi: int)
  {
    forall t :: t in ts ==> lo <= t.start <= t.end <= hi
  }

  lemma WithinConcat(xs: seq<Token>, ys: seq<Token>, lo: int, hi: int)
    requires Within(xs, lo, hi) && Within(ys, lo, hi)
    ensures Within(xs + ys, lo, hi)
  {
  }

  /** The tokens of a rendered value lie inside its text. */
  lemma {:induction false} LayoutWithin(v: Value, pos: nat, fmt: NumberWriter)
    ensures Within(Layout(v, pos, fmt), pos, pos + |Render(v, fmt)|)
    decreases v, 1
  {
    match v
    case Array(a) =>
      var inner := ElementsText(a, |a|, fmt);
      assert Render(v, fmt) == "[" + inner + "]";
      ElementsWithin(a, |a|, pos + 1, fmt);
      var own := Token(ArrayToken, pos, pos + |Render(v, fmt)|, |a|);
      WithinConcat([own], ElementsLayout(a, |a|, pos + 1, fmt), pos, pos + |Render(v, fmt)|);
    case Object(fs) =>
      var inner := MembersText(fs, |fs|, fmt);
      assert Render(v, fmt) == "{" + inner + "}";
      MembersWithin(fs, |fs|, pos + 1, fmt);
      var own := Token(ObjectToken, pos, pos + |Render(v, fmt)|, |fs|);
      WithinConcat([own], MembersLayout(fs, |fs|, pos + 1, fmt), pos, pos + |Render(v, fmt)|);
    case _ =>
  }

  lemma {:induction false} ElementsWithin(a: seq<Value>, n: nat, pos: nat, fmt: NumberWriter)
    requires n <= |a|
    ensures Within(ElementsLayout(a, n, pos, fmt), pos, pos + |ElementsText(a, n, fmt)|)
    decreases Array(a), 0, n
  {
    if n > 0 {
      var hi := pos + |ElementsText(a, n, fmt)|;
      var at := ElementAt(a, n - 1, pos, fmt);
      ElementsWithin(a, n - 1, pos, fmt);
      LayoutWithin(a[n - 1], at, fmt);
      assert at + |Render(a[n - 1], fmt)| == hi;
      WithinConcat(ElementsLayout(a, n - 1, pos, fmt), Layout(a[n - 1], at, fmt), pos, hi);
    }
  }

  lemma {:induction false} MembersWithin(fs: seq<Field>, n: nat, pos: nat, fmt: NumberWriter)
    requires n <= |fs|
    ensures Within(MembersLayout(fs, n, pos, fmt), pos, pos + |MembersText(fs, n, fmt)|)
    decreases Object(fs), 0, n + 1
  {
    if n > 0 {
      var hi := pos + |MembersText(fs, n, fmt)|;
      var at := MemberAt(fs, n - 1, pos, fmt);
      var key := fs[n - 1].key;
      var vat := at + |Quoted(key)| + 1;
      MembersWithin(fs, n - 1, pos, fmt);
      LayoutWithin(fs[n - 1].value, vat, fmt);
      assert at + |MemberText(fs, n - 1, fmt)| == hi;
      assert vat + |Render(fs[n - 1].value, fmt)| == hi;
      var keyToken := Token(StringToken, at + 1, at + 1 + |key|, 1);
      WithinConcat([keyToken], Layout(fs[n - 1].value, vat, fmt), pos, hi);
      assert MemberLayout(fs, n - 1, pos, fmt) == [keyToken] + Layout(fs[n - 1].value, vat, fmt);
      WithinConcat(MembersLayout(fs, n - 1, pos, fmt), MemberLayout(fs, n - 1, pos, fmt), pos, hi);
    }
  }

  /** parse(serialize(o)) == o: the document parse, given the serialized
      text of an object and the tokens of that text, returns the object,
      whenever its keys are unique and ascending at every level and its
      numbers survive the text conversion. */
  lemma ParseSerialized(o: seq<Field>, numbers: NumberReader, fmt: NumberWriter)
    requires WellFormed(Object(o)) && NumbersReadable(Object(o), numbers, fmt)
    ensures var text := Render(Object(o), fmt);
            var toks := Layout(Object(o), 0, fmt);
            SpansWithin(text, toks) && Document.ParseDocument(text, |toks|, toks, numbers) == Ok(o)
  {
    var text := Render(Object(o), fmt);
    var toks := Layout(Object(o), 0, fmt);
    LayoutWithin(Object(o), 0, fmt);
    assert SpansWithin(text, toks) by {
      forall i | 0 <= i < |toks|
        ensures 0 <= toks[i].start <= toks[i].end <= |text|
      {
        assert toks[i] in toks;
      }
    }
    assert text[0..|text|] == text;
    assert toks[0..|toks|] == toks;
    BuildRender(text, toks, 0, Object(o), 0, numbers, fmt);
    assert toks[..|toks|] == toks;
  }

  /** The same for the serializer as written: whenever `serialize` succeeds
      (no empty array anywhere in the object), parsing its text gives the
      object back. */
  lemma ParseSerializeResult(o: seq<Field>, numbers: NumberReader, fmt: NumberWriter)
    requires WellFormed(Object(o)) && NumbersReadable(Object(o), numbers, fmt)
    requires Serialize(Object(o), fmt).Ok?
    ensures var text := Serialize(Object(o), fmt).value;
            var toks := Layout(Object(o), 0, fmt);
            SpansWithin(text, toks) && Document.ParseDocument(text, |toks|, toks, numbers) == Ok(o)
  {
    ParseSerialized(o, numbers, fmt);
  }
}
