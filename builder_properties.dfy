/// What the tree builder promises about the values it returns: the leaf
/// tokens, how the children of a container tile the tokens after it, the
/// upsert semantics of object pairs, and that every object it builds keeps
/// its keys unique and ascending.
module BuilderProperties {
  import opened Values
  import opened Tokens
  import opened Builder

  /** The leaf cases: a STRING token gives its text as is, a PRIMITIVE token
      is decided by its first character, both in one token; other kinds, and
      reading past the last token, fail. */
  lemma Leaves(text: string, toks: seq<Token>, i: nat, numbers: NumberReader)
    requires SpansWithin(text, toks) && i <= |toks|
    ensures i == |toks| ==> Build(text, toks, i, numbers) == Err(TokensExhausted)
    ensures i < |toks| && toks[i].kind == StringToken ==>
              Build(text, toks, i, numbers) == Ok(Built(String(text[toks[i].start..toks[i].end]), 1))
    ensures i < |toks| && toks[i].kind == PrimitiveToken ==>
              var r := Build(text, toks, i, numbers);
              var c := FirstChar(text, toks[i].start);
              r.Ok? && r.value.count == 1 &&
              (c == 't' ==> r.value.value == Boolean(true)) &&
              (c == 'f' ==> r.value.value == Boolean(false)) &&
              (c == 'n' ==> r.value.value == Nil) &&
              (c != 't' && c != 'f' && c != 'n' ==>
                 r.value.value == Number(numbers.read(text[toks[i].start..toks[i].end])))
    ensures i < |toks| && toks[i].kind == Undefined ==> Build(text, toks, i, numbers) == Err(UnsupportedToken)
  {
  }

  /** The tokens taken by children 0 .. k-1, whose counts are `counts`. */
  function Before(counts: seq<nat>, k: nat): nat
    requires k <= |counts|
  {
    if k == 0 then 0 else Before(counts, k - 1) + counts[k - 1]
  }

  lemma {:induction false} BeforeAppend(counts: seq<nat>, c: nat, k: nat)
    requires k <= |counts|
    ensures Before(counts + [c], k) == Before(counts, k)
    decreases k
  {
    if k > 0 {
      BeforeAppend(counts, c, k - 1);
    }
  }

  /** Where child k of the container at token i starts: right after the
      container's own token and the tokens of children 0 .. k-1. */
  function Offset(i: nat, counts: seq<nat>, k: nat): nat
    requires k <= |counts|
  {
    i + 1 + Before(counts, k)
  }

  /** The children of the container at token i tile the tokens after it:
      child k is the subtree of `counts[k]` tokens that starts right after
      the container's own token and the tokens of children 0 .. k-1. */
  predicate Tiled(text: string, toks: seq<Token>, i: nat, values: seq<Value>, counts: seq<nat>,
                  numbers: NumberReader)
    requires SpansWithin(text, toks)
  {
    |counts| == |values| &&
    forall k {:trigger Offset(i, counts, k)} :: 0 <= k < |values| ==>
      Offset(i, counts, k) <= |toks| &&
      Build(text, toks, Offset(i, counts, k), numbers) == Ok(Built(values[k], counts[k]))
  }

  /** The same for the pairs of an object: pair k (its key subtree, then its
      value subtree) takes `counts[k]` tokens. */
  predicate PairsTiled(text: string, toks: seq<Token>, i: nat, pairs: seq<Field>, counts: seq<nat>,
                       numbers: NumberReader)
    requires SpansWithin(text, toks)
  {
    |counts| == |pairs| &&
    forall k {:trigger Offset(i, counts, k)} :: 0 <= k < |pairs| ==>
      Offset(i, counts, k) <= |toks| &&
      BuildPair(text, toks, Offset(i, counts, k), numbers) == Ok(Pair(pairs[k], counts[k]))
  }

  /** The last of n > 0 children: the first n - 1, then one more subtree. */
  lemma ItemsLast(text: string, toks: seq<Token>, start: nat, n: int, m: Items, numbers: NumberReader)
    returns (prev: Items, item: Built)
    requires SpansWithin(text, toks) && start <= |toks| && n > 0
    requires BuildItems(text, toks, start, n, numbers) == Ok(m)
    ensures BuildItems(text, toks, start, n - 1, numbers) == Ok(prev)
    ensures start + prev.count <= |toks| && Build(text, toks, start + prev.count, numbers) == Ok(item)
    ensures m.values == prev.values + [item.value] && m.count == prev.count + item.count
  {
    prev := BuildItems(text, toks, start, n - 1, numbers).value;
    item := Build(text, toks, start + prev.count, numbers).value;
  }

  /** The last of n > 0 pairs: the first n - 1, then one more pair. */
  lemma MembersLast(text: string, toks: seq<Token>, start: nat, n: int, m: Members, numbers: NumberReader)
    returns (prev: Members, pair: Pair)
    requires SpansWithin(text, toks) && start <= |toks| && n > 0
    requires BuildMembers(text, toks, start, n, numbers) == Ok(m)
    ensures BuildMembers(text, toks, start, n - 1, numbers) == Ok(prev)
    ensures start + prev.count <= |toks| && BuildPair(text, toks, start + prev.count, numbers) == Ok(pair)
    ensures m.pairs == prev.pairs + [pair.field] && m.count == prev.count + pair.count
  {
    prev := BuildMembers(text, toks, start, n - 1, numbers).value;
    pair := BuildPair(text, toks, start + prev.count, numbers).value;
  }

  lemma {:induction false} ItemsTiled(text: string, toks: seq<Token>, i: nat, n: int, m: Items,
                                     numbers: NumberReader)
    returns (counts: seq<nat>)
    requires SpansWithin(text, toks) && i < |toks|
    requires BuildItems(text, toks, i + 1, n, numbers) == Ok(m)
    ensures Tiled(text, toks, i, m.values, counts, numbers)
    ensures m.count == Before(counts, |counts|)
    decreases n
  {
    if n <= 0 {
      counts := [];
    } else {
      var prev, item := ItemsLast(text, toks, i + 1, n, m, numbers);
      var init := ItemsTiled(text, toks, i, n - 1, prev, numbers);
      assert Offset(i, init, |init|) == i + 1 + prev.count;
      TiledSnoc(text, toks, i, prev.values, init, numbers, item);
      counts := init + [item.count];
    }
  }

  /** One more child, right after the tokens of the ones before it. */
  lemma TiledSnoc(text: string, toks: seq<Token>, i: nat, values: seq<Value>, counts: seq<nat>,
                  numbers: NumberReader, item: Built)
    requires SpansWithin(text, toks)
    requires Tiled(text, toks, i, values, counts, numbers)
    requires Offset(i, counts, |counts|) <= |toks|
    requires Build(text, toks, Offset(i, counts, |counts|), numbers) == Ok(item)
    ensures Tiled(text, toks, i, values + [item.value], counts + [item.count], numbers)
    ensures Before(counts + [item.count], |counts| + 1) == Before(counts, |counts|) + item.count
  {
    var more := counts + [item.count];
    BeforeAppend(counts, item.count, |counts|);
    forall k | 0 <= k < |values| + 1
      ensures Offset(i, more, k) <= |toks|
      ensures Build(text, toks, Offset(i, more, k), numbers) == Ok(Built((values + [item.value])[k], more[k]))
    {
      BeforeAppend(counts, item.count, k);
      assert Offset(i, more, k) == Offset(i, counts, k);
    }
  }

  /** An ARRAY token with n children gives exactly n elements, in token
      order, each the subtree right after the one before; the array uses its
      own token plus all of theirs. */
  lemma ArrayChildren(text: string, toks: seq<Token>, i: nat, numbers: NumberReader) returns (counts: seq<nat>)
    requires SpansWithin(text, toks) && i < |toks| && toks[i].kind == ArrayToken
    requires Build(text, toks, i, numbers).Ok?
    ensures var b := Build(text, toks, i, numbers).value;
            b.value.Array? &&
            |b.value.elems| == (if toks[i].size < 0 then 0 else toks[i].size) &&
            Tiled(text, toks, i, b.value.elems, counts, numbers) &&
            b.count == 1 + Before(counts, |counts|)
  {
    assert Build(text, toks, i, numbers) == BuildArray(text, toks, i, numbers);
    counts := ItemsTiled(text, toks, i, toks[i].size, BuildItems(text, toks, i + 1, toks[i].size, numbers).value, numbers);
  }

  lemma {:induction false} MembersTiled(text: string, toks: seq<Token>, i: nat, n: int, m: Members,
                                       numbers: NumberReader)
    returns (counts: seq<nat>)
    requires SpansWithin(text, toks) && i < |toks|
    requires BuildMembers(text, toks, i + 1, n, numbers) == Ok(m)
    ensures PairsTiled(text, toks, i, m.pairs, counts, numbers)
    ensures m.count == Before(counts, |counts|)
    decreases n
  {
    if n <= 0 {
      counts := [];
    } else {
      var prev, pair := MembersLast(text, toks, i + 1, n, m, numbers);
      var init := MembersTiled(text, toks, i, n - 1, prev, numbers);
      assert Offset(i, init, |init|) == i + 1 + prev.count;
      PairsTiledSnoc(text, toks, i, prev.pairs, init, numbers, pair);
      counts := init + [pair.count];
    }
  }

  /** One more pair, right after the tokens of the ones before it. */
  lemma PairsTiledSnoc(text: string, toks: seq<Token>, i: nat, pairs: seq<Field>, counts: seq<nat>,
                       numbers: NumberReader, pair: Pair)
    requires SpansWithin(text, toks)
    requires PairsTiled(text, toks, i, pairs, counts, numbers)
    requires Offset(i, counts, |counts|) <= |toks|
    requires BuildPair(text, toks, Offset(i, counts, |counts|), numbers) == Ok(pair)
    ensures PairsTiled(text, toks, i, pairs + [pair.field], counts + [pair.count], numbers)
    ensures Before(counts + [pair.count], |counts| + 1) == Before(counts, |counts|) + pair.count
  {
    var more := counts + [pair.count];
    BeforeAppend(counts, pair.count, |counts|);
    forall k | 0 <= k < |pairs| + 1
      ensures Offset(i, more, k) <= |toks|
      ensures BuildPair(text, toks, Offset(i, more, k), numbers) == Ok(Pair((pairs + [pair.field])[k], more[k]))
    {
      BeforeAppend(counts, pair.count, k);
      assert Offset(i, more, k) == Offset(i, counts, k);
      if k < |pairs| {
        assert (pairs + [pair.field])[k] == pairs[k] && more[k] == counts[k];
      } else {
        assert (pairs + [pair.field])[k] == pair.field && more[k] == pair.count;
      }
    }
  }

  /** The map the builder fills is the fold of the pairs' assignments. */
  lemma {:induction false} MembersFold(text: string, toks: seq<Token>, start: nat, n: int, numbers: NumberReader)
    requires SpansWithin(text, toks) && start <= |toks|
    requires BuildMembers(text, toks, start, n, numbers).Ok?
    ensures BuildMembers(text, toks, start, n, numbers).value.fields
         == Collect(BuildMembers(text, toks, start, n, numbers).value.pairs)
    decreases n
  {
    if n > 0 {
      MembersFold(text, toks, start, n - 1, numbers);
      var prev := BuildMembers(text, toks, start, n - 1, numbers).value;
      var pair := BuildPair(text, toks, start + prev.count, numbers).value;
      CollectStep(prev.pairs, pair.field);
    }
  }

  /** One pair: the key subtree, then the value subtree right after it; the
      pair succeeds exactly when both build and the key is a String, and a
      key of any other type makes the pair fail with a type mismatch. */
  lemma PairShape(text: string, toks: seq<Token>, j: nat, numbers: NumberReader)
    requires SpansWithin(text, toks) && j <= |toks|
    ensures var key := Build(text, toks, j, numbers);
            var value := if key.Ok? then Build(text, toks, j + key.value.count, numbers) else Err(TokensExhausted);
            var r := BuildPair(text, toks, j, numbers);
            (r.Ok? <==> key.Ok? && value.Ok? && key.value.value.String?) &&
            (key.Ok? && value.Ok? && !key.value.value.String? ==> r == Err(TypeMismatch(StringTag))) &&
            (r.Ok? ==> key.value.value == String(r.value.field.key) && value.value.value == r.value.field.value &&
                       r.value.count == key.value.count + value.value.count)
  {
  }

  /** An OBJECT token with n pairs assigns them in token order: the object
      has unique ascending keys, exactly the keys of the pairs, at most n of
      them, and a key given twice keeps the value of its last pair. */
  lemma ObjectChildren(text: string, toks: seq<Token>, i: nat, numbers: NumberReader)
    returns (pairs: seq<Field>, counts: seq<nat>)
    requires SpansWithin(text, toks) && i < |toks| && toks[i].kind == ObjectToken
    requires Build(text, toks, i, numbers).Ok?
    ensures |pairs| == if toks[i].size < 0 then 0 else toks[i].size
    ensures PairsTiled(text, toks, i, pairs, counts, numbers)
    ensures Build(text, toks, i, numbers).value.count == 1 + Before(counts, |counts|)
    ensures Build(text, toks, i, numbers).value.value.Object?
    ensures var fs := Build(text, toks, i, numbers).value.value.fields;
            SortedKeys(fs) && KeySet(fs) == KeySet(pairs) && |fs| <= |pairs| &&
            forall key :: Find(fs, key) == LastValue(pairs, key)
  {
    counts := MembersTiled(text, toks, i, toks[i].size, BuildMembers(text, toks, i + 1, toks[i].size, numbers).value, numbers);
    MembersFold(text, toks, i + 1, toks[i].size, numbers);
    assert Build(text, toks, i, numbers) == BuildObject(text, toks, i, numbers);
    pairs := BuildMembers(text, toks, i + 1, toks[i].size, numbers).value.pairs;
    CollectSorted(pairs);
    forall key
      ensures Find(Collect(pairs), key) == LastValue(pairs, key)
    {
      CollectLastWins(pairs, key);
    }
  }

  /** Every value the builder returns is well formed: each object in it has
      unique, ascending keys, as a std::map does. */
  lemma {:induction false} BuildWellFormed(text: string, toks: seq<Token>, i: nat, numbers: NumberReader)
    requires SpansWithin(text, toks) && i <= |toks|
    ensures Build(text, toks, i, numbers).Ok? ==> WellFormed(Build(text, toks, i, numbers).value.value)
    decreases |toks| - i, 0, 1
  {
    if i < |toks| {
      var t := toks[i];
      if t.kind == ArrayToken {
        ItemsWellFormed(text, toks, i + 1, t.size, numbers);
        assert Build(text, toks, i, numbers) == BuildArray(text, toks, i, numbers);
      } else if t.kind == ObjectToken {
        MembersWellFormed(text, toks, i + 1, t.size, numbers);
        assert Build(text, toks, i, numbers) == BuildObject(text, toks, i, numbers);
      }
    }
  }

  lemma {:induction false} ItemsWellFormed(text: string, toks: seq<Token>, start: nat, n: int, numbers: NumberReader)
    requires SpansWithin(text, toks) && start <= |toks|
    ensures BuildItems(text, toks, start, n, numbers).Ok? ==>
              forall v :: v in BuildItems(text, toks, start, n, numbers).value.values ==> WellFormed(v)
    decreases |toks| - start, n, 2
  {
    if n > 0 {
      ItemsWellFormed(text, toks, start, n - 1, numbers);
      var prev := BuildItems(text, toks, start, n - 1, numbers);
      if prev.Ok? {
        var item := Build(text, toks, start + prev.value.count, numbers);
        BuildWellFormed(text, toks, start + prev.value.count, numbers);
        if item.Ok? {
          assert BuildItems(text, toks, start, n, numbers).value.values == prev.value.values + [item.value.value];
        }
      }
    }
  }

  lemma {:induction false} MembersWellFormed(text: string, toks: seq<Token>, start: nat, n: int, numbers: NumberReader)
    requires SpansWithin(text, toks) && start <= |toks|
    ensures BuildMembers(text, toks, start, n, numbers).Ok? ==>
              WellFormed(Object(BuildMembers(text, toks, start, n, numbers).value.fields))
    decreases |toks| - start, n, 2
  {
    if n > 0 {
      MembersWellFormed(text, toks, start, n - 1, numbers);
      var prev := BuildMembers(text, toks, start, n - 1, numbers);
      if prev.Ok? {
        var at := start + prev.value.count;
        PairWellFormed(text, toks, at, numbers);
        var pair := BuildPair(text, toks, at, numbers);
        if pair.Ok? {
          MembersAdvance(text, toks, start, n - 1, numbers, prev.value, at, pair.value);
          UpsertWellFormed(prev.value.fields, pair.value.field.key, pair.value.field.value);
        }
      }
    }
  }

  lemma {:induction false} PairWellFormed(text: string, toks: seq<Token>, j: nat, numbers: NumberReader)
    requires SpansWithin(text, toks) && j <= |toks|
    ensures BuildPair(text, toks, j, numbers).Ok? ==> WellFormed(BuildPair(text, toks, j, numbers).value.field.value)
    decreases |toks| - j, 0, 2
  {
    var key := Build(text, toks, j, numbers);
    if key.Ok? {
      BuildWellFormed(text, toks, j + key.value.count, numbers);
    }
  }
}
