/// parse(const string&) of jsmn.cpp: runs the tokenizer over the whole text,
/// checks what it returned, builds the tree from token 0 and hands back the
/// root as an Object. The tokenizer itself is not part of this model: its
/// return code and the tokens it wrote are inputs.
module Document {
  import opened Values
  import opened Tokens
  import opened Builder
  import BuilderProperties

  /** The document parse on the tokenizer's return code `result` and the
      tokens it wrote (the first `result` entries of `toks` are the ones it
      filled in). */
  function ParseDocument(text: string, result: int, toks: seq<Token>, numbers: NumberReader): (r: Result<seq<Field>>)
    requires result <= |toks|
    requires 0 <= result ==> SpansWithin(text, toks[..result])
    ensures result < 0 ==> r == Err(ParseFailed)
    ensures 0 <= result && (result < 1 || toks[0].kind != ObjectToken) ==> r == Err(ObjectExpected)
    ensures r.Ok? ==> 1 <= result && toks[0].kind == ObjectToken
  {
    if result < 0 then Err(ParseFailed)
    else if result < 1 || toks[0].kind != ObjectToken then Err(ObjectExpected)
    else
      match Build(text, toks[..result], 0, numbers)
      case Err(e) => Err(e)
      case Ok(root) => AsObject(root.value)
  }

  /** parse(const string&). */
  method Parse(text: string, result: int, toks: seq<Token>, numbers: NumberReader) returns (r: Result<seq<Field>>)
    requires result <= |toks|
    requires 0 <= result ==> SpansWithin(text, toks[..result])
    ensures r == ParseDocument(text, result, toks, numbers)
  {
    if result < 0 {
      return Err(ParseFailed);
    }
    if result < 1 || toks[0].kind != ObjectToken {
      return Err(ObjectExpected);
    }
    var filled := toks[..result];
    var value := ParseValue(text, filled, 0, numbers);
    if value.Err? {
      return Err(value.error);
    }
    r := AsObject(value.value.value);
  }

  /** A document either fails or is the object the builder made from token 0,
      whose keys are unique and ascending at every level; the unwrap to
      Object never fails, since token 0 is an OBJECT token. */
  lemma ParseDocumentObject(text: string, result: int, toks: seq<Token>, numbers: NumberReader)
    requires result <= |toks|
    requires 0 <= result ==> SpansWithin(text, toks[..result])
    ensures var r := ParseDocument(text, result, toks, numbers);
            r.Ok? ==> 1 <= result && toks[0].kind == ObjectToken &&
                      Build(text, toks[..result], 0, numbers) ==
                        Ok(Built(Object(r.value), Build(text, toks[..result], 0, numbers).value.count)) &&
                      WellFormed(Object(r.value))
    ensures var r := ParseDocument(text, result, toks, numbers);
            r.Err? && 1 <= result && toks[0].kind == ObjectToken ==>
              Build(text, toks[..result], 0, numbers) == Err(r.error)
  {
    if 1 <= result && toks[0].kind == ObjectToken {
      var filled := toks[..result];
      assert filled[0] == toks[0];
      BuilderProperties.BuildWellFormed(text, filled, 0, numbers);
      assert Build(text, filled, 0, numbers) == BuildObject(text, filled, 0, numbers);
    }
  }
}
