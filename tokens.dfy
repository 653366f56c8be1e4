/// The interface of the jsmn tokenizer, which is not part of this model: its
/// output is a flat, pre-order array of tokens over the input text.
module Tokens {

  /** jsmntype_t; `Undefined` stands for any other code a token may carry. */
  datatype Kind = Undefined | ObjectToken | ArrayToken | StringToken | PrimitiveToken

  /** jsmntok_t: the kind, the span [start, end) in the text and, for a
      container, its number of children (pairs for an object). */
  datatype Token = Token(kind: Kind, start: int, end: int, size: int)

  /** The tokenizer's promise: every span lies inside the text. */
  predicate SpansWithin(text: string, toks: seq<Token>)
  {
    forall i :: 0 <= i < |toks| ==> 0 <= toks[i].start <= toks[i].end <= |text|
  }
}
