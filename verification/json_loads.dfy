/**
 `json_loads`: JSON text that may carry `//` comments is stripped and the
 stripped text alone is handed to the standard JSON decoder. The standard
 decoder is not modelled; it is the parameter `decode`, a function from text
 to whatever it produces (a value or a parse error).
 */
module JsonWithComments {
  import opened Comments
  import opened CommentStripping

  /** `json_loads(s)`, which runs `JSONWithCommentsDecoder.decode`: the
      standard decoder applied to the comment-stripped text. A text with no
      marker reaches the decoder untouched. */
  function JsonLoads<V>(decode: string -> V, s: string): (v: V)
    ensures !ContainsMarker(s) ==> v == decode(s)
  {
    decode(Strip(s))
  }

  /** The decoder sees only the stripped text: inputs that strip alike decode
      alike, whatever their comments said. */
  lemma LoadsSeesOnlyStrippedText<V>(decode: string -> V, s1: string, s2: string)
    requires Strip(s1) == Strip(s2)
    ensures JsonLoads(decode, s1) == JsonLoads(decode, s2)
  {
  }

  /** A document with no `//` anywhere, not even inside a string, decodes
      exactly as the standard decoder decodes it. */
  lemma CommentFreeDocumentDecodesAsStandard<V>(decode: string -> V, s: string)
    requires !ContainsMarker(s)
    ensures JsonLoads(decode, s) == decode(s)
  {
  }

  /** Loading already stripped text gives the same result as loading the
      original. */
  lemma LoadsStrippedText<V>(decode: string -> V, s: string)
    ensures JsonLoads(decode, Strip(s)) == JsonLoads(decode, s)
  {
    StripIdempotent(s);
  }
}
