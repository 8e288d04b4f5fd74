/** Decoding the language model's JSON answer, shared by the write path
    (app.py:539-541) and the filter translator (app.py:622-625): the reply
    text is stripped, its code-fence markers removed, and the rest handed to
    `json.loads`. */
module ModelJson {
  import opened Wrappers
  import opened Strings

  /** `json.loads` on the model's cleaned reply: `None` when the text is not
      valid JSON, the object when it is a JSON object with text values. Valid
      JSON of any other shape lies outside this decoder's domain. */
  type Decoder = string -> Option<map<string, string>>

  /** The decoded object, and the text the decoder was given (`None` when
      the model call itself failed, or its text could not be read, and the
      decoder never ran). */
  datatype Parsed = Parsed(decoded: Option<map<string, string>>, decoderInput: Option<string>)

  function ParseReply(reply: Option<string>, decode: Decoder): (p: Parsed)
    ensures reply.None? <==> p.decoderInput.None?
    ensures p.decoderInput.None? ==> p.decoded.None?
    ensures p.decoderInput.Some? ==> p.decoded == decode(p.decoderInput.value)
    ensures p.decoderInput.Some? ==> !Contains(p.decoderInput.value, Fence)
    ensures reply.Some? ==>
      (forall i :: 0 <= i < |reply.value| ==> reply.value[i] != Backtick) ==>
      p.decoderInput == Some(Strip(reply.value))
  {
    match reply
    case None => Parsed(None, None)
    case Some(text) =>
      var cleaned := CleanFences(text);
      CleanFencesPlain(text);
      Parsed(decode(cleaned), Some(cleaned))
  }
}
