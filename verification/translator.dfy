/** `parse_query_to_filters` (app.py:582-631): asks the model for a JSON
    filter object and degrades to the empty filter set on any failure. */
module Translator {
  import opened Wrappers
  import opened Strings
  import opened ModelJson
  import opened LocalFilter

  /** The filter set, with the text the JSON decoder saw. */
  datatype Translation = Translation(filters: Filters, decoderInput: Option<string>)

  /** Never fails: a failed model call or an undecodable reply yields `{}`. */
  function Translate(reply: Option<string>, decode: Decoder): (t: Translation)
    ensures reply.None? ==> t.filters == map[]
    ensures t.decoderInput == ParseReply(reply, decode).decoderInput
    ensures t.decoderInput.Some? ==> !Contains(t.decoderInput.value, Fence)
    ensures t.decoderInput.Some? ==>
      (match decode(t.decoderInput.value)
       case None => t.filters == map[]
       case Some(obj) => t.filters == obj)
  {
    var parsed := ParseReply(reply, decode);
    match parsed.decoded
    case None => Translation(map[], parsed.decoderInput)
    case Some(obj) => Translation(obj, parsed.decoderInput)
  }

  /** A non-empty filter set only ever comes from a successful call whose
      cleaned reply decoded to exactly that set. */
  lemma TranslateNonEmptyComesFromModel(reply: Option<string>, decode: Decoder)
    ensures var t := Translate(reply, decode);
      t.filters != map[] ==>
        reply.Some? && decode(CleanFences(reply.value)) == Some(t.filters)
  {
  }
}
