/** The step five stages share between a model's reply and the parsed
    JSON value they work on: cut the payload out of the reply, then hand it
    to `json.loads`, here a parameter. */
module Reply {
  import opened Wrappers
  import opened Text
  import Json

  /** What `json.loads` makes of a reply's payload: None when there is no
      reply or the payload does not parse. */
  function Parsed(reply: Option<string>, parse: string -> Option<Json.Value>): (r: Option<Json.Value>)
    ensures reply.None? ==> r.None?
    ensures reply.Some? ==> r == parse(ExtractPayload(reply.value))
  {
    if reply.None? then None else parse(ExtractPayload(reply.value))
  }

  /** A reply wrapping its JSON in a "```json" fence parses as the text
      inside the fence would on its own, whatever surrounds it. */
  lemma JsonFencedReply(pre: string, inner: string, post: string, parse: string -> Option<Json.Value>)
    requires !Contains(pre, JsonFence) && NoBacktick(inner) && (post == [] || post[0] != '`')
    ensures Parsed(Some(pre + JsonFence + inner + Fence + post), parse) == Parsed(Some(inner), parse)
  {
    JsonFencedPayload(pre, inner, post);
    NoBacktickNoFence(inner, Fence);
    UnfencedPayload(inner);
  }

  /** The same for a bare fence, in a reply with no "```json" anywhere. */
  lemma BareFencedReply(pre: string, inner: string, post: string, parse: string -> Option<Json.Value>)
    requires NoBacktick(pre) && NoBacktick(inner) && (post == [] || post[0] != '`')
    requires !Contains(pre + Fence + inner + Fence + post, JsonFence)
    ensures Parsed(Some(pre + Fence + inner + Fence + post), parse) == Parsed(Some(inner), parse)
  {
    BareFencedPayload(pre, inner, post);
    NoBacktickNoFence(inner, Fence);
    UnfencedPayload(inner);
  }
}
