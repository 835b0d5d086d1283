/**
 * The messages the popup sends to a content script (`request.action`) and
 * the replies a content script sends back. A reply is an object of which each
 * variant fills in only some fields; an absent field is `None`.
 */
module Protocol {
  import opened Wrappers

  const GetStats: string := "getStats"
  const ClearCache: string := "clearCache"
  const Test: string := "test"

  datatype Reply = Reply(
    success: Option<bool>, cacheCount: Option<nat>, queryCount: Option<nat>, ipCount: Option<nat>)

  /** `{ success: ok }`. */
  function Ack(ok: bool): Reply {
    Reply(Some(ok), None, None, None)
  }

  /** The state a message leaves behind and the reply it gets, if any. */
  datatype Handled<S> = Handled(state: S, reply: Option<Reply>)
}
