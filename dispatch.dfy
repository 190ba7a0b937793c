/**
 * Top-level routing of a received stanza (`_on_new_data_received`,
 * `_handle_received_iq_element`, `_handle_xmpp_message`, `_handle_xmlns`) as a pure
 * decision over the stanza and the read-only handler registry.
 */
module Dispatch {
  import opened Bytes
  import opened Protocol

  /** The keep-alive the server sends and the client echoes: a single space. */
  const KEEP_ALIVE: Bytes := [SPACE]

  /** Where a received stanza goes. */
  datatype Route =
    | EchoKeepAlive                 // send the space back, nothing else
    | ConnectionAck                 // a `k` stanza, for the handshake
    | Handle(handler: HandlerId)    // a registered namespace handler
    | GroupReceipts                 // the group-receipts callback
    | Captcha                       // the captcha callback
    | UnknownNamespace(xmlns: string)  // logged and dropped
    | Ignored                       // any other tag

  /** What routing raises: a missing attribute or handler entry (KeyError), or an iq without a query namespace. */
  datatype RoutingError =
    | MissingAttribute(attribute: string)
    | MissingQueryNamespace
    | NoDefaultHandler

  /** `_handle_xmlns`: the registered handler, or a drop when the namespace is unknown. */
  function RouteXmlns(xmlns: string, handlers: map<string, HandlerId>): (r: Route)
    ensures r.Handle? || r == UnknownNamespace(xmlns)
    ensures r.Handle? <==> xmlns in handlers
    ensures r.Handle? ==> r.handler == handlers[xmlns]
  {
    if xmlns in handlers then Handle(handlers[xmlns]) else UnknownNamespace(xmlns)
  }

  predicate IsReceipt(m: Stanza)
  {
    "type" in m.attrs && m.attrs["type"] == "receipt"
  }

  /**
   * `_handle_xmpp_message`: an explicit namespace wins whatever the type and children;
   * otherwise a receipt with a `g` child goes to the group receipts, and every other
   * message to the `jabber:client` handler.
   */
  function RouteMessage(m: Stanza, handlers: map<string, HandlerId>): (r: Result<Route, RoutingError>)
    ensures "xmlns" in m.attrs ==> r == Success(RouteXmlns(m.attrs["xmlns"], handlers))
    ensures r == Success(GroupReceipts) <==> "xmlns" !in m.attrs && IsReceipt(m) && m.hasGroupChild
    ensures "xmlns" !in m.attrs && "type" in m.attrs && !(IsReceipt(m) && m.hasGroupChild) ==>
      r == if JABBER_CLIENT in handlers then Success(Handle(handlers[JABBER_CLIENT])) else Failure(NoDefaultHandler)
    ensures "xmlns" !in m.attrs && "type" !in m.attrs ==> r == Failure(MissingAttribute("type"))
  {
    if "xmlns" in m.attrs then
      Success(RouteXmlns(m.attrs["xmlns"], handlers))
    else if "type" !in m.attrs then
      Failure(MissingAttribute("type"))
    else if m.attrs["type"] == "receipt" && m.hasGroupChild then
      Success(GroupReceipts)
    else if JABBER_CLIENT in handlers then
      Success(Handle(handlers[JABBER_CLIENT]))
    else
      Failure(NoDefaultHandler)
  }

  /**
   * `_on_new_data_received`: `data` is the raw stanza and `parsed` its first element.
   * Only a lone space is a keep-alive; otherwise the tag name selects the route (`k`,
   * `iq`, `message`, `stc`, anything else ignored); a handler is reached only through an
   * iq or a message; an unknown namespace is dropped without raising.
   */
  function RouteStanza(data: Bytes, parsed: Stanza, handlers: map<string, HandlerId>): (r: Result<Route, RoutingError>)
    ensures r == Success(EchoKeepAlive) <==> data == KEEP_ALIVE
    ensures r.Success? && r.value.Handle? ==> parsed.name == "iq" || parsed.name == "message"
    ensures r.Success? && r.value.UnknownNamespace? ==> r.value.xmlns !in handlers
    ensures r == Success(ConnectionAck) <==> data != KEEP_ALIVE && parsed.name == "k"
    ensures r == Success(Captcha) <==> data != KEEP_ALIVE && parsed.name == "stc"
    ensures data != KEEP_ALIVE && parsed.name == "iq" ==>
      r == if parsed.queryXmlns.None? then Failure(MissingQueryNamespace)
           else Success(RouteXmlns(parsed.queryXmlns.value, handlers))
    ensures data != KEEP_ALIVE && parsed.name == "message" ==> r == RouteMessage(parsed, handlers)
    ensures data != KEEP_ALIVE && parsed.name !in {"k", "iq", "message", "stc"} ==> r == Success(Ignored)
  {
    if data == KEEP_ALIVE then
      Success(EchoKeepAlive)
    else if parsed.name == "k" then
      Success(ConnectionAck)
    else if parsed.name == "iq" then
      if parsed.queryXmlns.None? then Failure(MissingQueryNamespace)
      else Success(RouteXmlns(parsed.queryXmlns.value, handlers))
    else if parsed.name == "message" then
      RouteMessage(parsed, handlers)
    else if parsed.name == "stc" then
      Success(Captcha)
    else
      Success(Ignored)
  }

  /** The callback fired or the handler invoked for a routed stanza: at most one. */
  function EventsOf(route: Route, s: Stanza): (r: seq<Event>)
    ensures |r| <= 1
    ensures r == [] <==> !(route.Handle? || route.GroupReceipts? || route.Captcha?)
  {
    match route
    case Handle(h) => [Handled(h, s)]
    case GroupReceipts => [GroupReceiptsReceived(s)]
    case Captcha => [CaptchaReceived(s)]
    case _ => []
  }

  /**
   * With the client's own registry, routing raises only for an iq without a query
   * namespace or a message carrying neither `xmlns` nor `type`.
   */
  lemma StandardRoutingFailures(data: Bytes, parsed: Stanza)
    ensures RouteStanza(data, parsed, NAMESPACE_HANDLERS).Failure? <==>
      && data != KEEP_ALIVE
      && ((parsed.name == "iq" && parsed.queryXmlns.None?)
          || (parsed.name == "message" && "xmlns" !in parsed.attrs && "type" !in parsed.attrs))
  {
    assert JABBER_CLIENT in NAMESPACE_HANDLERS;
  }
}
