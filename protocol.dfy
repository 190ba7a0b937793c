/**
 * What the core exchanges with its collaborators: decoded stanzas (the XML parser is
 * not modelled), outbound elements (their builders are not modelled), the namespace
 * handlers the client registers, and the callbacks it fires.
 */
module Protocol {
  import opened Bytes

  /**
   * A decoded top-level stanza: its tag name, its attributes, the `xmlns` of its
   * `query` child when it has one that carries it, and whether it has a `g` child.
   */
  datatype Stanza = Stanza(
    name: string,
    attrs: map<string, string>,
    queryXmlns: Option<string>,
    hasGroupChild: bool)

  /** What an element's `serialize()` returns: one payload or an ordered list of them. */
  datatype Serialized = Single(payload: Bytes) | Multi(packets: seq<Bytes>)

  /** An outbound element: its correlation id and its serialized form. */
  datatype Element = Element(messageId: string, serialized: Serialized)

  /** The payloads to send for an element, in order. */
  function Packets(e: Element): seq<Bytes>
  {
    match e.serialized
    case Single(payload) => [payload]
    case Multi(packets) => packets
  }

  /** The handler classes of `xmlns_handlers` that the client instantiates. */
  datatype HandlerId =
    | CheckUniqueHandler
    | RegisterHandler
    | RosterHandler
    | MessageHandler
    | GroupMessageHandler
    | FriendMessageHandler
    | XiphiasHandler

  /** The namespace that messages without one fall back to. */
  const JABBER_CLIENT := "jabber:client"

  /** `xml_namespace_handlers` as the client builds it. */
  const NAMESPACE_HANDLERS: map<string, HandlerId> := map[
    "kik:iq:check-unique" := CheckUniqueHandler,
    "jabber:iq:register" := RegisterHandler,
    "jabber:iq:roster" := RosterHandler,
    JABBER_CLIENT := MessageHandler,
    "kik:groups" := GroupMessageHandler,
    "kik:iq:friend" := FriendMessageHandler,
    "kik:iq:friend:batch" := FriendMessageHandler,
    "kik:iq:xiphias:bridge" := XiphiasHandler
  ]

  /** A callback fired on the application, or a stanza handed to a namespace handler. */
  datatype Event =
    | Authenticated
    | ConnectionFailed(response: Stanza)
    | CaptchaReceived(challenge: Stanza)
    | GroupReceiptsReceived(receipts: Stanza)
    | Handled(handler: HandlerId, stanza: Stanza)
}
