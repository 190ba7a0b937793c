# kik-unofficial client core, modelled in Dafny

This project models the core of the unofficial Kik client library, `KikClient` and
`KikConnection` in `kik_unofficial/client.py`:

- **Stanza reassembly on the connection.** A socket read shorter than 16384 bytes is
  one whole stanza. A longer read opens a pending stanza, and its start tag is found
  by `parse_start_tag`. Further reads are appended until a read ends with that tag's
  closing tag, and then the whole stanza is queued once on the event loop.
- **The handshake.** A connection opens either with the credential-proving
  `EstablishAuthenticatedSessionRequest` (node, username and password all known) or
  with the anonymous `<k anon="">`. The server's `k` acknowledgement sets
  `connected`, then either `authenticated` (when it carries `ts`) or sends the owed
  login exactly once. Discovering the user's node closes the connection with `</k>`
  and opens a new one.
- **Routing of received stanzas.**
  - A lone space is a keep-alive and is echoed.
  - `k` goes to the handshake.
  - `iq` is routed by the namespace of its `query` child.
  - `message` is routed by its `xmlns` attribute first. Otherwise a message without
    a `type` raises `KeyError`, a receipt with a `g` child goes to the group-receipts
    callback, and any other typed message goes to the `jabber:client` handler.
  - `stc` goes to the captcha callback.
  - Unknown namespaces are dropped.
- **The send primitive.** `_send_xmpp_element` queues one transport write per
  serialized packet, in order, and returns the element's correlation id.
- **JID classification.** `is_group_jid` classifies a JID by the domain it mentions.

Modules:

- `Bytes`: byte strings, `Option`, `Result`, `Flatten`.
- `Framing`: `parse_start_tag`, `ends_with_tag`, and the reassembly rule as a pure
  transition `Feed` on a `Buffer`, with lemmas over runs of reads.
- `Loop`: the event loop's queue of callbacks.
- `Transport`: `KikConnection` as a class. It has the partial-stanza fields and a
  log of transport writes.
- `Protocol`: the parsed stanza, outbound elements, the handler registry and the
  callbacks.
- `Dispatch`: routing as pure functions.
- `Handshake`: the opening payload and the reaction to `k`, as functions over the
  session flags.
- `Jid`: `is_group_jid`.
- `Kik`: `KikClient` as a class whose methods follow the source's methods, plus
  end-to-end scenarios.

How the model represents the source's runtime:

- An exception the source raises (a `KeyError` on a missing attribute, a
  `TypeError` on an `iq` without a `query`) is a `Raised` outcome or a `Failure`
  result that leaves the state unchanged.
- `call_soon_threadsafe` appends a `Task` to the loop's queue.
- Transport writes are appended to `KikConnection.written`.
- Callbacks fired and handler invocations are appended to `KikClient.events`.
- These are parameters: the XML parser's result (`Stanza`), the outbound elements
  (`Element`, with their serialization), the builder of the authenticated session
  request (`establish`), and the builder of the login request from a username and
  password (`loginOf`).

A multi-packet stanza ends only when the newest read ends with the closing tag
(`kik_unofficial/client.py:655`); the buffered bytes as a whole are never tested.
`Framing.SplitClosingTagIsMissed` shows the consequence: when the final `>` arrives
in a read of its own, nothing is dispatched even though the buffer then ends with
the closing tag.

## Model

| member | source | states |
|---|---|---|
| Framing.StripLeading | kik_unofficial/client.py:665 | `lstrip` never lengthens its input; its full contract is `StripLeadingSpec` |
| Framing.StripLeadingSpec | kik_unofficial/client.py:665 | `lstrip(b'<')` keeps a suffix, everything it drops is `<`, and what it keeps does not start with `<` |
| Framing.BeforeFirst | kik_unofficial/client.py:666-667 | `split(c)[0]` never lengthens its input; its full contract is `BeforeFirstSpec` |
| Framing.BeforeFirstSpec | kik_unofficial/client.py:666-667 | `split(c)[0]` is a prefix free of `c`, cut exactly at the first `c` when there is one |
| Framing.BeforeFirstTwice | kik_unofficial/client.py:666-667 | cutting at the first `>` and then at the first space leaves a prefix free of both, ended by one of them or by the end of the input |
| Framing.SpanOfParts | kik_unofficial/client.py:665-667 | a piece that follows the leading `<` run and holds no `>` or space, and is ended by one of them or by the end of the input, is the tag span |
| Framing.TagPieceSpan | kik_unofficial/client.py:665-667 | the tag piece is exactly the bytes of the tag span, which starts after the leading `<` run |
| Framing.StartTagShape | kik_unofficial/client.py:663-671 | the returned start tag contains no `>` and no space and does not start with `<` |
| Framing.TagSpanExists | kik_unofficial/client.py:663-671 | every input, empty included, has exactly one tag span, so `parse_start_tag` never fails and its result is determined by that span |
| Framing.TagSpanIsPiece | kik_unofficial/client.py:665-667 | whichever tag span of the input is given, the tag piece is exactly its bytes |
| Framing.ParseStartTagSpec | kik_unofficial/client.py:663-671 | given the unique tag span, the result is its bytes; it is flagged closing exactly when the span ends in `/`, and then exactly that `/` is dropped |
| Framing.EndsWithTag | kik_unofficial/client.py:673-675 | a read that ends with the closing tag is at least three bytes longer than the tag and ends with `>`; the exact characterisation is `EndsWithTagSpec` |
| Framing.EndsWithTagSpec | kik_unofficial/client.py:673-675 | `ends_with_tag` holds exactly when some suffix of the data is `</tag>` |
| Framing.Feed | kik_unofficial/client.py:644-661 | one read dispatches at most one stanza, and dispatches exactly when it leaves no stanza pending |
| Framing.FeedConserves | kik_unofficial/client.py:644-661 | one read dispatches at most one stanza, exactly when it leaves no stanza pending; dispatched bytes followed by the buffer equal the old buffer followed by the read; the awaited tag is kept |
| Framing.FeedAll | kik_unofficial/client.py:644-661 | a run of reads dispatches no more stanzas than there were reads |
| Framing.FeedAllConserves | kik_unofficial/client.py:644-661 | over any run of reads no byte is lost, duplicated or reordered: dispatched stanzas followed by the buffer equal the old buffer followed by all reads |
| Framing.SmallChunksDispatchedApart | kik_unofficial/client.py:646-648 | with nothing pending, reads under 16384 bytes are dispatched one by one, unchanged, and nothing is buffered |
| Framing.AccumulateUntilClosed | kik_unofficial/client.py:654-661 | with a stanza pending, reads that do not end with its closing tag accumulate, and the first that does dispatches the whole concatenation and empties the buffer |
| Framing.OpenStanza | kik_unofficial/client.py:649-653 | with nothing pending, a read of at least 16384 bytes dispatches nothing and opens a pending stanza awaiting its own start tag |
| Framing.Reassembly | kik_unofficial/client.py:644-661 | a long first read, reads not ending with its closing tag, then one that does: exactly one stanza, the byte-identical concatenation, is dispatched and the buffer is released |
| Framing.SplitClosingTagIsMissed | kik_unofficial/client.py:654-661 | a closing tag split across two reads is not recognised: nothing is dispatched although the buffer ends with it |
| Transport.KikConnection.constructor | kik_unofficial/client.py:632-637 | a new connection on the given loop has no transport, nothing buffered and nothing written |
| Transport.KikConnection.ConnectionMade | kik_unofficial/client.py:639-640 | the transport becomes available |
| Transport.KikConnection.DataReceived | kik_unofficial/client.py:644-661 | each of the four cases of `data_received` (short or long read with nothing pending; pending stanza completed or not), and that the new buffer and queued stanzas are those of `Feed` |
| Transport.KikConnection.SendRawData | kik_unofficial/client.py:681-683 | the data is written to the transport, after everything written before |
| Transport.KikConnection.Close | kik_unofficial/client.py:685-687 | `</k>` is written exactly when there is a transport, and nothing else is written |
| Loop.EventLoop.CallSoonThreadsafe | kik_unofficial/client.py:648 | the callback is queued after every callback queued before |
| Dispatch.RouteXmlns | kik_unofficial/client.py:571-575 | a namespace reaches its registered handler exactly when it is registered, and is otherwise dropped |
| Dispatch.RouteMessage | kik_unofficial/client.py:544-560 | `xmlns` takes precedence over type and children; only a receipt with a `g` child and no `xmlns` goes to group receipts; any other typed message goes to `jabber:client`; a message with neither `xmlns` nor `type` raises |
| Dispatch.RouteStanza | kik_unofficial/client.py:488-510 | the keep-alive route is taken exactly for a lone space; otherwise the tag name selects the route: `k` exactly to the acknowledgement, `stc` exactly to the captcha callback, `iq` by its query namespace (raising without one), `message` by `RouteMessage`, any other tag ignored; only `iq` and `message` reach handlers; an unknown namespace is dropped |
| Dispatch.EventsOf | kik_unofficial/client.py:503-510 | a routed stanza fires at most one callback or handler, and none exactly when it is dropped, echoed, ignored or an acknowledgement; the callbacks an acknowledgement fires (`on_authenticated`, `on_connection_failed`) come from `OnAck`, not from this function |
| Dispatch.StandardRoutingFailures | kik_unofficial/client.py:533-560 | with the client's registry, routing raises exactly for an `iq` without a query namespace or a `message` with neither `xmlns` nor `type` |
| Handshake.InitialFlags | kik_unofficial/client.py:55-62 | a new client is neither connected nor authenticated, and owes a login exactly when both a username and a password were given |
| Handshake.KnownCredentials | kik_unofficial/client.py:89-96 | the authenticated opening is chosen exactly when username, password and node are all known, and carries them |
| Handshake.OnAck | kik_unofficial/client.py:512-531 | a missing `ok` raises; a refusal fires `on_connection_failed` and changes no flag; acceptance sets `connected` and fires exactly `on_authenticated` once with `ts` (and authenticates) or nothing without it, in which case an owed login is sent and no longer owed |
| Handshake.LoginAtMostOnce | kik_unofficial/client.py:519-531 | over any run of acknowledgements at most one login is sent, only if one was owed, none is owed afterwards, and `connected`/`authenticated` never revert |
| Handshake.LoginSentIffPlainSuccess | kik_unofficial/client.py:519-531 | an owed login is sent exactly when some acknowledgement accepts without `ts` |
| Jid.Contains | kik_unofficial/client.py:623-625 | Python's substring test holds exactly when the pattern occurs at some index |
| Jid.IsGroupJid | kik_unofficial/client.py:621-628 | a JID mentioning the talk domain is not a group (checked first), one mentioning only the groups domain is, and one mentioning neither raises |
| Kik.KikClient.constructor | kik_unofficial/client.py:31-74 | a new client has a fresh connection, stores its credentials, owes a login exactly when username and password were given, and uses the eight-entry namespace registry |
| Kik.KikClient.Connect | kik_unofficial/client.py:76-82 | the client gets a new connection on the same loop with nothing buffered or written |
| Kik.KikClient.OnConnectionMade | kik_unofficial/client.py:84-98 | the opening payload is the authenticated request when all three credentials are known and `<k anon="">` otherwise; it is recorded and written to the transport |
| Kik.KikClient.Disconnect | kik_unofficial/client.py:457-463 | the current connection is closed |
| Kik.KikClient.EstablishAuthenticatedSession | kik_unofficial/client.py:100-112 | the node is recorded, the old connection gets `</k>` if it has a transport, and a fresh connection replaces it |
| Kik.KikClient.SendXmppElement | kik_unofficial/client.py:469-486 | one transport write per serialized packet is queued, in order, and the element's id is returned |
| Kik.KikClient.Login | kik_unofficial/client.py:114-128 | the credentials are stored, the packets of the login request built from them are queued and its id is returned |
| Kik.KikClient.HandleReceivedKElement | kik_unofficial/client.py:512-531 | the flags, callbacks and queued login are exactly those of `OnAck`; the login sent is the one built from the stored username and password; a missing `ok` changes nothing |
| Kik.KikClient.HandleXmlns | kik_unofficial/client.py:571-575 | the registered handler receives the stanza, or nothing happens for an unknown namespace |
| Kik.KikClient.HandleReceivedIqElement | kik_unofficial/client.py:533-542 | an `iq` without a query namespace raises and changes nothing; otherwise it is routed by that namespace |
| Kik.KikClient.HandleXmppMessage | kik_unofficial/client.py:544-560 | the message fires exactly the events of its `RouteMessage` route, or raises and changes nothing |
| Kik.KikClient.OnNewDataReceived | kik_unofficial/client.py:488-510 | a keep-alive is echoed through the loop and changes nothing else; a `k` has the effect of `OnAck`; any other stanza fires exactly its route's events or raises with no change |
| Kik.FullIdentityHandshake | kik_unofficial/client.py:84-98 | with node, username and password known, the connection's only write is the authenticated session request |
| Kik.DeferredLogin | kik_unofficial/client.py:512-531 | without a node the client opens anonymously with nothing queued; the first plain acceptance queues the login built from the given username and password, and a second queues nothing more |
| Kik.IdentityDiscoveryReconnect | kik_unofficial/client.py:100-112 | discovering the node closes the anonymous connection (it received `<k anon="">` then `</k>`) and the new one opens with the authenticated request |
| Kik.ReceiveSplitStanza | kik_unofficial/client.py:644-661 | a long first read followed by one ending with its closing tag queues exactly one stanza, the concatenation |

## Left out

- The asyncio machinery is not modelled: creating the loop, the connection thread and the TLS socket (`HOST`, `PORT`, client.py:577-599), running the loop, and the `on_disconnected` callback. Queued tasks are recorded, not run.
- Kik.KikClient.Connect: leaves out the connection thread's wait for a still-running loop to stop. It also leaves out the second `close` of the old connection that the thread queues meanwhile (client.py:582-587). `disconnect()` writes `</k>` directly whenever there is a transport (client.py:462, 686-687); only whether the second, queued close also writes depends on thread timing.
- Kik.IdentityDiscoveryReconnect: states the old connection's writes made by the client itself. It does not include the possible second `</k>` from the thread's queued `close`, for the reason given for `Connect`.
- `connection_lost` and `_on_connection_lost` are not modelled, so `connected` is never reset (client.py:562-569, 677-679).
- `connection_made` calls `_on_connection_made` directly. The model makes these two separate calls, `ConnectionMade` then `OnConnectionMade`.
- Kik.KikClient.SendXmppElement: requires `connected` instead of modelling the sleep-poll that waits for it (client.py:475-477). It treats `serialize()`, which the source calls twice, as returning the same value both times.
- Transport.KikConnection.SendRawData: requires a transport. The source would raise `AttributeError` without one, and it is only ever called after `connection_made`.
- XML parsing with BeautifulSoup is not modelled. The first parsed element is an input `Stanza`. It holds the tag name, the attributes, the namespace of the `query` child and whether a `g` child is present.
- Kik.KikClient.HandleReceivedIqElement: merges the `TypeError` (no `query` child) and the `KeyError` (no `xmlns:` key) into one error, `MissingQueryNamespace`.
- The element classes and their serialization (`login`, `account`, `chatting`, …, and the device and Android id overrides) are not modelled. An outbound element is an input with its id and serialized packets. The authenticated session request is the parameter `establish`.
- The namespace handlers' own behaviour is not modelled. The model records that a handler was given the stanza. It does not record what the handler does, such as calling `_establish_authenticated_session`. The two `FriendMessageHandler` instances are identified by their class.
- The other public commands are not modelled (`register`, `request_roster`, chat, group, profile and account commands, client.py:130-455). They build an element and call `_send_xmpp_element`, which is modelled. The picture uploads also perform HTTP requests.
- Kik.KikClient.Login: leaves out `captcha_result`. It only changes the contents of the request, which `loginOf` builds. The source's request ids are random; `loginOf` is a function, so two logins with the same credentials are given the same id.
- Logging and `_set_up_logging` are not modelled. They have no effect on the protocol state.
