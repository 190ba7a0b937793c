/**
 * `KikClient`: the session state, the handshake, the routing of received stanzas to
 * handlers and callbacks, and the outbound send primitive. Sends are queued on the
 * event loop; callbacks and handler invocations are recorded in `events`.
 */
module Kik {
  import opened Bytes
  import opened Framing
  import opened Loop
  import opened Transport
  import opened Protocol
  import opened Dispatch
  import opened Handshake

  /** How a callback run on the loop ends: normally, or with the exception it raised. */
  datatype Outcome = Done | Raised(error: RoutingError)

  class KikClient {
    var username: Option<string>
    var password: Option<string>
    var kikNode: Option<string>
    var connected: bool
    var authenticated: bool
    var shouldLoginOnConnection: bool
    var initialConnectionPayload: Option<Bytes>
    const xmlNamespaceHandlers: map<string, HandlerId>
    const loop: EventLoop
    var connection: KikConnection
    /** Callbacks fired on the application and stanzas handed to handlers, in order. */
    var events: seq<Event>

    ghost predicate Valid()
      reads this, connection
    {
      && connection.loop == loop
      && connection.Valid()
      && (shouldLoginOnConnection ==> username.Some? && password.Some?)
    }

    ghost function Session(): SessionFlags
      reads this
    {
      SessionFlags(connected, authenticated, shouldLoginOnConnection)
    }

    /** A fresh connection on the client's loop: no transport yet, nothing buffered or written. */
    ghost predicate FreshConnection()
      reads this, connection
    {
      connection.loop == loop && connection.Valid() && connection.Buffered() == Idle
      && !connection.hasTransport && connection.written == []
    }

    /** The effect of one `k` stanza on the state, relative to the state before it. */
    ghost predicate ReactedToAck(before: SessionFlags, eventsBefore: seq<Event>, queueBefore: seq<Task>,
                                 k: Stanza, loginOf: (string, string) -> Element, outcome: Outcome)
      reads this, loop
    {
      var r := OnAck(before, k);
      && (r.Failure? ==>
            && outcome == Raised(r.error)
            && Session() == before && events == eventsBefore && loop.queue == queueBefore)
      && (r.Success? ==>
            && outcome == Done
            && Session() == r.value.flags
            && events == eventsBefore + r.value.events
            && (!r.value.sendsLogin ==> loop.queue == queueBefore)
            && (r.value.sendsLogin ==>
                  && username.Some? && password.Some?
                  && loop.queue == queueBefore + Sends(Packets(loginOf(username.value, password.value)))))
    }

    /** `__init__` followed by `_connect`, whose thread gives the client its first connection. */
    constructor (username: Option<string>, password: Option<string>, kikNode: Option<string>)
      ensures Valid() && FreshConnection() && fresh(connection) && fresh(loop)
      ensures this.username == username && this.password == password && this.kikNode == kikNode
      ensures Session() == InitialFlags(username, password)
      ensures xmlNamespaceHandlers == NAMESPACE_HANDLERS
      ensures initialConnectionPayload == None && events == [] && loop.queue == []
    {
      this.username := username;
      this.password := password;
      this.kikNode := kikNode;
      connected := false;
      authenticated := false;
      shouldLoginOnConnection := username.Some? && password.Some?;
      initialConnectionPayload := None;
      xmlNamespaceHandlers := NAMESPACE_HANDLERS;
      var eventLoop := new EventLoop();
      loop := eventLoop;
      connection := new KikConnection(eventLoop);
      events := [];
    }

    /** `_connect`: the connection thread puts a new connection on the same loop. */
    method Connect()
      requires Valid()
      modifies this`connection
      ensures Valid() && FreshConnection() && fresh(connection)
    {
      connection := new KikConnection(loop);
    }

    /**
     * `_on_connection_made`: opens with the serialized `EstablishAuthenticatedSessionRequest`
     * (`establish`) when node, username and password are all known, else anonymously.
     */
    method OnConnectionMade(establish: Credentials -> Bytes)
      requires Valid() && connection.hasTransport
      modifies this`initialConnectionPayload, connection`written
      ensures Valid()
      ensures var credentials := KnownCredentials(username, password, kikNode);
        initialConnectionPayload == Some(if credentials.Some? then establish(credentials.value) else ANONYMOUS_OPEN)
      ensures connection.written == old(connection.written) + [initialConnectionPayload.value]
    {
      if username.Some? && password.Some? && kikNode.Some? {
        initialConnectionPayload := Some(establish(Credentials(kikNode.value, username.value, password.value)));
      } else {
        initialConnectionPayload := Some(ANONYMOUS_OPEN);
      }
      connection.SendRawData(initialConnectionPayload.value);
    }

    /** `disconnect`: closes the current connection. */
    method Disconnect()
      requires Valid()
      modifies connection`written
      ensures connection.written == old(connection.written) + (if connection.hasTransport then [CLOSE_PAYLOAD] else [])
    {
      connection.Close();
    }

    /**
     * `_establish_authenticated_session`: records the node, closes the current connection,
     * then replaces it with a new one, whose handshake will use the credentials.
     */
    method EstablishAuthenticatedSession(kikNode: string)
      requires Valid()
      modifies this`kikNode, this`connection, connection`written
      ensures Valid() && FreshConnection() && fresh(connection)
      ensures this.kikNode == Some(kikNode)
      ensures old(connection).written
           == old(connection.written) + (if old(connection.hasTransport) then [CLOSE_PAYLOAD] else [])
    {
      this.kikNode := Some(kikNode);
      Disconnect();
      Connect();
    }

    /**
     * `_send_xmpp_element`, once connected: queues one send per serialized packet, in
     * order, and returns the element's correlation id.
     */
    method SendXmppElement(message: Element) returns (messageId: string)
      requires Valid() && connected
      modifies loop
      ensures messageId == message.messageId
      ensures loop.queue == old(loop.queue) + Sends(Packets(message))
    {
      match message.serialized {
        case Multi(packets) =>
          var i := 0;
          while i < |packets|
            invariant 0 <= i <= |packets|
            invariant loop.queue == old(loop.queue) + Sends(packets[..i])
          {
            loop.CallSoonThreadsafe(SendRawData(packets[i]));
            i := i + 1;
          }
          assert packets[..i] == packets;
        case Single(payload) =>
          loop.CallSoonThreadsafe(SendRawData(payload));
      }
      messageId := message.messageId;
    }

    /**
     * `login`: stores the credentials and sends the `LoginRequest` that `loginOf` builds
     * from them, returning its correlation id.
     */
    method Login(username: string, password: string, loginOf: (string, string) -> Element)
      returns (messageId: string)
      requires Valid() && connected
      modifies this`username, this`password, loop
      ensures Valid()
      ensures this.username == Some(username) && this.password == Some(password)
      ensures messageId == loginOf(username, password).messageId
      ensures loop.queue == old(loop.queue) + Sends(Packets(loginOf(username, password)))
    {
      this.username := Some(username);
      this.password := Some(password);
      var request := loginOf(username, password);
      messageId := SendXmppElement(request);
    }

    /**
     * `_handle_received_k_element`; when a login is owed it logs in with the stored
     * username and password, `loginOf` building the `LoginRequest`.
     */
    method HandleReceivedKElement(k: Stanza, loginOf: (string, string) -> Element) returns (outcome: Outcome)
      requires Valid()
      modifies this`connected, this`authenticated, this`shouldLoginOnConnection, this`events,
               this`username, this`password, loop
      ensures Valid()
      ensures username == old(username) && password == old(password)
      ensures ReactedToAck(old(Session()), old(events), old(loop.queue), k, loginOf, outcome)
    {
      if "ok" !in k.attrs {
        return Raised(MissingAttribute("ok"));
      }
      if k.attrs["ok"] == "1" {
        connected := true;
        if "ts" in k.attrs {
          authenticated := true;
          events := events + [Authenticated];
        } else if shouldLoginOnConnection {
          var messageId := Login(username.value, password.value, loginOf);
          shouldLoginOnConnection := false;
        }
      } else {
        events := events + [ConnectionFailed(k)];
      }
      outcome := Done;
    }

    /** `_handle_xmlns`: hands the stanza to the registered handler, or drops it. */
    method HandleXmlns(xmlns: string, message: Stanza)
      modifies this`events
      ensures events == old(events) + EventsOf(RouteXmlns(xmlns, xmlNamespaceHandlers), message)
    {
      if xmlns !in xmlNamespaceHandlers {
        return;
      }
      events := events + [Handled(xmlNamespaceHandlers[xmlns], message)];
    }

    /** `_handle_received_iq_element`: routes by the namespace of the `query` child. */
    method HandleReceivedIqElement(iq: Stanza) returns (outcome: Outcome)
      modifies this`events
      ensures iq.queryXmlns.None? ==> outcome == Raised(MissingQueryNamespace) && events == old(events)
      ensures iq.queryXmlns.Some? ==>
        && outcome == Done
        && events == old(events) + EventsOf(RouteXmlns(iq.queryXmlns.value, xmlNamespaceHandlers), iq)
    {
      if iq.queryXmlns.None? {
        return Raised(MissingQueryNamespace);
      }
      HandleXmlns(iq.queryXmlns.value, iq);
      outcome := Done;
    }

    /** `_handle_xmpp_message`. */
    method HandleXmppMessage(message: Stanza) returns (outcome: Outcome)
      modifies this`events
      ensures var r := RouteMessage(message, xmlNamespaceHandlers);
        && (r.Failure? ==> outcome == Raised(r.error) && events == old(events))
        && (r.Success? ==> outcome == Done && events == old(events) + EventsOf(r.value, message))
    {
      if "xmlns" in message.attrs {
        HandleXmlns(message.attrs["xmlns"], message);
      } else if "type" !in message.attrs {
        return Raised(MissingAttribute("type"));
      } else if message.attrs["type"] == "receipt" && message.hasGroupChild {
        events := events + [GroupReceiptsReceived(message)];
      } else {
        if JABBER_CLIENT !in xmlNamespaceHandlers {
          return Raised(NoDefaultHandler);
        }
        events := events + [Handled(xmlNamespaceHandlers[JABBER_CLIENT], message)];
      }
      outcome := Done;
    }

    /**
     * `_on_new_data_received`: `data` is one complete stanza and `parsed` its first
     * element as the XML parser returns it.
     */
    method OnNewDataReceived(data: Bytes, parsed: Stanza, loginOf: (string, string) -> Element)
      returns (outcome: Outcome)
      requires Valid()
      modifies this`connected, this`authenticated, this`shouldLoginOnConnection, this`events,
               this`username, this`password, loop
      ensures Valid()
      ensures username == old(username) && password == old(password)
      ensures var route := RouteStanza(data, parsed, xmlNamespaceHandlers);
        && (route.Failure? ==>
              && outcome == Raised(route.error)
              && Session() == old(Session()) && events == old(events) && loop.queue == old(loop.queue))
        && (route == Success(EchoKeepAlive) ==>
              && outcome == Done
              && Session() == old(Session()) && events == old(events)
              && loop.queue == old(loop.queue) + [SendRawData(KEEP_ALIVE)])
        && (route == Success(ConnectionAck) ==>
              ReactedToAck(old(Session()), old(events), old(loop.queue), parsed, loginOf, outcome))
        && (route.Success? && route.value != EchoKeepAlive && route.value != ConnectionAck ==>
              && outcome == Done
              && Session() == old(Session()) && loop.queue == old(loop.queue)
              && events == old(events) + EventsOf(route.value, parsed))
    {
      if data == KEEP_ALIVE {
        loop.CallSoonThreadsafe(SendRawData(KEEP_ALIVE));
        return Done;
      }
      outcome := Done;
      if parsed.name == "k" {
        outcome := HandleReceivedKElement(parsed, loginOf);
        return;
      }
      if parsed.name == "iq" {
        outcome := HandleReceivedIqElement(parsed);
      } else if parsed.name == "message" {
        outcome := HandleXmppMessage(parsed);
      } else if parsed.name == "stc" {
        events := events + [CaptchaReceived(parsed)];
      }
    }
  }

  /**
   * With node, username and password all known, opening a connection sends exactly one
   * payload: the credential-proving session request.
   */
  method FullIdentityHandshake(node: string, username: string, password: string,
                               establish: Credentials -> Bytes) returns (sent: seq<Bytes>)
    ensures sent == [establish(Credentials(node, username, password))]
  {
    var client := new KikClient(Some(username), Some(password), Some(node));
    client.connection.ConnectionMade();
    client.OnConnectionMade(establish);
    sent := client.connection.written;
  }

  /**
   * With a username and password but no node, the connection opens anonymously and no
   * login is queued; the first acknowledgement without `ts` queues the login, and a
   * second such acknowledgement queues nothing more.
   */
  method DeferredLogin(username: string, password: string, establish: Credentials -> Bytes,
                       ackData: Bytes, ack: Stanza, loginOf: (string, string) -> Element)
    returns (sent: seq<Bytes>, queuedBeforeAck: seq<Task>, queuedAfterAck: seq<Task>,
             queuedAfterSecondAck: seq<Task>)
    requires ackData != KEEP_ALIVE && ack.name == "k" && PlainSuccess(ack)
    ensures sent == [ANONYMOUS_OPEN]
    ensures queuedBeforeAck == []
    ensures queuedAfterAck == Sends(Packets(loginOf(username, password)))
    ensures queuedAfterSecondAck == queuedAfterAck
  {
    var client := new KikClient(Some(username), Some(password), None);
    client.connection.ConnectionMade();
    client.OnConnectionMade(establish);
    sent := client.connection.written;
    queuedBeforeAck := client.loop.queue;
    var outcome := client.OnNewDataReceived(ackData, ack, loginOf);
    queuedAfterAck := client.loop.queue;
    outcome := client.OnNewDataReceived(ackData, ack, loginOf);
    queuedAfterSecondAck := client.loop.queue;
  }

  /**
   * Once the node is discovered, the old connection is closed (after its anonymous
   * opening) and the new connection opens with the credential-proving request.
   */
  method IdentityDiscoveryReconnect(node: string, username: string, password: string,
                                    establish: Credentials -> Bytes)
    returns (firstConnection: seq<Bytes>, secondConnection: seq<Bytes>)
    ensures firstConnection == [ANONYMOUS_OPEN, CLOSE_PAYLOAD]
    ensures secondConnection == [establish(Credentials(node, username, password))]
  {
    var client := new KikClient(Some(username), Some(password), None);
    client.connection.ConnectionMade();
    client.OnConnectionMade(establish);
    var first := client.connection;
    assert first.written == [ANONYMOUS_OPEN];
    client.EstablishAuthenticatedSession(node);
    firstConnection := first.written;
    assert firstConnection == [ANONYMOUS_OPEN, CLOSE_PAYLOAD];
    var second := client.connection;
    assert second != first;
    second.ConnectionMade();
    client.OnConnectionMade(establish);
    secondConnection := second.written;
  }

  /**
   * A stanza whose first read reaches the threshold and whose second read ends with its
   * closing tag is queued once, whole, for `_on_new_data_received`.
   */
  method ReceiveSplitStanza(first: Bytes, last: Bytes) returns (queued: seq<Task>)
    requires |first| >= MULTI_PACKET_THRESHOLD
    requires EndsWithTag(ParseStartTag(first).0, last)
    ensures queued == [NewDataReceived(first + last)]
  {
    var loop := new EventLoop();
    var connection := new KikConnection(loop);
    connection.DataReceived(first);
    connection.DataReceived(last);
    queued := loop.queue;
  }
}
