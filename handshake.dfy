/**
 * The connection handshake: the payload that opens a connection, and the reaction to
 * the server's `k` acknowledgement (`_handle_received_k_element`) on the session flags.
 */
module Handshake {
  import opened Bytes
  import opened Protocol
  import opened Dispatch

  /** `'<k anon="">'.encode()`: the opening of a connection that proves no identity. */
  const ANONYMOUS_OPEN: Bytes := [60, 107, 32, 97, 110, 111, 110, 61, 34, 34, 62]

  /** What `EstablishAuthenticatedSessionRequest` is built from. */
  datatype Credentials = Credentials(node: string, username: string, password: string)

  /** The client's `connected`, `authenticated` and `should_login_on_connection`. */
  datatype SessionFlags = SessionFlags(connected: bool, authenticated: bool, shouldLoginOnConnection: bool)

  /** The flags of a new client: a login is owed exactly when a username and a password were given. */
  function InitialFlags(username: Option<string>, password: Option<string>): (r: SessionFlags)
    ensures !r.connected && !r.authenticated
    ensures r.shouldLoginOnConnection <==> username.Some? && password.Some?
  {
    SessionFlags(false, false, username.Some? && password.Some?)
  }

  /** The credentials to open with, when all three are known. */
  function KnownCredentials(username: Option<string>, password: Option<string>, node: Option<string>): (r: Option<Credentials>)
    ensures r.Some? <==> username.Some? && password.Some? && node.Some?
    ensures r.Some? ==> r.value == Credentials(node.value, username.value, password.value)
  {
    if username.Some? && password.Some? && node.Some? then
      Some(Credentials(node.value, username.value, password.value))
    else
      None
  }

  /** A `k` stanza's effect: the new flags, the callbacks fired, and whether a login is sent. */
  datatype AckReaction = AckReaction(flags: SessionFlags, events: seq<Event>, sendsLogin: bool)

  /** An acknowledgement that opens the connection without authenticating it. */
  predicate PlainSuccess(k: Stanza)
  {
    "ok" in k.attrs && k.attrs["ok"] == "1" && "ts" !in k.attrs
  }

  /**
   * `_handle_received_k_element`. A missing `ok` raises before anything changes; a
   * failure fires `on_connection_failed` and leaves the flags alone; a success sets
   * `connected`, and then either authenticates (with `ts`) or sends the owed login once.
   */
  function OnAck(f: SessionFlags, k: Stanza): (r: Result<AckReaction, RoutingError>)
    ensures r.Failure? <==> "ok" !in k.attrs
    ensures r.Success? && k.attrs["ok"] != "1" ==> r.value == AckReaction(f, [ConnectionFailed(k)], false)
    ensures r.Success? && k.attrs["ok"] == "1" ==> r.value.flags.connected
    ensures r.Success? ==> (r.value.sendsLogin <==> PlainSuccess(k) && f.shouldLoginOnConnection)
    ensures r.Success? ==> r.value.flags.shouldLoginOnConnection == (f.shouldLoginOnConnection && !r.value.sendsLogin)
    ensures r.Success? ==> (r.value.flags.authenticated <==> f.authenticated || (k.attrs["ok"] == "1" && "ts" in k.attrs))
    ensures r.Success? && k.attrs["ok"] == "1" ==>
      r.value.events == (if "ts" in k.attrs then [Authenticated] else [])
  {
    if "ok" !in k.attrs then
      Failure(MissingAttribute("ok"))
    else if k.attrs["ok"] == "1" then
      var f' := f.(connected := true);
      if "ts" in k.attrs then
        Success(AckReaction(f'.(authenticated := true), [Authenticated], false))
      else if f.shouldLoginOnConnection then
        Success(AckReaction(f'.(shouldLoginOnConnection := false), [], true))
      else
        Success(AckReaction(f', [], false))
    else
      Success(AckReaction(f, [ConnectionFailed(k)], false))
  }

  /** The flags after a run of acknowledgements, and how many logins they sent. */
  datatype AckRun = AckRun(flags: SessionFlags, logins: nat)

  /** Acknowledgements handled in order; one that raises changes nothing. */
  function OnAcks(f: SessionFlags, acks: seq<Stanza>): AckRun
    decreases |acks|
  {
    if acks == [] then
      AckRun(f, 0)
    else
      match OnAck(f, acks[0])
      case Failure(_) => OnAcks(f, acks[1..])
      case Success(reaction) =>
        var rest := OnAcks(reaction.flags, acks[1..]);
        AckRun(rest.flags, rest.logins + if reaction.sendsLogin then 1 else 0)
  }

  /**
   * However many acknowledgements arrive, at most one login is sent, and only when one
   * was owed; once sent, or when none was owed, none is owed afterwards; `connected` and `authenticated` never
   * fall back to false.
   */
  lemma {:induction false} LoginAtMostOnce(f: SessionFlags, acks: seq<Stanza>)
    ensures OnAcks(f, acks).logins <= if f.shouldLoginOnConnection then 1 else 0
    ensures OnAcks(f, acks).logins == 1 ==> !OnAcks(f, acks).flags.shouldLoginOnConnection
    ensures !f.shouldLoginOnConnection ==> !OnAcks(f, acks).flags.shouldLoginOnConnection
    ensures f.connected ==> OnAcks(f, acks).flags.connected
    ensures f.authenticated ==> OnAcks(f, acks).flags.authenticated
    decreases |acks|
  {
    if acks != [] {
      match OnAck(f, acks[0])
      case Failure(_) =>
        LoginAtMostOnce(f, acks[1..]);
      case Success(reaction) =>
        LoginAtMostOnce(reaction.flags, acks[1..]);
    }
  }

  /**
   * An owed login is sent exactly when some acknowledgement in the run opens the
   * connection without a `ts`; one that carries `ts` does not discharge it.
   */
  lemma {:induction false} LoginSentIffPlainSuccess(f: SessionFlags, acks: seq<Stanza>)
    requires f.shouldLoginOnConnection
    ensures OnAcks(f, acks).logins == 1 <==> exists i | 0 <= i < |acks| :: PlainSuccess(acks[i])
    decreases |acks|
  {
    if acks != [] {
      var rest := acks[1..];
      assert forall i | 0 <= i < |rest| :: rest[i] == acks[i + 1];
      match OnAck(f, acks[0])
      case Failure(_) =>
        LoginSentIffPlainSuccess(f, rest);
        assert !PlainSuccess(acks[0]);
        if exists i | 0 <= i < |acks| :: PlainSuccess(acks[i]) {
          var i :| 0 <= i < |acks| && PlainSuccess(acks[i]);
          assert PlainSuccess(rest[i - 1]);
        }
      case Success(reaction) =>
        if reaction.sendsLogin {
          LoginAtMostOnce(reaction.flags, rest);
          assert PlainSuccess(acks[0]);
        } else {
          assert !PlainSuccess(acks[0]);
          LoginSentIffPlainSuccess(reaction.flags, rest);
          if exists i | 0 <= i < |acks| :: PlainSuccess(acks[i]) {
            var i :| 0 <= i < |acks| && PlainSuccess(acks[i]);
            assert PlainSuccess(rest[i - 1]);
          }
        }
    }
  }
}
