/**
 * The agent and the server talking to each other: what an agent's request does on the
 * server and what the agent reads from the server's answer, for a JSON codec that reads
 * back what it prints.
 */
module Delivery {
  import opened Wrappers
  import opened Types
  import opened Framing
  import opened JsonText
  import opened Database
  import opened Server
  import ClientTcp
  import Rest
  import Ui

  /** The server reads the agent's request as exactly the action and identity it sent. */
  lemma RequestArrives(codec: JsonCodec, action: string, uuid: string, rest: seq<byte>)
    requires Faithful(codec)
    requires |codec.encode(RequestToJson(ClientRequest(action, uuid)))| < FrameLimit
    ensures ParseRequest(codec, ClientTcp.RequestFrame(codec, action, uuid) + rest) == Success(ClientRequest(action, uuid))
  {
    var payload := codec.encode(RequestToJson(ClientRequest(action, uuid)));
    ReadAfterWrite(payload, rest);
    RequestRoundTrip(ClientRequest(action, uuid));
  }

  /** The agent reads a response frame back as the response that was sent, unless it
      carried an explicit `null` message. */
  lemma ResponseArrives(codec: JsonCodec, r: ServerResponse)
    requires Faithful(codec)
    requires |codec.encode(ResponseToJson(r))| < FrameLimit
    requires r.message != Some(JNull)
    ensures ClientTcp.ReadResponse(codec, ResponseFrame(codec, r)) == Success(r)
  {
    var payload := codec.encode(ResponseToJson(r));
    ReadAfterWrite(payload, []);
    assert ResponseFrame(codec, r) + [] == ResponseFrame(codec, r);
    assert codec.decode(payload) == Some(ResponseToJson(r));
    ResponseRoundTrip(r);
  }

  /**
   * A poll round trip: a registered agent's "pool" request is answered with its pending
   * messages, the agent reads exactly that list, in table order, and afterwards nothing is
   * pending for it any more.
   */
  lemma PollRoundTrip(t: Tables, codec: JsonCodec, client: ClientTcp.TcpClient, now: Time)
    requires Faithful(codec) && Good(t)
    requires HasClient(t.clients, client.clientUuid)
    requires |codec.encode(RequestToJson(ClientRequest(PollAction, client.clientUuid)))| < FrameLimit
    requires |codec.encode(ResponseToJson(PollResponse(PendingFor(t.messages, client.clientUuid))))| < FrameLimit
    ensures var request := ClientTcp.RequestFrame(codec, PollAction, client.clientUuid);
      var s := Serve(t, codec, request, true, now);
      && s.outcome.Success?
      && ClientTcp.FindMessages(codec, client, true, s.output).result == Success(PendingFor(t.messages, client.clientUuid))
      && PendingFor(s.tables.messages, client.clientUuid) == []
  {
    var uuid := client.clientUuid;
    var request := ClientTcp.RequestFrame(codec, PollAction, uuid);
    RequestArrives(codec, PollAction, uuid, []);
    assert request + [] == request;
    RegisteredPollDelivers(t, codec, request, now);
    var pending := PendingFor(t.messages, uuid);
    ResponseArrives(codec, PollResponse(pending));
    MessagesRoundTrip(pending);
  }

  /** Registration handshake: the agent's "register" request always succeeds from the
      agent's point of view, and the server then knows the identity. */
  lemma RegisterRoundTrip(t: Tables, codec: JsonCodec, client: ClientTcp.TcpClient, now: Time)
    requires Faithful(codec)
    requires |codec.encode(RequestToJson(ClientRequest(RegisterAction, client.clientUuid)))| < FrameLimit
    requires |codec.encode(ResponseToJson(ServerResponse("ok", Some(JStr(RegisteredText(client.clientUuid))))))| < FrameLimit
    ensures var request := ClientTcp.RequestFrame(codec, RegisterAction, client.clientUuid);
      var s := Serve(t, codec, request, true, now);
      && ClientTcp.Register(codec, client, true, s.output).result.Success?
      && HasClient(s.tables.clients, client.clientUuid)
  {
    var uuid := client.clientUuid;
    var request := ClientTcp.RequestFrame(codec, RegisterAction, uuid);
    RequestArrives(codec, RegisterAction, uuid, []);
    assert request + [] == request;
    RegisterAnswersOk(t, codec, request, now);
    ResponseArrives(codec, ServerResponse("ok", Some(JStr(RegisteredText(uuid)))));
  }

  /**
   * At-least-once delivery: a message pending for `u` stops being pending only in a
   * session that was a poll by `u` whose answer — listing that message — was written.
   * No other session, and no failed write, takes a message out of the pending set.
   */
  lemma LeavesPendingOnlyWhenSent(t: Tables, codec: JsonCodec, input: seq<byte>, writeOk: bool, now: Time, u: string, k: nat)
    requires Good(t)
    requires k < |t.messages| && IsPendingFor(t.messages[k], u)
    ensures var s := Serve(t, codec, input, writeOk, now);
      && |s.tables.messages| == |t.messages|
      && (!IsPendingFor(s.tables.messages[k], u) ==>
            && writeOk && s.outcome.Success?
            && ParseRequest(codec, input) == Success(ClientRequest(PollAction, u))
            && t.messages[k] in PendingFor(t.messages, u)
            && s.output == ResponseFrame(codec, PollResponse(PendingFor(t.messages, u))))
  {
    var r := ParseRequest(codec, input);
    if r.Success? && r.value.action == PollAction && HasClient(t.clients, r.value.uuid) {
      PollMarksExactlyPending(t.messages, r.value.uuid, now);
      PendingForExact(t.messages, u);
    }
  }

  /** A key the admin application sends, if it is one the gateway loaded and is plain
      visible ASCII, is let through. */
  lemma ConfiguredKeyAccepted(env: Option<string>, password: string)
    requires password in Rest.LoadPasswords(env)
    requires forall i :: 0 <= i < |password| ==> ' ' <= password[i] <= '~'
    ensures Ui.ApiHeaders(password) == Some(map["X-API-Key" := password])
    ensures Rest.Authorize(Rest.LoadPasswords(env), Some(AsciiBytes(password))) == Rest.Forward
  {
    KnownKeyAccepted(Rest.LoadPasswords(env), password);
  }

  lemma KnownKeyAccepted(keys: set<string>, password: string)
    requires password in keys
    requires forall i :: 0 <= i < |password| ==> ' ' <= password[i] <= '~'
    ensures Rest.Authorize(keys, Some(AsciiBytes(password))) == Rest.Forward
  {
    var text := Rest.HeaderText(AsciiBytes(password));
    assert text.Some?;
    assert text.value == password;
  }

  /** The bytes of an ASCII string. */
  function AsciiBytes(s: string): (b: seq<byte>)
    requires forall i :: 0 <= i < |s| ==> s[i] < '\U{100}'
    ensures |b| == |s| && forall i :: 0 <= i < |s| ==> b[i] == s[i] as int
  {
    seq(|s|, i requires 0 <= i < |s| => s[i] as int)
  }
}
