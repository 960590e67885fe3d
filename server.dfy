/**
 * The agent-facing server session (server/src/tcp.rs): one request frame in, at most one
 * response frame out, and the store updates of the chosen action in their source order.
 */
module Server {
  import opened Wrappers
  import opened Types
  import opened Framing
  import opened Database
  import opened Seqs
  import opened JsonText

  const PollAction: string := "pool"
  const RegisterAction: string := "register"

  /** Why a session ended early (the `?` exits of `handle_socket_messsages`). */
  datatype SessionError =
    | FramingError      // fewer bytes than a whole frame arrived
    | BadRequest        // the frame is not JSON text of a ClientRequest
    | UnknownClient     // `proof_client` failed: "Client not found"
    | WriteFailed       // the peer did not take the response frame

  /** What a session leaves behind: the store, the bytes written back, and how it ended. */
  datatype Session = Session(tables: Tables, output: seq<byte>, outcome: Result<(), SessionError>)

  function RegisteredText(uuid: string): string {
    "Registered successfully: " + uuid
  }

  function UnknownActionText(action: string): string {
    "Unknown action: " + action
  }

  /** The response frame for `r`, as `write_message` puts it on the wire. */
  function ResponseFrame(codec: JsonCodec, r: ServerResponse): seq<byte> {
    WriteMessage(codec.encode(ResponseToJson(r)))
  }

  /** The request a connection's bytes carry, if they carry one. */
  function ParseRequest(codec: JsonCodec, input: seq<byte>): Result<ClientRequest, SessionError> {
    match ReadMessage(input)
    case Failure(_) => Failure(FramingError)
    case Success((payload, _)) =>
      match codec.decode(payload)
      case None => Failure(BadRequest)
      case Some(j) =>
        match RequestFromJson(j)
        case None => Failure(BadRequest)
        case Some(req) => Success(req)
  }

  /** A reply whose write may fail; nothing of a failed write reaches the peer. */
  function Reply(t: Tables, codec: JsonCodec, r: ServerResponse, writeOk: bool): Session {
    if writeOk then Session(t, ResponseFrame(codec, r), Success(()))
    else Session(t, [], Failure(WriteFailed))
  }

  function PollResponse(pending: seq<Message>): ServerResponse {
    ServerResponse("ok", Some(MessagesToJson(pending)))
  }

  /**
   * `handle_socket_messsages`.  "pool": check the client, read its pending messages,
   * write them, and only then update `last_seen` and mark the sent ids delivered.
   * "register": register and answer "ok".  Anything else: answer "error".
   */
  function Serve(t: Tables, codec: JsonCodec, input: seq<byte>, writeOk: bool, now: Time): Session {
    match ParseRequest(codec, input)
    case Failure(e) => Session(t, [], Failure(e))
    case Success(req) =>
      if req.action == PollAction then
        if !HasClient(t.clients, req.uuid) then Session(t, [], Failure(UnknownClient))
        else
          var pending := PendingFor(t.messages, req.uuid);
          var sent := Reply(t, codec, PollResponse(pending), writeOk);
          if sent.outcome.Failure? then sent
          else
            var t' := t.(clients := TouchClient(t.clients, req.uuid, now),
                         messages := MarkDelivered(t.messages, Ids(pending), now));
            sent.(tables := t')
      else if req.action == RegisterAction then
        Reply(RegisterClientTables(t, req.uuid, now), codec, ServerResponse("ok", Some(JStr(RegisteredText(req.uuid)))), writeOk)
      else
        Reply(t, codec, ServerResponse("error", Some(JStr(UnknownActionText(req.action)))), writeOk)
  }

  // ---------------------------------------------------------------------------
  // What a session does, action by action
  // ---------------------------------------------------------------------------

  /** Bytes that are not a request frame end the session with no answer and no change. */
  lemma MalformedInputIgnored(t: Tables, codec: JsonCodec, input: seq<byte>, writeOk: bool, now: Time)
    requires ParseRequest(codec, input).Failure?
    ensures var s := Serve(t, codec, input, writeOk, now);
      s.tables == t && s.output == [] && s.outcome == Failure(ParseRequest(codec, input).error)
  {
  }

  /** A poll from an identity the store does not know fails before anything is written,
      and the store is unchanged. */
  lemma UnregisteredPollRejected(t: Tables, codec: JsonCodec, input: seq<byte>, writeOk: bool, now: Time)
    requires ParseRequest(codec, input).Success?
    requires ParseRequest(codec, input).value.action == PollAction
    requires !HasClient(t.clients, ParseRequest(codec, input).value.uuid)
    ensures Serve(t, codec, input, writeOk, now) == Session(t, [], Failure(UnknownClient))
  {
  }

  /** A poll from a known identity writes "ok" with exactly its pending messages; after the
      write, exactly those messages are delivered at `now`, `last_seen` is `now`, and the
      identity has nothing pending any more. */
  lemma RegisteredPollDelivers(t: Tables, codec: JsonCodec, input: seq<byte>, now: Time)
    requires Good(t)
    requires ParseRequest(codec, input).Success?
    requires ParseRequest(codec, input).value.action == PollAction
    requires HasClient(t.clients, ParseRequest(codec, input).value.uuid)
    ensures var uuid := ParseRequest(codec, input).value.uuid;
      var s := Serve(t, codec, input, true, now);
      && s.outcome.Success?
      && s.output == ResponseFrame(codec, PollResponse(PendingFor(t.messages, uuid)))
      && s.tables.donates == t.donates
      && s.tables.clients == TouchClient(t.clients, uuid, now)
      && |s.tables.messages| == |t.messages|
      && (forall k :: 0 <= k < |t.messages| ==>
            if IsPendingFor(t.messages[k], uuid)
            then s.tables.messages[k] == MarkedDelivered(t.messages[k], now)
            else s.tables.messages[k] == t.messages[k])
      && PendingFor(s.tables.messages, uuid) == []
  {
    var uuid := ParseRequest(codec, input).value.uuid;
    PollMarksExactlyPending(t.messages, uuid, now);
  }

  /** In a table with unique ids, a message's id is among the ids of `u`'s pending
      messages exactly when that message is pending for `u`. */
  lemma PendingIdsExact(ms: seq<Message>, uuid: string, k: nat)
    requires StrictlyAscending(ms, MessageKey)
    requires k < |ms|
    ensures ms[k].id in Ids(PendingFor(ms, uuid)) <==> IsPendingFor(ms[k], uuid)
  {
    var pending := PendingFor(ms, uuid);
    var p := (m: Message) => IsPendingFor(m, uuid);
    if IsPendingFor(ms[k], uuid) {
      assert p(ms[k]);
      var i :| 0 <= i < |pending| && pending[i] == ms[k];
      assert Ids(pending)[i] == ms[k].id;
    }
    if ms[k].id in Ids(pending) {
      var i :| 0 <= i < |pending| && pending[i].id == ms[k].id;
      assert pending[i] in ms && p(pending[i]);
      var j :| 0 <= j < |ms| && ms[j] == pending[i];
      SameIdSameRow(ms, j, k);
    }
  }

  /** Ids are strictly ascending, so one id names one row. */
  lemma SameIdSameRow(ms: seq<Message>, j: nat, k: nat)
    requires StrictlyAscending(ms, MessageKey)
    requires j < |ms| && k < |ms| && ms[j].id == ms[k].id
    ensures j == k
  {
    assert MessageKey(ms[j]) == MessageKey(ms[k]);
  }

  /** Marking the ids of `u`'s pending messages touches those messages and no other (ids
      being unique), and leaves `u` with nothing pending. */
  lemma PollMarksExactlyPending(ms: seq<Message>, uuid: string, now: Time)
    requires StrictlyAscending(ms, MessageKey)
    ensures var ms' := MarkDelivered(ms, Ids(PendingFor(ms, uuid)), now);
      && |ms'| == |ms|
      && (forall k :: 0 <= k < |ms| ==>
            if IsPendingFor(ms[k], uuid) then ms'[k] == MarkedDelivered(ms[k], now) else ms'[k] == ms[k])
      && PendingFor(ms', uuid) == []
  {
    var ms' := MarkDelivered(ms, Ids(PendingFor(ms, uuid)), now);
    forall k | 0 <= k < |ms|
      ensures if IsPendingFor(ms[k], uuid) then ms'[k] == MarkedDelivered(ms[k], now) else ms'[k] == ms[k]
      ensures !IsPendingFor(ms'[k], uuid)
    {
      PendingIdsExact(ms, uuid, k);
    }
    NothingPending(ms', uuid);
  }

  lemma NothingPending(ms: seq<Message>, uuid: string)
    requires forall k :: 0 <= k < |ms| ==> !IsPendingFor(ms[k], uuid)
    ensures PendingFor(ms, uuid) == []
  {
    FilterNone(ms, (m: Message) => IsPendingFor(m, uuid));
  }

  /** If the poll response cannot be written, nothing is marked delivered and `last_seen`
      is not touched: the messages stay pending for the next poll (at-least-once). */
  lemma FailedWriteKeepsPending(t: Tables, codec: JsonCodec, input: seq<byte>, now: Time)
    requires ParseRequest(codec, input).Success?
    requires ParseRequest(codec, input).value.action == PollAction
    ensures var s := Serve(t, codec, input, false, now);
      && s.tables == t && s.output == [] && s.outcome.Failure?
      && PendingFor(s.tables.messages, ParseRequest(codec, input).value.uuid)
         == PendingFor(t.messages, ParseRequest(codec, input).value.uuid)
  {
  }

  /** "register" always answers "ok" with "Registered successfully: <uuid>" and leaves the
      identity known to the store, whether or not it was known before. */
  lemma RegisterAnswersOk(t: Tables, codec: JsonCodec, input: seq<byte>, now: Time)
    requires ParseRequest(codec, input).Success?
    requires ParseRequest(codec, input).value.action == RegisterAction
    ensures var uuid := ParseRequest(codec, input).value.uuid;
      var s := Serve(t, codec, input, true, now);
      && s.outcome.Success?
      && s.output == ResponseFrame(codec, ServerResponse("ok", Some(JStr(RegisteredText(uuid)))))
      && s.tables == Register(t, uuid, now)
      && HasClient(s.tables.clients, uuid)
  {
    RegisterEffect(t, ParseRequest(codec, input).value.uuid, now);
  }

  /** Any other action answers "error" with "Unknown action: <action>" and leaves the
      store exactly as it was. */
  lemma UnknownActionUntouched(t: Tables, codec: JsonCodec, input: seq<byte>, writeOk: bool, now: Time)
    requires ParseRequest(codec, input).Success?
    requires ParseRequest(codec, input).value.action != PollAction
    requires ParseRequest(codec, input).value.action != RegisterAction
    ensures var s := Serve(t, codec, input, writeOk, now);
      && s.tables == t
      && (writeOk ==> s.output == ResponseFrame(codec,
            ServerResponse("error", Some(JStr(UnknownActionText(ParseRequest(codec, input).value.action))))))
  {
  }

  /** Every session keeps the store's invariant. */
  lemma ServeKeepsGood(t: Tables, codec: JsonCodec, input: seq<byte>, writeOk: bool, now: Time)
    requires Good(t)
    ensures Good(Serve(t, codec, input, writeOk, now).tables)
  {
    var r := ParseRequest(codec, input);
    if r.Success? {
      RegisterKeepsGood(t, r.value.uuid, now);
      TouchClientEffect(t.clients, r.value.uuid, now);
      var ms' := MarkDelivered(t.messages, Ids(PendingFor(t.messages, r.value.uuid)), now);
      MarkDeliveredEffect(t.messages, Ids(PendingFor(t.messages, r.value.uuid)), now);
      assert forall k :: 0 <= k < |t.messages| ==> ms'[k].id == t.messages[k].id;
    }
  }

  // ---------------------------------------------------------------------------
  // create_donate_message
  // ---------------------------------------------------------------------------

  /** The queued "donate" message for `donate`, addressed to `uuid`. */
  function DonateMessage(donate: Donate, uuid: string, now: Time): Message {
    Message(0, uuid, DonateKind, DonateToJson(donate), now, None, PendingStatus)
  }

  /** `create_donate_message`: queue a "donate" message carrying the donate. */
  function QueueDonate(t: Tables, donate: Donate, uuid: string, now: Time): (Tables, Result<(), StoreError>) {
    var (t', r) := InsertMessage(t, DonateMessage(donate, uuid, now), now);
    (t', if r.Success? then Success(()) else Failure(r.error))
  }

  /** Unless the store is full, a pending "donate" message for `uuid` is queued and a
      donate row with the donate's content, owned by `uuid`, is linked to it. */
  lemma CreateDonateMessageQueues(t: Tables, donate: Donate, uuid: string, now: Time)
    requires Good(t)
    ensures var (t', r) := QueueDonate(t, donate, uuid, now);
      && (r.Success? <==> t.nextMessageId <= MaxRowId && t.nextDonateId <= MaxRowId)
      && (r.Success? ==>
            && t'.messages[..|t.messages|] == t.messages
            && |t'.messages| == |t.messages| + 1
            && IsPendingFor(t'.messages[|t.messages|], uuid)
            && t'.messages[|t.messages|].messageType == DonateKind
            && t'.donates == t.donates + [DonateRowOf(t.nextDonateId, donate, t.nextMessageId, uuid, now)])
  {
    var m := DonateMessage(donate, uuid, now);
    DonateRoundTrip(donate);
    CreateMessageFresh(t, m, now);
    if t.nextMessageId <= MaxRowId {
      CreateDonateMessageLinks(t, m, now);
    }
  }

  // ---------------------------------------------------------------------------
  // The server object
  // ---------------------------------------------------------------------------

  class TcpServer {
    const db: Store

    constructor (db: Store)
      ensures this.db == db
    {
      this.db := db;
    }

    /** `handle_socket_messsages` over one connection: `input` is what the peer sends,
        `writeOk` whether it takes the answer. */
    method HandleSocket(codec: JsonCodec, input: seq<byte>, writeOk: bool, now: Time)
      returns (output: seq<byte>, outcome: Result<(), SessionError>)
      requires db.Valid()
      modifies db
      ensures db.Valid()
      ensures Session(db.State(), output, outcome) == Serve(old(db.State()), codec, input, writeOk, now)
    {
      ServeKeepsGood(db.State(), codec, input, writeOk, now);
      var parsed := ParseRequest(codec, input);
      if parsed.Failure? {
        return [], Failure(parsed.error);
      }
      var request := parsed.value;
      var uuid := request.uuid;
      if request.action == PollAction {
        var known := db.ProofClient(uuid);
        if known.Failure? {
          return [], Failure(UnknownClient);
        }
        var messages := db.GetPendingMessages(uuid);
        if !writeOk {
          return [], Failure(WriteFailed);
        }
        output := ResponseFrame(codec, PollResponse(messages));
        // messages.iter_mut(): the local copies are marked; only their ids are used after.
        var i := 0;
        while i < |messages|
          invariant 0 <= i <= |messages|
          invariant Ids(messages) == Ids(PendingFor(db.messages, uuid))
        {
          if messages[i].clientUuid == uuid {
            messages := messages[i := MarkedDelivered(messages[i], now)];
          }
          i := i + 1;
        }
        db.UpdateLastSeen(uuid, now);
        db.MarkMessagesDelivered(Ids(messages), now);
        outcome := Success(());
      } else if request.action == RegisterAction {
        db.RegisterClient(uuid, now);
        if !writeOk {
          return [], Failure(WriteFailed);
        }
        output, outcome := ResponseFrame(codec, ServerResponse("ok", Some(JStr(RegisteredText(uuid))))), Success(());
      } else {
        if !writeOk {
          return [], Failure(WriteFailed);
        }
        output, outcome := ResponseFrame(codec, ServerResponse("error", Some(JStr(UnknownActionText(request.action))))), Success(());
      }
    }

    method CreateDonateMessage(donate: Donate, uuid: string, now: Time) returns (r: Result<(), StoreError>)
      requires db.Valid()
      modifies db
      ensures db.Valid()
      ensures (db.State(), r) == QueueDonate(old(db.State()), donate, uuid, now)
    {
      var id := db.CreateMessage(DonateMessage(donate, uuid, now), now);
      r := if id.Success? then Success(()) else Failure(id.error);
    }
  }
}
