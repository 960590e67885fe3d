/**
 * The HTTP gateway's donate and message handlers (server/src/rest_handlers.rs): each one
 * turns a request into store operations, queues a notification for the affected agent,
 * and maps the store's answer onto a JSON body or a status code.
 */
module RestHandlers {
  import opened Wrappers
  import opened Types
  import opened Text
  import opened Database
  import Server

  const NotFound: int := 404
  const InternalServerError: int := 500

  const DeletedKind: string := "donate_deleted"
  const UpdatedKind: string := "donate_updated"

  /** A handler's answer: a `CreateResponse` body, or a bare status code. */
  datatype HttpReply = Body(response: CreateResponse) | Status(code: int)

  /** The `Display` text of a store error. */
  function ErrorText(e: StoreError): string {
    match e
    case ClientNotFound => "Client not found"
    case StoreFull => "database or disk is full"
    case InvalidDonate => "invalid type: message data is not a donate"
    case DuplicateClient => "UNIQUE constraint failed: clients.uuid"
  }

  // ---------------------------------------------------------------------------
  // Answers
  // ---------------------------------------------------------------------------

  function CreateAnswer(r: Result<u64, StoreError>): (answer: CreateResponse)
    ensures answer.status == "ok" <==> r.Success?
    ensures r.Failure? ==> answer.status == "error"
  {
    match r
    case Success(id) => CreateResponse("ok", "Donate created successfully with message_id: " + DecimalString(id))
    case Failure(e) => CreateResponse("error", "Error creating donate: " + ErrorText(e))
  }

  /** `Ok(Some(_))` is a 200 body with `okText`, `Ok(None)` is 404, `Err(_)` is 500. */
  function LookupAnswer<T>(r: Result<Option<T>, StoreError>, okText: string): (reply: HttpReply)
    ensures reply.Body? <==> r.Success? && r.value.Some?
    ensures reply.Body? ==> reply.response == CreateResponse("ok", okText)
    ensures r.Success? && r.value.None? ==> reply == Status(NotFound)
    ensures r.Failure? ==> reply == Status(InternalServerError)
  {
    match r
    case Failure(_) => Status(InternalServerError)
    case Success(None) => Status(NotFound)
    case Success(Some(_)) => Body(CreateResponse("ok", okText))
  }

  function DeletedText(id: u64): string {
    "Donate " + DecimalString(id) + " deleted successfully"
  }

  function UpdatedText(id: u64): string {
    "Donate " + DecimalString(id) + " updated successfully"
  }

  // ---------------------------------------------------------------------------
  // Notifications
  // ---------------------------------------------------------------------------

  /** `json!({"donate_id": id, "donate": donate})`. */
  function NoticePayload(id: u64, donate: Donate): Json {
    JObj(map["donate_id" := JNum(id), "donate" := DonateToJson(donate)])
  }

  /** A pending notification of `kind` for `owner`. */
  function Notice(kind: string, owner: string, payload: Json, now: Time): Message {
    Message(0, owner, kind, payload, now, None, PendingStatus)
  }

  // ---------------------------------------------------------------------------
  // Handlers, as functions of the store
  // ---------------------------------------------------------------------------

  /** `create_donate`: queue a "donate" message for the request's agent. */
  function CreateOutcome(t: Tables, request: CreateRequest, now: Time): (Tables, CreateResponse) {
    var (t', r) := InsertMessage(t, Server.DonateMessage(request.donate, request.clientUuid, now), now);
    (t', CreateAnswer(r))
  }

  /** `delete_donate`: delete; on success tell the former owner, whether or not queuing the
      notice works. */
  function DeleteOutcome(t: Tables, id: u64, now: Time): (Tables, HttpReply) {
    var (t1, found) := RemoveDonate(t, id);
    match found
    case None => (t1, LookupAnswer(Success(found), DeletedText(id)))
    case Some((donate, owner)) =>
      var (t2, _) := InsertMessage(t1, Notice(DeletedKind, owner, NoticePayload(id, donate), now), now);
      (t2, LookupAnswer(Success(found), DeletedText(id)))
  }

  /** `update_donate`: update; on success tell the owner, carrying the donate with its id
      set to the path id. */
  function UpdateOutcome(t: Tables, id: u64, donate: Donate, now: Time): (Tables, HttpReply) {
    var (t1, owner) := ReviseDonate(t, id, donate);
    match owner
    case None => (t1, LookupAnswer(Success(owner), UpdatedText(id)))
    case Some(uuid) =>
      var notice := Notice(UpdatedKind, uuid, NoticePayload(id, donate.(id := Some(id))), now);
      var (t2, _) := InsertMessage(t1, notice, now);
      (t2, LookupAnswer(Success(owner), UpdatedText(id)))
  }

  // ---------------------------------------------------------------------------
  // What the handlers promise
  // ---------------------------------------------------------------------------

  /** The body says "ok" exactly when the message could be queued, which it can unless the
      store is full; the queued message is a pending "donate" for the request's agent, not
      yet delivered, and the donate row it creates is owned by that agent. */
  lemma CreateQueuesDonate(t: Tables, request: CreateRequest, now: Time)
    requires Good(t)
    ensures var (t', answer) := CreateOutcome(t, request, now);
      && (answer.status == "ok" <==> t.nextMessageId <= MaxRowId && t.nextDonateId <= MaxRowId)
      && (answer.status == "ok" ==>
            && |t'.messages| == |t.messages| + 1
            && var m := t'.messages[|t.messages|];
               && m.messageType == DonateKind && m.status == PendingStatus && m.deliveredAt.None?
               && m.clientUuid == request.clientUuid
               && t'.donates == t.donates + [DonateRowOf(t.nextDonateId, request.donate, m.id, request.clientUuid, now)])
  {
    Server.CreateDonateMessageQueues(t, request.donate, request.clientUuid, now);
    CreateMessageFresh(t, Server.DonateMessage(request.donate, request.clientUuid, now), now);
  }

  /** A missing id is 404 and neither deletes nor queues anything. */
  lemma DeleteMissingIs404(t: Tables, id: u64, now: Time)
    requires Good(t)
    requires !HasDonate(t.donates, id)
    ensures DeleteOutcome(t, id, now) == (t, Status(NotFound))
  {
    DeleteDonateEffect(t, id);
  }

  /** A present id is answered "ok"; its row goes, and, unless the store is full, the former
      owner gets a pending "donate_deleted" notice carrying the id and the deleted donate.
      A full store still answers "ok". */
  lemma DeleteNotifiesOwner(t: Tables, id: u64, now: Time)
    requires Good(t)
    requires HasDonate(t.donates, id)
    ensures var (t', reply) := DeleteOutcome(t, id, now);
      && reply == Body(CreateResponse("ok", DeletedText(id)))
      && !HasDonate(t'.donates, id)
      && exists k :: 0 <= k < |t.donates| && t.donates[k].id == id
           && var notice := Notice(DeletedKind, t.donates[k].clientUuid, NoticePayload(id, RowToDonate(t.donates[k])), now);
           if t.nextMessageId <= MaxRowId
           then t'.messages == t.messages + [StoredMessage(t.nextMessageId, notice)]
           else t'.messages == t.messages
  {
    DeleteDonateEffect(t, id);
    var (t1, found) := RemoveDonate(t, id);
    var k :| 0 <= k < |t.donates| && t.donates[k].id == id
      && found == Some((RowToDonate(t.donates[k]), t.donates[k].clientUuid));
    InsertPlainMessage(t1, Notice(DeletedKind, t.donates[k].clientUuid, NoticePayload(id, RowToDonate(t.donates[k])), now), now);
  }

  /** A missing id is 404; no row changes and nothing is queued. */
  lemma UpdateMissingIs404(t: Tables, id: u64, donate: Donate, now: Time)
    requires Good(t)
    requires !HasDonate(t.donates, id)
    ensures UpdateOutcome(t, id, donate, now) == (t, Status(NotFound))
  {
    UpdateDonateEffect(t, id, donate);
  }

  /** A present id is answered "ok"; its row gets the new content, and, unless the store
      is full, its owner gets a pending "donate_updated" notice whose donate carries the
      path id. */
  lemma UpdateNotifiesOwner(t: Tables, id: u64, donate: Donate, now: Time)
    requires Good(t)
    requires HasDonate(t.donates, id)
    ensures var (t', reply) := UpdateOutcome(t, id, donate, now);
      && reply == Body(CreateResponse("ok", UpdatedText(id)))
      && exists k :: 0 <= k < |t.donates| && t.donates[k].id == id
           && t'.donates[k] == WithContent(t.donates[k], donate)
           && var notice := Notice(UpdatedKind, t.donates[k].clientUuid,
                                   NoticePayload(id, donate.(id := Some(id))), now);
              if t.nextMessageId <= MaxRowId
              then t'.messages == t.messages + [StoredMessage(t.nextMessageId, notice)]
              else t'.messages == t.messages
  {
    UpdateDonateEffect(t, id, donate);
    var k :| 0 <= k < |t.donates| && t.donates[k].id == id;
    var (t1, owner) := ReviseDonate(t, id, donate);
    InsertPlainMessage(t1, Notice(UpdatedKind, t.donates[k].clientUuid, NoticePayload(id, donate.(id := Some(id))), now), now);
  }

  // ---------------------------------------------------------------------------
  // Handlers over the store object
  // ---------------------------------------------------------------------------

  /** `get_clients`: every registered agent, one entry per identity. */
  method GetClients(db: Store) returns (r: seq<ClientConnection>)
    requires db.Valid()
    ensures r == db.clients && UniqueUuids(r)
  {
    r := db.GetClients();
  }

  /** `get_donates`: every donate row read back as a donate, in table order. */
  method GetDonates(db: Store) returns (r: seq<Donate>)
    ensures |r| == |db.donates|
    ensures forall i :: 0 <= i < |r| ==> r[i] == RowToDonate(db.donates[i])
  {
    r := db.GetDonates();
  }

  /** `get_messages`: the agent's pending messages; nothing is marked delivered. */
  method GetMessages(db: Store, uuid: string) returns (r: seq<Message>)
    ensures r == PendingFor(db.messages, uuid)
    ensures forall m :: m in r <==> m in db.messages && IsPendingFor(m, uuid)
  {
    r := db.GetPendingMessages(uuid);
    PendingForExact(db.messages, uuid);
  }

  method CreateDonate(db: Store, request: CreateRequest, now: Time) returns (answer: CreateResponse)
    requires db.Valid()
    modifies db
    ensures db.Valid()
    ensures (db.State(), answer) == CreateOutcome(old(db.State()), request, now)
  {
    var r := db.CreateMessage(Server.DonateMessage(request.donate, request.clientUuid, now), now);
    answer := CreateAnswer(r);
  }

  method DeleteDonate(db: Store, id: u64, now: Time) returns (reply: HttpReply)
    requires db.Valid()
    modifies db
    ensures db.Valid()
    ensures (db.State(), reply) == DeleteOutcome(old(db.State()), id, now)
  {
    var found := db.DeleteDonate(id);
    if found.Some? {
      var (donate, owner) := found.value;
      var _ := db.CreateMessage(Notice(DeletedKind, owner, NoticePayload(id, donate), now), now);
    }
    reply := LookupAnswer(Success(found), DeletedText(id));
  }

  method UpdateDonate(db: Store, id: u64, donate: Donate, now: Time) returns (reply: HttpReply)
    requires db.Valid()
    modifies db
    ensures db.Valid()
    ensures (db.State(), reply) == UpdateOutcome(old(db.State()), id, donate, now)
  {
    var owner := db.UpdateDonate(id, donate);
    if owner.Some? {
      var updated := donate;
      updated := updated.(id := Some(id));
      var _ := db.CreateMessage(Notice(UpdatedKind, owner.value, NoticePayload(id, updated), now), now);
    }
    reply := LookupAnswer(Success(owner), UpdatedText(id));
  }
}
