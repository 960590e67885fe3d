/**
 * The message store (server/src/database.rs): the `clients`, `messages` and `donates`
 * tables as in-memory rows in rowid order, with AUTOINCREMENT counters.  Each operation is
 * a pure function from the old tables to the new ones (and its answer); class `Store`
 * holds the tables as fields and its methods are proved to perform exactly those updates.
 */
module Database {
  import opened Wrappers
  import opened Types
  import opened Seqs

  /** The largest rowid SQLite hands out; AUTOINCREMENT fails with SQLITE_FULL beyond it. */
  const MaxRowId: int := 0x7FFF_FFFF_FFFF_FFFF

  const PendingStatus: string := "pending"
  const DeliveredStatus: string := "delivered"
  const DonateKind: string := "donate"

  /** A row of the `donates` table. */
  datatype DonateRow = DonateRow(
    id: u64,
    messageId: u64,
    clientUuid: string,
    accountName: string,
    accountSteamId: string,
    whoName: string,
    whoSteamId: string,
    donateType: string,
    value: string,
    faction: string,
    date: Time,
    time: Time,
    createdAt: Time)

  /** The whole database: three tables and the two AUTOINCREMENT counters (next rowid). */
  datatype Tables = Tables(
    clients: seq<ClientConnection>,
    messages: seq<Message>,
    donates: seq<DonateRow>,
    nextMessageId: nat,
    nextDonateId: nat)

  datatype StoreError =
    | ClientNotFound
    | StoreFull
    | InvalidDonate
    | DuplicateClient   // the `clients` primary key refused a second row for a uuid

  const EmptyTables := Tables([], [], [], 1, 1)

  // ---------------------------------------------------------------------------
  // Table invariants
  // ---------------------------------------------------------------------------

  predicate HasClient(clients: seq<ClientConnection>, uuid: string) {
    exists i :: 0 <= i < |clients| && clients[i].uuid == uuid
  }

  /** `uuid` is the primary key of `clients`. */
  predicate UniqueUuids(clients: seq<ClientConnection>) {
    forall i, j :: 0 <= i < j < |clients| ==> clients[i].uuid != clients[j].uuid
  }

  function MessageKey(m: Message): int { m.id }
  function DonateKey(r: DonateRow): int { r.id }

  predicate MessageIdsBelow(ms: seq<Message>, bound: int) {
    forall i :: 0 <= i < |ms| ==> ms[i].id < bound
  }

  predicate DonateIdsBelow(rs: seq<DonateRow>, bound: int) {
    forall i :: 0 <= i < |rs| ==> rs[i].id < bound
  }

  /** Rowids are handed out in increasing order and never reused. */
  predicate Good(t: Tables) {
    && 1 <= t.nextMessageId <= MaxRowId + 1
    && 1 <= t.nextDonateId <= MaxRowId + 1
    && UniqueUuids(t.clients)
    && StrictlyAscending(t.messages, MessageKey)
    && MessageIdsBelow(t.messages, t.nextMessageId)
    && StrictlyAscending(t.donates, DonateKey)
    && DonateIdsBelow(t.donates, t.nextDonateId)
  }

  lemma EmptyIsGood()
    ensures Good(EmptyTables)
  {
  }

  // ---------------------------------------------------------------------------
  // clients: register_client, proof_client, update_last_seen, get_clients
  // ---------------------------------------------------------------------------

  /** The INSERT statement of `register_client`: the `clients` table is keyed by uuid, so
      a known identity violates the primary key. */
  function InsertClient(t: Tables, uuid: string, now: Time): (r: Result<Tables, StoreError>)
    ensures r.Failure? <==> HasClient(t.clients, uuid)
    ensures r.Failure? ==> r.error == DuplicateClient
    ensures r.Success? ==> r.value == Register(t, uuid, now)
  {
    if HasClient(t.clients, uuid) then Failure(DuplicateClient)
    else Success(t.(clients := t.clients + [ClientConnection(uuid, uuid, now, now)]))
  }

  /** Registration: a new identity gets its row, a known one is left as it is.  This is
      what `register_client` amounts to, since it only logs a failed INSERT and returns
      `Ok(())` either way. */
  function Register(t: Tables, uuid: string, now: Time): Tables {
    if HasClient(t.clients, uuid) then t
    else t.(clients := t.clients + [ClientConnection(uuid, uuid, now, now)])
  }

  /** `register_client`: run the INSERT and drop its error, so the tables are those of
      `Register` and the caller never sees a failure. */
  function RegisterClientTables(t: Tables, uuid: string, now: Time): (t': Tables)
    ensures t' == Register(t, uuid, now)
    ensures HasClient(t.clients, uuid) ==> t' == t
  {
    match InsertClient(t, uuid, now)
    case Failure(_) => t
    case Success(inserted) => inserted
  }

  /** A new identity gets a row named after itself, registered and seen now; a known
      identity's row is left exactly as it was; no other table moves. */
  lemma RegisterEffect(t: Tables, uuid: string, now: Time)
    ensures var t' := Register(t, uuid, now);
      && HasClient(t'.clients, uuid)
      && t'.messages == t.messages && t'.donates == t.donates
      && (HasClient(t.clients, uuid) ==> t' == t)
      && (!HasClient(t.clients, uuid) ==>
            t'.clients == t.clients + [ClientConnection(uuid, uuid, now, now)])
  {
    if !HasClient(t.clients, uuid) {
      var t' := Register(t, uuid, now);
      assert t'.clients[|t.clients|].uuid == uuid;
    }
  }

  /** Registering is idempotent: a second registration, at any time, changes nothing. */
  lemma RegisterIdempotent(t: Tables, uuid: string, now: Time, later: Time)
    ensures Register(Register(t, uuid, now), uuid, later) == Register(t, uuid, now)
  {
    RegisterEffect(t, uuid, now);
  }

  lemma RegisterKeepsGood(t: Tables, uuid: string, now: Time)
    requires Good(t)
    ensures Good(Register(t, uuid, now))
  {
  }

  /** `update_last_seen`: UPDATE clients SET last_seen WHERE uuid. */
  function TouchClient(clients: seq<ClientConnection>, uuid: string, now: Time): seq<ClientConnection> {
    seq(|clients|, i requires 0 <= i < |clients| =>
      if clients[i].uuid == uuid then clients[i].(lastSeen := now) else clients[i])
  }

  /** Only `last_seen` of the matching row changes; the set of identities is the same. */
  lemma TouchClientEffect(clients: seq<ClientConnection>, uuid: string, now: Time)
    ensures var c' := TouchClient(clients, uuid, now);
      && |c'| == |clients|
      && (forall i :: 0 <= i < |clients| ==>
            && c'[i].uuid == clients[i].uuid
            && c'[i].serverName == clients[i].serverName
            && c'[i].registeredAt == clients[i].registeredAt
            && c'[i].lastSeen == (if clients[i].uuid == uuid then now else clients[i].lastSeen))
      && (UniqueUuids(clients) ==> UniqueUuids(c'))
      && (HasClient(c', uuid) <==> HasClient(clients, uuid))
  {
    var c' := TouchClient(clients, uuid, now);
    if HasClient(clients, uuid) {
      var i :| 0 <= i < |clients| && clients[i].uuid == uuid;
      assert c'[i].uuid == uuid;
    }
  }

  // ---------------------------------------------------------------------------
  // messages: create_message, get_pending_messages, mark_messages_delivered
  // ---------------------------------------------------------------------------

  predicate IsPendingFor(m: Message, uuid: string) {
    m.clientUuid == uuid && m.status == PendingStatus
  }

  /** `get_pending_messages`: SELECT ... WHERE client_uuid = ? AND status = 'pending'. */
  function PendingFor(ms: seq<Message>, uuid: string): seq<Message> {
    Filter(ms, (m: Message) => IsPendingFor(m, uuid))
  }

  /** Exactly the pending messages for `uuid`, each once, in table order; so, in a good
      table, in ascending id order. */
  lemma PendingForExact(ms: seq<Message>, uuid: string)
    ensures forall m :: m in PendingFor(ms, uuid) <==> m in ms && IsPendingFor(m, uuid)
    ensures IsSubsequence(PendingFor(ms, uuid), ms)
    ensures StrictlyAscending(ms, MessageKey) ==> StrictlyAscending(PendingFor(ms, uuid), MessageKey)
  {
    var p := (m: Message) => IsPendingFor(m, uuid);
    FilterIsSubsequence(ms, p);
    if StrictlyAscending(ms, MessageKey) {
      FilterAscending(ms, p, MessageKey);
    }
    forall m | m in ms && IsPendingFor(m, uuid) ensures m in PendingFor(ms, uuid) {
      var i :| 0 <= i < |ms| && ms[i] == m;
    }
  }

  function Ids(ms: seq<Message>): seq<u64> {
    seq(|ms|, i requires 0 <= i < |ms| => ms[i].id)
  }

  function MarkedDelivered(m: Message, now: Time): Message {
    m.(status := DeliveredStatus, deliveredAt := Some(now))
  }

  /** `mark_messages_delivered`: every listed id gets status 'delivered' and the one
      shared timestamp. */
  function MarkDelivered(ms: seq<Message>, ids: seq<u64>, now: Time): seq<Message> {
    seq(|ms|, k requires 0 <= k < |ms| => if ms[k].id in ids then MarkedDelivered(ms[k], now) else ms[k])
  }

  /** One `UPDATE messages SET status = 'delivered', delivered_at = ? WHERE id = ?`. */
  function MarkOne(ms: seq<Message>, id: u64, now: Time): seq<Message> {
    seq(|ms|, k requires 0 <= k < |ms| => if ms[k].id == id then MarkedDelivered(ms[k], now) else ms[k])
  }

  /** The per-id UPDATEs, one after another, add up to the batch update. */
  lemma MarkStep(ms: seq<Message>, ids: seq<u64>, i: nat, now: Time)
    requires i < |ids|
    ensures MarkOne(MarkDelivered(ms, ids[..i], now), ids[i], now) == MarkDelivered(ms, ids[..i + 1], now)
  {
    assert ids[..i + 1] == ids[..i] + [ids[i]];
  }

  /** No id listed: nothing changes.  Otherwise listed ids are delivered at `now` with
      everything else about them kept, and unlisted messages are untouched. */
  lemma MarkDeliveredEffect(ms: seq<Message>, ids: seq<u64>, now: Time)
    ensures ids == [] ==> MarkDelivered(ms, ids, now) == ms
    ensures var ms' := MarkDelivered(ms, ids, now);
      && |ms'| == |ms|
      && Ids(ms') == Ids(ms)
      && forall k :: 0 <= k < |ms| ==>
           if ms[k].id in ids
           then ms'[k].status == DeliveredStatus && ms'[k].deliveredAt == Some(now)
                && ms'[k] == ms[k].(status := DeliveredStatus, deliveredAt := Some(now))
           else ms'[k] == ms[k]
  {
  }

  /** Nothing ever goes back from 'delivered' to another status. */
  predicate NeverReverts(before: seq<Message>, after: seq<Message>) {
    forall i, j ::
      (0 <= i < |before| && 0 <= j < |after| && before[i].id == after[j].id
       && before[i].status == DeliveredStatus) ==> after[j].status == DeliveredStatus
  }

  lemma MarkNeverReverts(ms: seq<Message>, ids: seq<u64>, now: Time)
    requires StrictlyAscending(ms, MessageKey)
    ensures NeverReverts(ms, MarkDelivered(ms, ids, now))
  {
    var ms' := MarkDelivered(ms, ids, now);
    forall i, j | 0 <= i < |ms| && 0 <= j < |ms'| && ms[i].id == ms'[j].id && ms[i].status == DeliveredStatus
      ensures ms'[j].status == DeliveredStatus
    {
      assert MessageKey(ms[i]) == MessageKey(ms[j]);
    }
  }

  /** UPDATE messages SET message_data = ? WHERE id = ?. */
  function SetPayload(ms: seq<Message>, id: u64, data: Json): seq<Message> {
    seq(|ms|, k requires 0 <= k < |ms| => if ms[k].id == id then ms[k].(messageData := data) else ms[k])
  }

  /** `obj.insert("id", donate_id)` on an object payload; any other payload is kept. */
  function PatchId(data: Json, donateId: u64): Json {
    if data.JObj? then JObj(data.fields["id" := JNum(donateId)]) else data
  }

  function DonateRowOf(id: u64, d: Donate, messageId: u64, clientUuid: string, now: Time): DonateRow {
    DonateRow(id, messageId, clientUuid, d.account.name, d.account.steamId, d.who.name, d.who.steamId,
              d.donateType, d.value, d.faction, d.date, d.time, now)
  }

  /** The row `create_message` inserts: the caller's id and delivery time are not stored. */
  function StoredMessage(id: u64, m: Message): Message {
    Message(id, m.clientUuid, m.messageType, m.messageData, m.createdAt, None, m.status)
  }

  /** `create_donate`: INSERT INTO donates; the donate's own id and owner are ignored. */
  function InsertDonate(t: Tables, d: Donate, messageId: u64, clientUuid: string, now: Time): (Tables, Result<u64, StoreError>) {
    if t.nextDonateId > MaxRowId then (t, Failure(StoreFull))
    else
      var id: u64 := t.nextDonateId;
      (t.(donates := t.donates + [DonateRowOf(id, d, messageId, clientUuid, now)], nextDonateId := id + 1),
       Success(id))
  }

  /**
   * `create_message`: insert the message; for kind "donate", decode the payload as a
   * Donate, insert the linked donate row and patch its id into the stored payload.  The
   * three steps are separate statements: a failure after the first leaves the message in
   * place, un-patched.
   */
  function InsertMessage(t: Tables, m: Message, now: Time): (Tables, Result<u64, StoreError>) {
    if t.nextMessageId > MaxRowId then (t, Failure(StoreFull))
    else
      var id: u64 := t.nextMessageId;
      var t1 := t.(messages := t.messages + [StoredMessage(id, m)], nextMessageId := id + 1);
      if m.messageType != DonateKind then (t1, Success(id))
      else match DonateFromJson(m.messageData)
        case None => (t1, Failure(InvalidDonate))
        case Some(d) =>
          var (t2, r) := InsertDonate(t1, d, id, m.clientUuid, now);
          if r.Failure? then (t2, Failure(r.error))
          else (t2.(messages := SetPayload(t2.messages, id, PatchId(m.messageData, r.value))), Success(id))
  }

  /** A message of any other kind is stored as it is when there is room; only the
      messages and their counter change. */
  lemma InsertPlainMessage(t: Tables, m: Message, now: Time)
    requires m.messageType != DonateKind
    ensures var (t', r) := InsertMessage(t, m, now);
      && t'.donates == t.donates && t'.clients == t.clients
      && (r.Success? <==> t.nextMessageId <= MaxRowId)
      && t'.messages == if t.nextMessageId <= MaxRowId then t.messages + [StoredMessage(t.nextMessageId, m)] else t.messages
  {
  }

  /** A new message gets an id above every id in the table and is stored with the given
      destination, kind, creation time and status, undelivered.  Other kinds touch nothing
      else; a payload is stored unchanged unless the kind is "donate". */
  lemma CreateMessageFresh(t: Tables, m: Message, now: Time)
    requires Good(t)
    ensures var (t', r) := InsertMessage(t, m, now);
      r.Success? ==>
        && |t'.messages| == |t.messages| + 1
        && t'.messages[..|t.messages|] == t.messages
        && (forall i :: 0 <= i < |t.messages| ==> t.messages[i].id < r.value)
        && var row := t'.messages[|t.messages|];
           && row.id == r.value && row.clientUuid == m.clientUuid && row.messageType == m.messageType
           && row.createdAt == m.createdAt && row.status == m.status && row.deliveredAt.None?
           && (m.messageType != DonateKind ==> row.messageData == m.messageData && t'.donates == t.donates)
  {
    var (t', r) := InsertMessage(t, m, now);
    if r.Success? && m.messageType == DonateKind {
      var t1 := t.(messages := t.messages + [StoredMessage(r.value, m)], nextMessageId := r.value + 1);
      assert t'.messages == SetPayload(t1.messages, r.value, t'.messages[|t.messages|].messageData);
      assert t'.messages[..|t.messages|] == t.messages;
    }
  }

  /** A "donate" message whose payload decodes gets a linked donate row with a fresh id.
      A payload in object form gets that id written into its "id" field; one in array
      form is stored as it came.  A payload
      that does not decode is stored as it came, with no donate row, and the call fails. */
  lemma CreateDonateMessageLinks(t: Tables, m: Message, now: Time)
    requires Good(t) && m.messageType == DonateKind
    requires t.nextMessageId <= MaxRowId
    ensures var (t', r) := InsertMessage(t, m, now);
      && (DonateFromJson(m.messageData).None? ==>
            r == Failure(InvalidDonate) && t'.donates == t.donates
            && t'.messages == t.messages + [StoredMessage(t.nextMessageId, m)])
      && (r.Success? ==>
            var d := DonateFromJson(m.messageData).value;
            && |t'.donates| == |t.donates| + 1
            && t'.donates[..|t.donates|] == t.donates
            && var row := t'.donates[|t.donates|];
               && row == DonateRowOf(t.nextDonateId, d, r.value, m.clientUuid, now)
               && (forall i :: 0 <= i < |t.donates| ==> t.donates[i].id < row.id)
               && (m.messageData.JObj? || m.messageData.JArr?)
               && (m.messageData.JObj? ==>
                     t'.messages[|t.messages|].messageData == JObj(m.messageData.fields["id" := JNum(row.id)]))
               && (m.messageData.JArr? ==> t'.messages[|t.messages|].messageData == m.messageData))
  {
    var (t', r) := InsertMessage(t, m, now);
    if r.Success? {
      assert t'.donates[..|t.donates|] == t.donates;
    }
  }

  lemma CreateMessageKeepsGood(t: Tables, m: Message, now: Time)
    requires Good(t)
    ensures Good(InsertMessage(t, m, now).0)
  {
    var (t', r) := InsertMessage(t, m, now);
    if t.nextMessageId <= MaxRowId {
      var id := t.nextMessageId;
      var ms1 := t.messages + [StoredMessage(id, m)];
      assert StrictlyAscending(ms1, MessageKey) by {
        forall i, j | 0 <= i < j < |ms1| ensures MessageKey(ms1[i]) < MessageKey(ms1[j]) {
          if j == |t.messages| {
            assert ms1[i] == t.messages[i];
          } else {
            assert ms1[i] == t.messages[i] && ms1[j] == t.messages[j];
          }
        }
      }
      if m.messageType == DonateKind && DonateFromJson(m.messageData).Some? && t.nextDonateId <= MaxRowId {
        var did := t.nextDonateId;
        var ds := t.donates + [DonateRowOf(did, DonateFromJson(m.messageData).value, id, m.clientUuid, now)];
        assert StrictlyAscending(ds, DonateKey) by {
          forall i, j | 0 <= i < j < |ds| ensures DonateKey(ds[i]) < DonateKey(ds[j]) {
            if j == |t.donates| {
              assert ds[i] == t.donates[i];
            } else {
              assert ds[i] == t.donates[i] && ds[j] == t.donates[j];
            }
          }
        }
        var ms2 := SetPayload(ms1, id, PatchId(m.messageData, did));
        assert forall k :: 0 <= k < |ms1| ==> ms2[k].id == ms1[k].id;
        assert t'.messages == ms2;
      }
    }
  }

  // ---------------------------------------------------------------------------
  // donates: get_donates, get_donate_by_id, delete_donate, update_donate
  // ---------------------------------------------------------------------------

  /** A row as `get_donates` / `get_donate_by_id` read it back. */
  function RowToDonate(r: DonateRow): Donate {
    Donate(Some(r.id), Some(r.clientUuid), Player(r.accountName, r.accountSteamId), r.date,
           r.faction, r.time, r.donateType, r.value, Player(r.whoName, r.whoSteamId))
  }

  function RowsToDonates(rows: seq<DonateRow>): seq<Donate> {
    seq(|rows|, i requires 0 <= i < |rows| => RowToDonate(rows[i]))
  }

  /** `get_donate_by_id`: the first row with that id, read back with its owner. */
  function DonateById(rows: seq<DonateRow>, id: u64): Option<(Donate, string)> {
    if rows == [] then None
    else if rows[0].id == id then Some((RowToDonate(rows[0]), rows[0].clientUuid))
    else DonateById(rows[1..], id)
  }

  predicate HasDonate(rows: seq<DonateRow>, id: u64) {
    exists k :: 0 <= k < |rows| && rows[k].id == id
  }

  /** Found iff some row has the id, and then it is that row, with its owner. */
  lemma {:induction false} DonateByIdExact(rows: seq<DonateRow>, id: u64)
    requires StrictlyAscending(rows, DonateKey)
    ensures DonateById(rows, id).Some? <==> HasDonate(rows, id)
    ensures forall k :: 0 <= k < |rows| && rows[k].id == id ==>
      DonateById(rows, id) == Some((RowToDonate(rows[k]), rows[k].clientUuid))
  {
    if rows != [] {
      var tail := rows[1..];
      assert StrictlyAscending(tail, DonateKey) by {
        forall i, j | 0 <= i < j < |tail| ensures DonateKey(tail[i]) < DonateKey(tail[j]) {
          assert tail[i] == rows[i + 1] && tail[j] == rows[j + 1];
        }
      }
      DonateByIdExact(tail, id);
      if rows[0].id == id {
        forall k | 0 < k < |rows| ensures rows[k].id != id {
          assert DonateKey(rows[0]) < DonateKey(rows[k]);
        }
      } else {
        forall k | 0 <= k < |rows| && rows[k].id == id ensures
          DonateById(rows, id) == Some((RowToDonate(rows[k]), rows[k].clientUuid))
        {
          assert tail[k - 1] == rows[k];
        }
        if HasDonate(rows, id) {
          var k :| 0 <= k < |rows| && rows[k].id == id;
          assert tail[k - 1].id == id;
        }
      }
    }
  }

  /** `delete_donate`: look the row up; if it is there, DELETE it. */
  function RemoveDonate(t: Tables, id: u64): (Tables, Option<(Donate, string)>) {
    var found := DonateById(t.donates, id);
    if found.None? then (t, None)
    else (t.(donates := Filter(t.donates, (r: DonateRow) => r.id != id)), found)
  }

  /** An absent id changes nothing; a present one is answered with the row and its owner
      and exactly the rows with that id go; the messages are not touched. */
  lemma DeleteDonateEffect(t: Tables, id: u64)
    requires Good(t)
    ensures var (t', found) := RemoveDonate(t, id);
      && (!HasDonate(t.donates, id) ==> found.None? && t' == t)
      && (HasDonate(t.donates, id) ==>
            && (exists k :: 0 <= k < |t.donates| && t.donates[k].id == id
                 && found == Some((RowToDonate(t.donates[k]), t.donates[k].clientUuid)))
            && t'.messages == t.messages && t'.clients == t.clients
            && !HasDonate(t'.donates, id)
            && (forall r :: r in t'.donates <==> r in t.donates && r.id != id))
  {
    DonateByIdExact(t.donates, id);
    var (t', found) := RemoveDonate(t, id);
    if HasDonate(t.donates, id) {
      var k :| 0 <= k < |t.donates| && t.donates[k].id == id;
      FilterMembers(t.donates, (r: DonateRow) => r.id != id);
    }
  }

  /** The nine content columns `update_donate` sets. */
  function WithContent(r: DonateRow, d: Donate): DonateRow {
    r.(accountName := d.account.name, accountSteamId := d.account.steamId,
       whoName := d.who.name, whoSteamId := d.who.steamId, donateType := d.donateType,
       value := d.value, faction := d.faction, date := d.date, time := d.time)
  }

  /** `update_donate`: look the owner up, then UPDATE the content columns WHERE id (the
      UPDATE runs whether or not the row was found). */
  function ReviseDonate(t: Tables, id: u64, d: Donate): (Tables, Option<string>) {
    var owner := match DonateById(t.donates, id) case None => None case Some(p) => Some(p.1);
    (t.(donates := ReviseRows(t.donates, id, d)), owner)
  }

  /** UPDATE donates SET ... WHERE id = ?. */
  function ReviseRows(rows: seq<DonateRow>, id: u64, d: Donate): seq<DonateRow> {
    seq(|rows|, k requires 0 <= k < |rows| => if rows[k].id == id then WithContent(rows[k], d) else rows[k])
  }

  /** The owner is returned iff the row existed; that row gets the new content and keeps
      its id, message link, owner and creation time; nothing else changes. */
  lemma UpdateDonateEffect(t: Tables, id: u64, d: Donate)
    requires Good(t)
    ensures var (t', owner) := ReviseDonate(t, id, d);
      && (owner.Some? <==> HasDonate(t.donates, id))
      && (!HasDonate(t.donates, id) ==> t' == t)
      && t'.messages == t.messages && t'.clients == t.clients
      && |t'.donates| == |t.donates|
      && forall k :: 0 <= k < |t.donates| ==>
           var (r, r') := (t.donates[k], t'.donates[k]);
           && r'.id == r.id && r'.messageId == r.messageId
           && r'.clientUuid == r.clientUuid && r'.createdAt == r.createdAt
           && (r.id == id ==> owner == Some(r.clientUuid) && r' == WithContent(r, d))
           && (r.id != id ==> r' == r)
  {
    DonateByIdExact(t.donates, id);
    var (t', owner) := ReviseDonate(t, id, d);
    if !HasDonate(t.donates, id) {
      assert t'.donates == t.donates;
    }
  }

  lemma RemoveKeepsGood(t: Tables, id: u64)
    requires Good(t)
    ensures Good(RemoveDonate(t, id).0)
  {
    FilterAscending(t.donates, (r: DonateRow) => r.id != id, DonateKey);
  }

  lemma ReviseKeepsGood(t: Tables, id: u64, d: Donate)
    requires Good(t)
    ensures Good(ReviseDonate(t, id, d).0)
  {
    var t' := ReviseDonate(t, id, d).0;
    assert forall k :: 0 <= k < |t.donates| ==> t'.donates[k].id == t.donates[k].id;
  }

  // ---------------------------------------------------------------------------
  // clear_delivered_messages
  // ---------------------------------------------------------------------------

  /** status = 'delivered' AND delivered_at < cutoff (a NULL delivered_at never matches). */
  predicate Expired(m: Message, cutoff: Time) {
    m.status == DeliveredStatus && m.deliveredAt.Some? && m.deliveredAt.value < cutoff
  }

  function ExpiredIds(ms: seq<Message>, cutoff: Time): set<u64> {
    set m | m in ms && Expired(m, cutoff) :: m.id
  }

  /** The two DELETEs: first the donates linked to expired messages, then those messages. */
  function ClearDelivered(t: Tables, cutoff: Time): Tables {
    var gone := ExpiredIds(t.messages, cutoff);
    t.(donates := Filter(t.donates, (r: DonateRow) => r.messageId !in gone),
       messages := Filter(t.messages, (m: Message) => !Expired(m, cutoff)))
  }

  /** Exactly the expired messages go, with the donate rows linked to them; in particular
      every agent's pending messages are kept as they were. */
  lemma ClearDeliveredEffect(t: Tables, cutoff: Time)
    ensures var t' := ClearDelivered(t, cutoff);
      && t'.clients == t.clients
      && (forall m :: m in t'.messages <==> m in t.messages && !Expired(m, cutoff))
      && (forall r :: r in t'.donates <==>
            r in t.donates && !(exists m :: m in t.messages && Expired(m, cutoff) && m.id == r.messageId))
      && (forall uuid :: PendingFor(t'.messages, uuid) == PendingFor(t.messages, uuid))
  {
    var t' := ClearDelivered(t, cutoff);
    var keep := (m: Message) => !Expired(m, cutoff);
    var gone := ExpiredIds(t.messages, cutoff);
    forall m | m in t.messages && !Expired(m, cutoff) ensures m in t'.messages {
      var i :| 0 <= i < |t.messages| && t.messages[i] == m;
    }
    forall m | m in t'.messages ensures m in t.messages && !Expired(m, cutoff) {
      var i :| 0 <= i < |t'.messages| && t'.messages[i] == m;
    }
    forall r | r in t.donates && r.messageId !in gone ensures r in t'.donates {
      var i :| 0 <= i < |t.donates| && t.donates[i] == r;
    }
    forall r | r in t'.donates ensures r in t.donates && r.messageId !in gone {
      var i :| 0 <= i < |t'.donates| && t'.donates[i] == r;
    }
    forall uuid ensures PendingFor(t'.messages, uuid) == PendingFor(t.messages, uuid) {
      ClearKeepsPending(t.messages, cutoff, uuid);
    }
  }

  lemma {:induction false} ClearKeepsPending(ms: seq<Message>, cutoff: Time, uuid: string)
    ensures PendingFor(Filter(ms, (m: Message) => !Expired(m, cutoff)), uuid) == PendingFor(ms, uuid)
  {
    if ms != [] {
      var keep := (m: Message) => !Expired(m, cutoff);
      var init, last := ms[..|ms| - 1], ms[|ms| - 1];
      ClearKeepsPending(init, cutoff, uuid);
      var kept := Filter(init, keep);
      if keep(last) {
        assert Filter(ms, keep) == kept + [last];
        assert (kept + [last])[..|kept|] == kept;
      } else {
        assert Filter(ms, keep) == kept;
      }
    }
  }

  lemma ClearKeepsGood(t: Tables, cutoff: Time)
    requires Good(t)
    ensures Good(ClearDelivered(t, cutoff))
  {
    var t' := ClearDelivered(t, cutoff);
    FilterAscending(t.messages, (m: Message) => !Expired(m, cutoff), MessageKey);
    FilterAscending(t.donates, (r: DonateRow) => r.messageId !in ExpiredIds(t.messages, cutoff), DonateKey);
    forall i | 0 <= i < |t'.messages| ensures t'.messages[i].id < t'.nextMessageId {
      assert t'.messages[i] in t.messages;
    }
    forall i | 0 <= i < |t'.donates| ensures t'.donates[i].id < t'.nextDonateId {
      assert t'.donates[i] in t.donates;
    }
  }

  // ---------------------------------------------------------------------------
  // The store object
  // ---------------------------------------------------------------------------

  class Store {
    var clients: seq<ClientConnection>
    var messages: seq<Message>
    var donates: seq<DonateRow>
    var nextMessageId: nat
    var nextDonateId: nat

    function State(): Tables
      reads this
    {
      Tables(clients, messages, donates, nextMessageId, nextDonateId)
    }

    predicate Valid()
      reads this
    {
      Good(State())
    }

    /** A freshly initialised, empty database. */
    constructor ()
      ensures Valid() && State() == EmptyTables
    {
      clients, messages, donates := [], [], [];
      nextMessageId, nextDonateId := 1, 1;
    }

    method SetState(t: Tables)
      modifies this
      ensures State() == t
    {
      clients, messages, donates := t.clients, t.messages, t.donates;
      nextMessageId, nextDonateId := t.nextMessageId, t.nextDonateId;
    }

    method RegisterClient(uuid: string, now: Time)
      requires Valid()
      modifies this
      ensures Valid() && State() == Register(old(State()), uuid, now)
    {
      RegisterKeepsGood(State(), uuid, now);
      match InsertClient(State(), uuid, now)
      case Failure(_) =>
        // logged ("Maybe he already registered?") and dropped
      case Success(inserted) =>
        clients := inserted.clients;
    }

    /** `proof_client`: COUNT(*) of the rows with that uuid; zero is "Client not found". */
    method ProofClient(uuid: string) returns (r: Result<(), StoreError>)
      ensures r.Success? <==> HasClient(clients, uuid)
      ensures r.Failure? ==> r.error == ClientNotFound
    {
      var count := 0;
      var i := 0;
      while i < |clients|
        invariant 0 <= i <= |clients|
        invariant count == 0 <==> !HasClient(clients[..i], uuid)
      {
        if clients[i].uuid == uuid {
          count := count + 1;
        }
        assert clients[..i + 1][..i] == clients[..i];
        i := i + 1;
      }
      assert clients[..i] == clients;
      r := if count == 0 then Failure(ClientNotFound) else Success(());
    }

    method UpdateLastSeen(uuid: string, now: Time)
      requires Valid()
      modifies this
      ensures Valid()
      ensures State() == old(State()).(clients := TouchClient(old(clients), uuid, now))
    {
      TouchClientEffect(clients, uuid, now);
      clients := TouchClient(clients, uuid, now);
    }

    method GetClients() returns (r: seq<ClientConnection>)
      requires Valid()
      ensures r == clients && UniqueUuids(r)
    {
      r := clients;
    }

    /** `get_pending_messages`: one pass over the rows in table order. */
    method GetPendingMessages(uuid: string) returns (r: seq<Message>)
      ensures r == PendingFor(messages, uuid)
    {
      r := [];
      var i := 0;
      while i < |messages|
        invariant 0 <= i <= |messages|
        invariant r == PendingFor(messages[..i], uuid)
      {
        assert messages[..i + 1][..i] == messages[..i];
        if IsPendingFor(messages[i], uuid) {
          r := r + [messages[i]];
        }
        i := i + 1;
      }
      assert messages[..i] == messages;
    }

    /** `mark_messages_delivered`: one UPDATE per listed id, all with the same timestamp. */
    method MarkMessagesDelivered(ids: seq<u64>, now: Time)
      requires Valid()
      modifies this
      ensures Valid()
      ensures State() == old(State()).(messages := MarkDelivered(old(messages), ids, now))
    {
      MarkDeliveredEffect(messages, ids, now);
      if ids == [] {
        return;
      }
      ghost var original := messages;
      for i := 0 to |ids|
        invariant messages == MarkDelivered(original, ids[..i], now)
        invariant clients == old(clients) && donates == old(donates)
        invariant nextMessageId == old(nextMessageId) && nextDonateId == old(nextDonateId)
      {
        MarkStep(original, ids, i, now);
        messages := MarkOne(messages, ids[i], now);
      }
      assert ids[..|ids|] == ids;
      MarkDeliveredEffect(original, ids, now);
      assert forall k :: 0 <= k < |original| ==> messages[k].id == original[k].id;
    }

    method CreateDonate(d: Donate, messageId: u64, clientUuid: string, now: Time)
      returns (r: Result<u64, StoreError>)
      modifies this
      ensures (State(), r) == InsertDonate(old(State()), d, messageId, clientUuid, now)
    {
      if nextDonateId > MaxRowId {
        return Failure(StoreFull);
      }
      var id: u64 := nextDonateId;
      donates := donates + [DonateRowOf(id, d, messageId, clientUuid, now)];
      nextDonateId := id + 1;
      r := Success(id);
    }

    /** `create_message`: insert, then for kind "donate" insert the linked row and patch. */
    method CreateMessage(m: Message, now: Time) returns (r: Result<u64, StoreError>)
      requires Valid()
      modifies this
      ensures Valid()
      ensures (State(), r) == InsertMessage(old(State()), m, now)
    {
      CreateMessageKeepsGood(State(), m, now);
      if nextMessageId > MaxRowId {
        return Failure(StoreFull);
      }
      var id: u64 := nextMessageId;
      messages := messages + [StoredMessage(id, m)];
      nextMessageId := id + 1;
      if m.messageType == DonateKind {
        var decoded := DonateFromJson(m.messageData);
        if decoded.None? {
          return Failure(InvalidDonate);
        }
        var donateId := CreateDonate(decoded.value, id, m.clientUuid, now);
        if donateId.Failure? {
          return Failure(donateId.error);
        }
        messages := SetPayload(messages, id, PatchId(m.messageData, donateId.value));
      }
      r := Success(id);
    }

    /** `get_donates`: every row, read back as a Donate, in table order. */
    method GetDonates() returns (r: seq<Donate>)
      ensures r == RowsToDonates(donates)
    {
      r := [];
      for i := 0 to |donates|
        invariant r == RowsToDonates(donates[..i])
      {
        r := r + [RowToDonate(donates[i])];
      }
      assert donates[..|donates|] == donates;
    }

    /** `get_donate_by_id`: the first row carrying the id. */
    method GetDonateById(id: u64) returns (r: Option<(Donate, string)>)
      ensures r == DonateById(donates, id)
    {
      var i := 0;
      while i < |donates|
        invariant 0 <= i <= |donates|
        invariant DonateById(donates[i..], id) == DonateById(donates, id)
      {
        if donates[i].id == id {
          return Some((RowToDonate(donates[i]), donates[i].clientUuid));
        }
        assert donates[i..][1..] == donates[i + 1..];
        i := i + 1;
      }
      r := None;
    }

    method DeleteDonate(id: u64) returns (r: Option<(Donate, string)>)
      requires Valid()
      modifies this
      ensures Valid()
      ensures (State(), r) == RemoveDonate(old(State()), id)
    {
      RemoveKeepsGood(State(), id);
      r := GetDonateById(id);
      if r.Some? {
        donates := Filter(donates, (row: DonateRow) => row.id != id);
      }
    }

    method UpdateDonate(id: u64, d: Donate) returns (owner: Option<string>)
      requires Valid()
      modifies this
      ensures Valid()
      ensures (State(), owner) == ReviseDonate(old(State()), id, d)
    {
      ReviseKeepsGood(State(), id, d);
      var found := GetDonateById(id);
      owner := match found case None => None case Some(p) => Some(p.1);
      donates := ReviseRows(donates, id, d);
    }

    /** `clear_delivered_messages`: the cutoff is the current time. */
    method ClearDeliveredMessages(now: Time)
      requires Valid()
      modifies this
      ensures Valid()
      ensures State() == ClearDelivered(old(State()), now)
    {
      ClearKeepsGood(State(), now);
      var gone := ExpiredIds(messages, now);
      donates := Filter(donates, (r: DonateRow) => r.messageId !in gone);
      messages := Filter(messages, (m: Message) => !Expired(m, now));
    }
  }
}
