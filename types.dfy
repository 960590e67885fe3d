/**
 * The shared wire and storage records (shared/src/types.rs) and the JSON shape serde's
 * derived `Serialize`/`Deserialize` give each of them.  The JSON value itself is a
 * datatype; the JSON text it is printed as is not part of this module.
 */
module Types {
  import opened Wrappers

  const U64Limit: int := 0x1_0000_0000_0000_0000

  /** Rust's `u64`. */
  type u64 = x: int | 0 <= x < U64Limit

  /** A `DateTime<Utc>`, as an integer instant. */
  type Time = int

  /** `serde_json::Value`; objects are keyed maps, as serde_json's default `Map` is. */
  datatype Json =
    | JNull
    | JBool(b: bool)
    | JNum(n: int)
    | JStr(s: string)
    | JArr(items: seq<Json>)
    | JObj(fields: map<string, Json>)

  /** A queued event for one agent. */
  datatype Message = Message(
    id: u64,
    clientUuid: string,
    messageType: string,
    messageData: Json,
    createdAt: Time,
    deliveredAt: Option<Time>,
    status: string)

  datatype Player = Player(name: string, steamId: string)

  datatype Donate = Donate(
    id: Option<u64>,
    clientUuid: Option<string>,
    account: Player,
    date: Time,
    faction: string,
    time: Time,
    donateType: string,
    value: string,
    who: Player)

  /** What an agent sends: exactly an action and its identity. */
  datatype ClientRequest = ClientRequest(action: string, uuid: string)

  datatype ServerResponse = ServerResponse(status: string, message: Option<Json>)

  datatype ClientConnection = ClientConnection(
    uuid: string,
    serverName: string,
    registeredAt: Time,
    lastSeen: Time)

  datatype CreateRequest = CreateRequest(clientUuid: string, donate: Donate)

  datatype CreateResponse = CreateResponse(status: string, message: string)

  // ---------------------------------------------------------------------------
  // Serialization (serde derive)
  // ---------------------------------------------------------------------------

  function OptionJson(o: Option<int>): Json {
    match o
    case None => JNull
    case Some(n) => JNum(n)
  }

  function PlayerToJson(p: Player): Json {
    JObj(map["name" := JStr(p.name), "steam_id" := JStr(p.steamId)])
  }

  /** `client_uuid` is skipped when absent; `id` is always written, as `null` when absent. */
  function DonateToJson(d: Donate): (j: Json)
    ensures j.JObj? && "id" in j.fields
    ensures "client_uuid" in j.fields <==> d.clientUuid.Some?
  {
    var base := map[
      "id" := OptionJson(match d.id case None => None case Some(n) => Some(n)),
      "account" := PlayerToJson(d.account),
      "date" := JNum(d.date),
      "faction" := JStr(d.faction),
      "time" := JNum(d.time),
      "donate_type" := JStr(d.donateType),
      "value" := JStr(d.value),
      "who" := PlayerToJson(d.who)];
    JObj(if d.clientUuid.Some? then base["client_uuid" := JStr(d.clientUuid.value)] else base)
  }

  function MessageToJson(m: Message): (j: Json)
    ensures j.JObj? && "delivered_at" in j.fields
  {
    JObj(map[
      "id" := JNum(m.id),
      "client_uuid" := JStr(m.clientUuid),
      "message_type" := JStr(m.messageType),
      "message_data" := m.messageData,
      "created_at" := JNum(m.createdAt),
      "delivered_at" := OptionJson(m.deliveredAt),
      "status" := JStr(m.status)])
  }

  function MessagesToJson(ms: seq<Message>): (j: Json)
    ensures j.JArr? && |j.items| == |ms|
  {
    JArr(seq(|ms|, i requires 0 <= i < |ms| => MessageToJson(ms[i])))
  }

  function RequestToJson(r: ClientRequest): Json {
    JObj(map["action" := JStr(r.action), "uuid" := JStr(r.uuid)])
  }

  /** `message` is skipped when absent. */
  function ResponseToJson(r: ServerResponse): (j: Json)
    ensures j.JObj? && "status" in j.fields
    ensures "message" in j.fields <==> r.message.Some?
  {
    var base := map["status" := JStr(r.status)];
    JObj(if r.message.Some? then base["message" := r.message.value] else base)
  }

  // ---------------------------------------------------------------------------
  // Deserialization (serde derive).  A struct reads from an object or from an array.
  // Object form: missing or `null` Option fields read as None, unknown fields are
  // ignored.  Array form: exactly one element per field, in declaration order, with
  // `null` as None for an Option field; a shorter or longer array is an error.  Anything
  // else of the wrong shape is an error.
  // ---------------------------------------------------------------------------

  function Required(f: map<string, Json>, k: string): Option<Json> {
    if k in f then Some(f[k]) else None
  }

  function StrOf(j: Json): Option<string> {
    if j.JStr? then Some(j.s) else None
  }

  function U64Of(j: Json): Option<u64> {
    if j.JNum? && 0 <= j.n < U64Limit then Some(j.n) else None
  }

  function TimeOf(j: Json): Option<Time> {
    if j.JNum? then Some(j.n) else None
  }

  function ReqStr(f: map<string, Json>, k: string): Option<string> {
    var j :- Required(f, k);
    StrOf(j)
  }

  function ReqTime(f: map<string, Json>, k: string): Option<Time> {
    var j :- Required(f, k);
    TimeOf(j)
  }

  /** A field of type `Option<T>`: absent or `null` is `None`. */
  predicate AbsentOrNull(f: map<string, Json>, k: string) {
    k !in f || f[k] == JNull
  }

  /** One value of type `Option<T>`: `null` is `None`. */
  function NullableU64(j: Json): Option<Option<u64>> {
    if j == JNull then Some(None) else var n :- U64Of(j); Some(Some(n))
  }

  function NullableStr(j: Json): Option<Option<string>> {
    if j == JNull then Some(None) else var s :- StrOf(j); Some(Some(s))
  }

  function NullableTime(j: Json): Option<Option<Time>> {
    if j == JNull then Some(None) else var t :- TimeOf(j); Some(Some(t))
  }

  function OptU64(f: map<string, Json>, k: string): Option<Option<u64>> {
    if k !in f then Some(None) else NullableU64(f[k])
  }

  function OptStr(f: map<string, Json>, k: string): Option<Option<string>> {
    if k !in f then Some(None) else NullableStr(f[k])
  }

  function OptTime(f: map<string, Json>, k: string): Option<Option<Time>> {
    if k !in f then Some(None) else NullableTime(f[k])
  }

  function PlayerFromJson(j: Json): Option<Player> {
    match j
    case JObj(f) =>
      var name :- ReqStr(f, "name");
      var steamId :- ReqStr(f, "steam_id");
      Some(Player(name, steamId))
    case JArr(items) =>
      if |items| != 2 then None
      else
        var name :- StrOf(items[0]);
        var steamId :- StrOf(items[1]);
        Some(Player(name, steamId))
    case _ => None
  }

  function DonateFromJson(j: Json): Option<Donate> {
    match j
    case JObj(f) =>
      var id :- OptU64(f, "id");
      var uuid :- OptStr(f, "client_uuid");
      var accountJ :- Required(f, "account");
      var account :- PlayerFromJson(accountJ);
      var date :- ReqTime(f, "date");
      var faction :- ReqStr(f, "faction");
      var time :- ReqTime(f, "time");
      var donateType :- ReqStr(f, "donate_type");
      var value :- ReqStr(f, "value");
      var whoJ :- Required(f, "who");
      var who :- PlayerFromJson(whoJ);
      Some(Donate(id, uuid, account, date, faction, time, donateType, value, who))
    case JArr(items) =>
      if |items| != 9 then None
      else
        var id :- NullableU64(items[0]);
        var uuid :- NullableStr(items[1]);
        var account :- PlayerFromJson(items[2]);
        var date :- TimeOf(items[3]);
        var faction :- StrOf(items[4]);
        var time :- TimeOf(items[5]);
        var donateType :- StrOf(items[6]);
        var value :- StrOf(items[7]);
        var who :- PlayerFromJson(items[8]);
        Some(Donate(id, uuid, account, date, faction, time, donateType, value, who))
    case _ => None
  }

  function MessageFromJson(j: Json): Option<Message> {
    match j
    case JObj(f) =>
      var idJ :- Required(f, "id");
      var id :- U64Of(idJ);
      var uuid :- ReqStr(f, "client_uuid");
      var messageType :- ReqStr(f, "message_type");
      var data :- Required(f, "message_data");
      var createdAt :- ReqTime(f, "created_at");
      var deliveredAt :- OptTime(f, "delivered_at");
      var status :- ReqStr(f, "status");
      Some(Message(id, uuid, messageType, data, createdAt, deliveredAt, status))
    case JArr(items) =>
      if |items| != 7 then None
      else
        var id :- U64Of(items[0]);
        var uuid :- StrOf(items[1]);
        var messageType :- StrOf(items[2]);
        var createdAt :- TimeOf(items[4]);
        var deliveredAt :- NullableTime(items[5]);
        var status :- StrOf(items[6]);
        Some(Message(id, uuid, messageType, items[3], createdAt, deliveredAt, status))
    case _ => None
  }

  /** `Vec<Message>`: an array every element of which is a message. */
  function MessagesFromJson(j: Json): Option<seq<Message>> {
    if !j.JArr? then None else MessageItems(j.items)
  }

  function MessageItems(items: seq<Json>): Option<seq<Message>> {
    if items == [] then Some([])
    else
      var m :- MessageFromJson(items[0]);
      var rest :- MessageItems(items[1..]);
      Some([m] + rest)
  }

  function RequestFromJson(j: Json): Option<ClientRequest> {
    match j
    case JObj(f) =>
      var action :- ReqStr(f, "action");
      var uuid :- ReqStr(f, "uuid");
      Some(ClientRequest(action, uuid))
    case JArr(items) =>
      if |items| != 2 then None
      else
        var action :- StrOf(items[0]);
        var uuid :- StrOf(items[1]);
        Some(ClientRequest(action, uuid))
    case _ => None
  }

  /** `message: Option<Value>`: a `null` message reads back as absent. */
  function ResponseFromJson(j: Json): Option<ServerResponse> {
    match j
    case JObj(f) =>
      var status :- ReqStr(f, "status");
      Some(ServerResponse(status, if AbsentOrNull(f, "message") then None else Some(f["message"])))
    case JArr(items) =>
      if |items| != 2 then None
      else
        var status :- StrOf(items[0]);
        Some(ServerResponse(status, if items[1] == JNull then None else Some(items[1])))
    case _ => None
  }

  // ---------------------------------------------------------------------------
  // The array form
  // ---------------------------------------------------------------------------

  /** A request reads from an object with string `action` and `uuid`, or from an array of
      exactly two strings, action first; from nothing else. */
  lemma RequestFromJsonExact(j: Json)
    ensures RequestFromJson(j).Some? <==>
      || (j.JObj? && ReqStr(j.fields, "action").Some? && ReqStr(j.fields, "uuid").Some?)
      || (j.JArr? && |j.items| == 2 && j.items[0].JStr? && j.items[1].JStr?)
    ensures j.JArr? && RequestFromJson(j).Some? ==>
      RequestFromJson(j) == Some(ClientRequest(j.items[0].s, j.items[1].s))
  {
  }

  /** The fields of a donate as an array, in declaration order. */
  function DonateItems(d: Donate): seq<Json> {
    [OptionJson(match d.id case None => None case Some(n) => Some(n)),
     match d.clientUuid case None => JNull case Some(u) => JStr(u),
     JArr([JStr(d.account.name), JStr(d.account.steamId)]),
     JNum(d.date), JStr(d.faction), JNum(d.time), JStr(d.donateType), JStr(d.value),
     PlayerToJson(d.who)]
  }

  /** Every donate reads back from its array form (here with the account itself in array
      form), and an array one element short or long is refused. */
  lemma DonateArrayForm(d: Donate, extra: Json)
    ensures DonateFromJson(JArr(DonateItems(d))) == Some(d)
    ensures DonateFromJson(JArr(DonateItems(d)[..8])) == None
    ensures DonateFromJson(JArr(DonateItems(d) + [extra])) == None
  {
    PlayerRoundTrip(d.who);
  }

  /** A message list in which a message is written as an array, in field order, reads
      back as that message. */
  lemma MessageArrayForm(m: Message)
    ensures MessagesFromJson(JArr([JArr([JNum(m.id), JStr(m.clientUuid), JStr(m.messageType), m.messageData,
                                         JNum(m.createdAt), OptionJson(m.deliveredAt), JStr(m.status)])]))
      == Some([m])
  {
    var item := JArr([JNum(m.id), JStr(m.clientUuid), JStr(m.messageType), m.messageData,
                      JNum(m.createdAt), OptionJson(m.deliveredAt), JStr(m.status)]);
    assert MessageFromJson(item) == Some(m);
    assert [item][1..] == [];
    assert MessageItems([item]) == Some([m] + []);
    assert [m] + [] == [m];
    assert MessagesFromJson(JArr([item])) == MessageItems([item]);
  }

  // ---------------------------------------------------------------------------
  // Round trips
  // ---------------------------------------------------------------------------

  lemma PlayerRoundTrip(p: Player)
    ensures PlayerFromJson(PlayerToJson(p)) == Some(p)
  {
  }

  lemma DonateRoundTrip(d: Donate)
    ensures DonateFromJson(DonateToJson(d)) == Some(d)
  {
    DonateFieldsRead(d);
    PlayerRoundTrip(d.account);
    PlayerRoundTrip(d.who);
  }

  /** Each field of a donate's object form reads back as that field. */
  lemma DonateFieldsRead(d: Donate)
    ensures var f := DonateToJson(d).fields;
      && OptU64(f, "id") == Some(d.id) && OptStr(f, "client_uuid") == Some(d.clientUuid)
      && Required(f, "account") == Some(PlayerToJson(d.account))
      && Required(f, "who") == Some(PlayerToJson(d.who))
      && ReqTime(f, "date") == Some(d.date) && ReqTime(f, "time") == Some(d.time)
      && ReqStr(f, "faction") == Some(d.faction) && ReqStr(f, "donate_type") == Some(d.donateType)
      && ReqStr(f, "value") == Some(d.value)
  {
  }

  lemma MessageRoundTrip(m: Message)
    ensures MessageFromJson(MessageToJson(m)) == Some(m)
  {
  }

  lemma {:induction false} MessageItemsRoundTrip(ms: seq<Message>)
    ensures MessageItems(seq(|ms|, i requires 0 <= i < |ms| => MessageToJson(ms[i]))) == Some(ms)
  {
    var items := seq(|ms|, i requires 0 <= i < |ms| => MessageToJson(ms[i]));
    if ms != [] {
      MessageRoundTrip(ms[0]);
      var tail := ms[1..];
      assert items[1..] == seq(|tail|, i requires 0 <= i < |tail| => MessageToJson(tail[i]));
      MessageItemsRoundTrip(tail);
      assert [ms[0]] + tail == ms;
    }
  }

  /** The poll payload reads back as exactly the list that was sent, in order. */
  lemma MessagesRoundTrip(ms: seq<Message>)
    ensures MessagesFromJson(MessagesToJson(ms)) == Some(ms)
  {
    MessageItemsRoundTrip(ms);
  }

  lemma RequestRoundTrip(r: ClientRequest)
    ensures RequestFromJson(RequestToJson(r)) == Some(r)
  {
  }

  /** A response reads back as itself unless it carries an explicit `null` message,
      which reads back as no message at all. */
  lemma ResponseRoundTrip(r: ServerResponse)
    ensures ResponseFromJson(ResponseToJson(r)) == Some(r) <==> r.message != Some(JNull)
    ensures r.message == Some(JNull) ==> ResponseFromJson(ResponseToJson(r)) == Some(r.(message := None))
  {
  }
}
