/**
 * The agent as the game server's Lua code sees it (client/src/lib.rs): an inbox the
 * background polls append to and `GModTCPGetMessages` drains, the Lua table each drain
 * produces, and the start-up sequence.
 */
module ClientLib {
  import opened Wrappers
  import opened Types
  import opened Framing
  import opened JsonText
  import opened ClientTcp

  /** Lua's `isize` integers. */
  const IsizeLimit: int := 0x8000_0000_0000_0000

  /** `as isize` on a `u64`: values of 2^63 and above wrap to negative numbers. */
  function Isize(n: u64): (r: int)
    ensures -IsizeLimit <= r < IsizeLimit
    ensures r == n || r == n - U64Limit
    ensures r == n <==> n < IsizeLimit
  {
    if n < IsizeLimit then n else n - U64Limit
  }

  datatype LuaValue = LInt(i: int) | LStr(s: string)

  /** How times and JSON payloads are printed as strings (`to_rfc3339`, `to_string`). */
  datatype Printers = Printers(time: Time -> string, json: Json -> string)

  /** The Lua table for one message. */
  function Entry(m: Message, p: Printers): (e: map<string, LuaValue>)
    ensures ("delivered_at" in e) <==> m.deliveredAt.Some?
    ensures forall k :: k in e <==>
      k in {"id", "client_uuid", "message_type", "status", "created_at", "message_data"}
      || (k == "delivered_at" && m.deliveredAt.Some?)
    ensures e["id"] == LInt(Isize(m.id))
    ensures e["client_uuid"] == LStr(m.clientUuid) && e["message_type"] == LStr(m.messageType)
    ensures e["status"] == LStr(m.status) && e["message_data"] == LStr(p.json(m.messageData))
    ensures e["created_at"] == LStr(p.time(m.createdAt))
    ensures m.deliveredAt.Some? ==> e["delivered_at"] == LStr(p.time(m.deliveredAt.value))
  {
    var base := map[
      "id" := LInt(Isize(m.id)),
      "client_uuid" := LStr(m.clientUuid),
      "message_type" := LStr(m.messageType),
      "status" := LStr(m.status),
      "created_at" := LStr(p.time(m.createdAt))];
    var withDelivery := if m.deliveredAt.Some? then base["delivered_at" := LStr(p.time(m.deliveredAt.value))] else base;
    withDelivery["message_data" := LStr(p.json(m.messageData))]
  }

  /** The array-like Lua table of the queue: keys 1..n, entry k for the k-th message. */
  function LuaTable(ms: seq<Message>, p: Printers): (t: map<int, map<string, LuaValue>>)
    ensures forall k :: k in t <==> 1 <= k <= |ms|
    ensures forall k :: 1 <= k <= |ms| ==> t[k] == Entry(ms[k - 1], p)
  {
    if ms == [] then map[]
    else LuaTable(ms[..|ms| - 1], p)[|ms| := Entry(ms[|ms| - 1], p)]
  }

  /** `push_messages_to_lua`: one entry per message, keyed by its 1-based position. */
  method PushMessages(ms: seq<Message>, p: Printers) returns (t: map<int, map<string, LuaValue>>)
    ensures t == LuaTable(ms, p)
  {
    t := map[];
    for i := 0 to |ms|
      invariant t == LuaTable(ms[..i], p)
    {
      assert ms[..i + 1][..i] == ms[..i];
      t := t[i + 1 := Entry(ms[i], p)];
    }
    assert ms[..|ms|] == ms;
  }

  /** The inbox shared by the poll loop and the Lua functions (`MESSAGE_QUEUE`). */
  class Inbox {
    var queue: seq<Message>

    constructor ()
      ensures queue == []
    {
      queue := [];
    }

    /** What the poll loop (`listen`) and `GModTCPPollNow` do with one poll's result:
        a non-empty batch goes after what is already queued; an empty batch or a failed
        poll adds nothing. */
    method Accept(r: Result<seq<Message>, ClientError>)
      modifies this
      ensures queue == old(queue) + Received(r)
    {
      if r.Success? && r.value != [] {
        queue := queue + r.value;
      }
    }

    /** `GModTCPGetMessages`: nil on an empty queue; otherwise the whole queue as a Lua
        table, in order, after which the queue is empty. */
    method GetMessages(p: Printers) returns (t: Option<map<int, map<string, LuaValue>>>)
      modifies this
      ensures old(queue) == [] ==> t.None?
      ensures old(queue) != [] ==> t == Some(LuaTable(old(queue), p))
      ensures queue == []
    {
      if queue == [] {
        return None;
      }
      var table := PushMessages(queue, p);
      queue := [];
      t := Some(table);
    }

    /** `GModTCPPollNow`: the poll runs in the background; the Lua caller always gets
        `true` at once. */
    method PollNow(r: Result<seq<Message>, ClientError>) returns (started: bool)
      modifies this
      ensures started
      ensures queue == old(queue) + Received(r)
    {
      Accept(r);
      started := true;
    }
  }

  /** The loaded module: whether CLIENT is set and polling started. */
  class Agent {
    const inbox: Inbox
    var uuidFile: Option<string>
    var client: Option<TcpClient>
    var polling: bool

    constructor (inbox: Inbox, uuidFile: Option<string>)
      ensures this.inbox == inbox && this.uuidFile == uuidFile
      ensures client.None? && !polling
    {
      this.inbox := inbox;
      this.uuidFile := uuidFile;
      client := None;
      polling := false;
    }

    /**
     * `gmod13_open`: create the client (identity, then address), register, set CLIENT and
     * start polling.  `generated` is the UUID a missing identity would get, `connected` and
     * `reply` the registration connection.  0 is success, 1 failure.
     */
    method Open(codec: JsonCodec, generated: string, hostFile: Option<string>, connected: bool, reply: seq<byte>)
      returns (code: int)
      requires client.None? && !polling
      modifies this
      ensures uuidFile == NewClient(old(uuidFile), generated, hostFile).0
      ensures var made := NewClient(old(uuidFile), generated, hostFile).1;
        code == 0 <==> made.Success? && Register(codec, made.value, connected, reply).result.Success?
      ensures code == 0 || code == 1
      ensures code == 1 ==> client.None? && !polling
      ensures code == 0 ==> client == Some(NewClient(old(uuidFile), generated, hostFile).1.value) && polling
    {
      var (saved, made) := NewClient(uuidFile, generated, hostFile);
      uuidFile := saved;
      if made.Failure? {
        return 1;
      }
      var registered := Register(codec, made.value, connected, reply);
      if registered.result.Failure? {
        return 1;
      }
      client := Some(made.value);
      polling := true;
      code := 0;
    }
  }
}
