/**
 * The agent's connection logic (client/src/tcp.rs): where to connect, which identity to
 * use, and how the answers to "register" and "pool" are read.  Files are passed in as
 * their contents (`None` when the file does not exist); a connection is the bytes the
 * server sends back.
 */
module ClientTcp {
  import opened Wrappers
  import opened Types
  import opened Text
  import opened Framing
  import opened JsonText

  const DefaultHost: string := "127.0.0.1"
  const DefaultPort: string := "25565"

  const PollAction: string := "pool"
  const RegisterAction: string := "register"

  datatype ClientError =
    | InvalidHostFile               // host.txt is not "<host>:<port>"
    | ConnectFailed                 // no connection within the timeout
    | ReplyFraming                  // the answer frame was cut short
    | ReplyMalformed                // the answer is not a ServerResponse / message list
    | Rejected(detail: Option<Json>) // the server answered a status other than "ok"
    | MissingPayload                // "ok" without a `message` (an `unwrap` on None)

  /** An agent's identity and server address. */
  datatype TcpClient = TcpClient(clientUuid: string, serverHost: string, serverPort: string)

  // ---------------------------------------------------------------------------
  // get_host_and_port
  // ---------------------------------------------------------------------------

  /** `get_host_and_port`: host.txt, trimmed, must be exactly two ':'-separated parts. */
  function HostAndPort(file: Option<string>): Result<(string, string), ClientError> {
    match file
    case None => Success((DefaultHost, DefaultPort))
    case Some(text) =>
      var parts := Split(Trim(text), ':');
      if |parts| == 2 then Success((parts[0], parts[1])) else Failure(InvalidHostFile)
  }

  /** A missing file means the default address; a present one is accepted exactly when its
      trimmed text has a single ':', and then host and port are the text on either side of
      it, either of which may be empty. */
  lemma HostAndPortExact(file: Option<string>)
    ensures file.None? ==> HostAndPort(file) == Success((DefaultHost, DefaultPort))
    ensures file.Some? ==>
      && (HostAndPort(file).Success? <==> Count(Trim(file.value), ':') == 1)
      && (HostAndPort(file).Success? ==>
            var (host, port) := HostAndPort(file).value;
            Trim(file.value) == host + [':'] + port && ':' !in host && ':' !in port)
  {
    if file.Some? {
      SplitInTwo(Trim(file.value), ':');
    }
  }

  /** Any host and port without ':' and without surrounding blanks, written back as
      "<host>:<port>", is read back as itself. */
  lemma HostAndPortRoundTrip(host: string, port: string)
    requires ':' !in host && ':' !in port
    requires Trimmed(host + [':'] + port)
    ensures HostAndPort(Some(host + [':'] + port)) == Success((host, port))
  {
    assert Join([host, port], ':') == host + [':'] + port;
    SplitJoin([host, port], ':');
  }

  // ---------------------------------------------------------------------------
  // get_or_create_uuid
  // ---------------------------------------------------------------------------

  /** The identity to use, and what uuid.txt must be (over)written with, if anything — a
      present file with non-blank trimmed content is used as it is; otherwise `generated`,
      the newly generated UUID, is used and saved. */
  function ChooseUuid(file: Option<string>, generated: string): (string, Option<string>) {
    match file
    case Some(text) =>
      var uuid := Trim(text);
      if uuid == "" then (generated, Some(generated)) else (uuid, None)
    case None => (generated, Some(generated))
  }

  /** What uuid.txt holds after the call. */
  function SavedAs(file: Option<string>, write: Option<string>): Option<string> {
    if write.Some? then write else file
  }

  /** A non-blank file is used as its trimmed text and not rewritten; a missing or blank
      one is replaced by the generated identity, which is what is used. */
  lemma ChooseUuidExact(file: Option<string>, generated: string)
    ensures var (uuid, write) := ChooseUuid(file, generated);
      && (file.Some? && Trim(file.value) != "" ==> uuid == Trim(file.value) && write.None?)
      && ((file.None? || Trim(file.value) == "") ==> uuid == generated && write == Some(generated))
  {
  }

  /** Asking twice gives the same identity, and the second time writes nothing — provided
      the generated identity has no surrounding blanks, as a UUID's text has none. */
  lemma ChooseUuidStable(file: Option<string>, generated: string, generated2: string)
    requires generated != "" && Trimmed(generated)
    ensures var (uuid, write) := ChooseUuid(file, generated);
      var (uuid2, write2) := ChooseUuid(SavedAs(file, write), generated2);
      uuid2 == uuid && write2.None?
  {
    var (uuid, write) := ChooseUuid(file, generated);
    if write.None? {
      TrimIdempotent(file.value);
    }
  }

  /** `TcpClient::new`: the identity first (it may write uuid.txt), then the address. */
  function NewClient(uuidFile: Option<string>, generated: string, hostFile: Option<string>)
    : (Option<string>, Result<TcpClient, ClientError>)
  {
    var (uuid, write) := ChooseUuid(uuidFile, generated);
    var saved := SavedAs(uuidFile, write);
    match HostAndPort(hostFile)
    case Failure(e) => (saved, Failure(e))
    case Success((host, port)) => (saved, Success(TcpClient(uuid, host, port)))
  }

  // ---------------------------------------------------------------------------
  // register / find_messages
  // ---------------------------------------------------------------------------

  /** The frame the agent writes for `action`. */
  function RequestFrame(codec: JsonCodec, action: string, uuid: string): seq<byte> {
    WriteMessage(codec.encode(RequestToJson(ClientRequest(action, uuid))))
  }

  /** `read_message` and `serde_json::from_slice::<ServerResponse>` on the server's bytes. */
  function ReadResponse(codec: JsonCodec, reply: seq<byte>): Result<ServerResponse, ClientError> {
    match ReadMessage(reply)
    case Failure(_) => Failure(ReplyFraming)
    case Success((payload, _)) =>
      match codec.decode(payload)
      case None => Failure(ReplyMalformed)
      case Some(j) =>
        match ResponseFromJson(j)
        case None => Failure(ReplyMalformed)
        case Some(r) => Success(r)
  }

  /** The bytes an exchange puts on the connection and what the agent makes of the answer. */
  datatype Exchange<T> = Exchange(sent: seq<byte>, result: Result<T, ClientError>)

  /** `register`.  `connected` says whether the connection could be opened; `reply` is
      what the server sends back. */
  function Register(codec: JsonCodec, client: TcpClient, connected: bool, reply: seq<byte>): Exchange<()> {
    if !connected then Exchange([], Failure(ConnectFailed))
    else
      var sent := RequestFrame(codec, RegisterAction, client.clientUuid);
      match ReadResponse(codec, reply)
      case Failure(e) => Exchange(sent, Failure(e))
      case Success(r) =>
        if r.status != "ok" then Exchange(sent, Failure(Rejected(r.message)))
        else Exchange(sent, Success(()))
  }

  /** `find_messages`: a "pool" request; an "ok" answer must carry the message list. */
  function FindMessages(codec: JsonCodec, client: TcpClient, connected: bool, reply: seq<byte>): Exchange<seq<Message>> {
    if !connected then Exchange([], Failure(ConnectFailed))
    else
      var sent := RequestFrame(codec, PollAction, client.clientUuid);
      match ReadResponse(codec, reply)
      case Failure(e) => Exchange(sent, Failure(e))
      case Success(r) =>
        if r.status != "ok" then Exchange(sent, Failure(Rejected(r.message)))
        else if r.message.None? then Exchange(sent, Failure(MissingPayload))
        else match MessagesFromJson(r.message.value)
          case None => Exchange(sent, Failure(ReplyMalformed))
          case Some(ms) => Exchange(sent, Success(ms))
  }

  /** Registration succeeds exactly when the answer reads as a response whose status is
      "ok"; the request written carries action "register" and the agent's identity. */
  lemma RegisterExact(codec: JsonCodec, client: TcpClient, connected: bool, reply: seq<byte>)
    ensures var x := Register(codec, client, connected, reply);
      && (x.result.Success? <==>
            connected && ReadResponse(codec, reply).Success? && ReadResponse(codec, reply).value.status == "ok")
      && (connected ==> x.sent == RequestFrame(codec, RegisterAction, client.clientUuid))
  {
  }

  /** A poll writes a "pool" request; it fails on any status but "ok", and otherwise yields
      exactly the list the `message` field decodes to. */
  lemma FindMessagesExact(codec: JsonCodec, client: TcpClient, connected: bool, reply: seq<byte>)
    ensures var x := FindMessages(codec, client, connected, reply);
      && (connected ==> x.sent == RequestFrame(codec, PollAction, client.clientUuid))
      && (x.result.Success? <==>
            && connected && ReadResponse(codec, reply).Success?
            && ReadResponse(codec, reply).value.status == "ok"
            && ReadResponse(codec, reply).value.message.Some?
            && MessagesFromJson(ReadResponse(codec, reply).value.message.value).Some?)
      && (x.result.Success? ==>
            Some(x.result.value) == MessagesFromJson(ReadResponse(codec, reply).value.message.value))
  {
  }

  /** What a poll adds to the inbox: its messages on success, nothing on failure. */
  function Received(r: Result<seq<Message>, ClientError>): seq<Message> {
    if r.Success? then r.value else []
  }
}
