# gmod_donate message-delivery fabric, in Dafny

This project models the core of gmod_donate. That core pushes events ("donate", "donate_updated", "donate_deleted") from a central server to game-server agents, which can only be reached when they call in. The model covers these parts:

- **Framing and types**: the wire frame, a 4-byte little-endian length followed by the payload, shared by the server and the agent. Also the shared records and their serde JSON shape (`Framing`, `Types`, and `JsonText` for the JSON text codec).
- **Store**: the server's SQLite tables as in-memory tables in rowid order (`Database`). These are pure functions over `Tables`, and `class Store` has one method per `database.rs` function. Each method is proved equal to its function.
- **TCP server**: one connection's session. It covers "pool", "register" and unknown actions, and the order of write, then `last_seen`, then mark delivered (`Server`).
- **HTTP gateway**: API-key loading and the authorisation middleware (`Rest`), and the donate and message handlers with the notices they queue (`RestHandlers`).
- **Agent**: host-file and identity-file decisions, and how "register" and "pool" answers are read (`ClientTcp`). Also the inbox that polls append to, the Lua table a drain produces, and start-up (`ClientLib`).
- **Admin application**: the history filter, the four-column layout, Clear Filters, the edit dialog and its API-key header (`Ui`).
- **End-to-end**: lemmas joining agent and server (`Delivery`). They cover the poll and register round trips, at-least-once delivery, and an accepted API key.

Helper modules: `Wrappers` (Option and Result), `Text` (trim, split, decimal text, ASCII lower-casing, substring search) and `Seqs` (filtering).

Time is an integer. The session's clock reading `now`, whether a write succeeds (`writeOk`), whether a connection opens (`connected`) and the bytes a peer sends are all parameters. The JSON printer and parser are a `JsonCodec` parameter. End-to-end lemmas assume `Faithful(codec)`: parsing printed JSON gives the value back.

## Model

| member | source | states |
|---|---|---|
| Framing.U32ToLe | server/src/tcp.rs:74-76 | the header of a length below 2^32 is four bytes; `Framing.LeOfU32` shows `from_le_bytes` inverts it |
| Framing.LeToU32 | server/src/tcp.rs:66-68 | `u32::from_le_bytes` gives a value below 2^32 |
| Framing.LeOfU32 | server/src/tcp.rs:66-76 | decoding the length bytes of any length below 2^32 gives that length back |
| Framing.U32OfLe | server/src/tcp.rs:66-76 | encoding a decoded 4-byte header gives the header back |
| Framing.WriteMessage | client/src/tcp.rs:123-129 | a frame is 4 header bytes followed by the payload, and the header decodes to the payload length mod 2^32 (`as u32`) |
| Framing.ReadMessage | server/src/tcp.rs:65-72 | reading fails exactly when fewer than 4 bytes arrive or the body is shorter than the header says; on success the payload is the next `len` bytes and the rest is left over |
| Framing.ReadAfterWrite | client/src/tcp.rs:114-129 | a written frame of a payload below 2^32 bytes reads back as that payload, leaving any following bytes untouched |
| Framing.TruncatedFrameFails | server/src/tcp.rs:65-72 | any proper prefix of a frame fails to read |
| Framing.OversizedPayloadIsCut | server/src/tcp.rs:74-76 | a payload of 2^32 bytes or more wraps the length, and the reader gets only the first `len mod 2^32` bytes |
| Types.DonateToJson | shared/src/types.rs:31-43 | the serialized donate is an object that always has `id`, and has `client_uuid` exactly when it is Some, as `skip_serializing_if` says |
| Types.MessageToJson | shared/src/types.rs:4-13 | the serialized message is an object that always has `delivered_at` (null when None) |
| Types.MessagesToJson | shared/src/types.rs:4-13 | a message list becomes a JSON array of the same length, one element per message |
| Types.ResponseToJson | shared/src/types.rs:55-60 | `message` is present exactly when it is Some |
| Types.PlayerRoundTrip | shared/src/types.rs:25-29 | deserializing a serialized player gives it back |
| Types.DonateRoundTrip | shared/src/types.rs:31-43 | deserializing a serialized donate gives it back, including a missing id or owner |
| Types.MessageRoundTrip | shared/src/types.rs:4-13 | deserializing a serialized message gives it back |
| Types.MessageItemsRoundTrip | shared/src/types.rs:4-13 | element by element, the array of serialized messages reads back as the list |
| Types.MessagesRoundTrip | shared/src/types.rs:4-13 | a serialized message list reads back as the same list, in order |
| Types.RequestRoundTrip | shared/src/types.rs:49-53 | a serialized request reads back as itself |
| Types.RequestFromJsonExact | server/src/tcp.rs:84 | a request reads from an object with string `action` and `uuid`, or from an array of exactly two strings (action first), and from nothing else |
| Types.DonateArrayForm | server/src/database.rs:103 | a donate reads back from the array of its nine fields in declaration order, and an array one element short or long is refused |
| Types.MessageArrayForm | client/src/tcp.rs:185 | a message list whose message is written as the array of its seven fields reads back as that message |
| Types.ResponseRoundTrip | shared/src/types.rs:55-60 | a serialized response reads back as itself exactly when its message is not an explicit JSON null; a null message reads back as None |
| Text.Trim | server/src/rest.rs:56 | the result is the text with its leading and trailing whitespace removed: a slice `s[i..j]` with only whitespace before `i` and after `j`, itself without surrounding whitespace, and a text without any is left as it is |
| Text.TrimIdempotent | client/src/tcp.rs:75-77 | trimming twice is trimming once |
| Text.Split | client/src/tcp.rs:52 | `split(':')` gives one part more than there are separators, and no part holds the separator |
| Text.JoinSplit | server/src/rest.rs:55 | joining the parts of a split with the separator gives the text back |
| Text.SplitJoin | server/src/rest.rs:55 | splitting a join of separator-free parts gives the parts back |
| Text.SplitPrefix | client/src/tcp.rs:52 | splitting a separator-free prefix followed by a tail glues the prefix onto the tail's first part |
| Text.SplitInTwo | client/src/tcp.rs:52-53 | a split has exactly two parts iff the text has exactly one separator, and the text is then part one, separator, part two |
| Text.DecimalString | server/src/rest_handlers.rs:66 | decimal text is non-empty, all digits, and starts with 0 only for zero |
| Text.DecimalRoundTrip | client_app/src/ui.rs:350 | the decimal text of an id reads back as the id |
| Text.ToLowerIdempotent | client_app/src/ui.rs:338-353 | lower-casing twice is lower-casing once |
| Text.ContainsAt | client_app/src/ui.rs:338-353 | a needle found at some position is contained |
| Text.ContainsLength | client_app/src/ui.rs:338-353 | a contained needle is no longer than the text, and the empty needle is always contained |
| Seqs.Filter | client_app/src/ui.rs:336-357 | the filtered list is no longer than the list; each of its elements is from the list and passes the test; every passing element is kept |
| Seqs.FilterIsSubsequence | client_app/src/ui.rs:336-357 | filtering keeps an order-preserving selection of the list |
| Seqs.FilterAll | client_app/src/ui.rs:336-357 | when every element passes, filtering returns the list itself |
| Seqs.FilterNone | server/src/database.rs:138 | when no element passes, filtering returns nothing |
| Seqs.FilterCongruent | server/src/database.rs:138 | two tests agreeing on every element filter alike |
| Seqs.FilterAscending | server/src/database.rs:138 | filtering a list with strictly increasing keys keeps them strictly increasing |
| Database.EmptyIsGood | server/src/database.rs:11-53 | freshly created tables satisfy the invariant: unique client uuids, message and donate ids strictly increasing and below the next AUTOINCREMENT value |
| Database.InsertClient | server/src/database.rs:57-60 | the INSERT into `clients` fails with a primary-key error exactly when the uuid already has a row; otherwise it gives the tables of `Database.Register` |
| Database.RegisterClientTables | server/src/database.rs:54-66 | `register_client` logs a failed INSERT and returns `Ok(())`, so its tables always equal `Database.Register`, and a known identity leaves them unchanged |
| Database.RegisterEffect | server/src/database.rs:54-66 | after registering, the identity is known; a new one gets `(uuid, uuid, now, now)` appended; a known one leaves the tables as they were; messages and donates never change |
| Database.RegisterIdempotent | server/src/database.rs:54-66 | registering again, at any later time, changes nothing |
| Database.RegisterKeepsGood | server/src/database.rs:54-66 | registration keeps the table invariant |
| Database.TouchClientEffect | server/src/database.rs:81-89 | only `last_seen` of the rows with that uuid becomes `now`; every other field and row is unchanged; uuid uniqueness and the set of known identities are kept |
| Database.PendingForExact | server/src/database.rs:134-155 | the pending list holds exactly the pending messages addressed to the identity; it is an order-preserving selection of the table, so ascending ids stay ascending |
| Database.MarkStep | server/src/database.rs:156-170 | marking one more id extends the marks of the loop so far |
| Database.MarkDeliveredEffect | server/src/database.rs:156-170 | each row whose id is listed becomes "delivered" at `now`; every other row is unchanged; an empty id list changes nothing; row count and ids are kept |
| Database.MarkNeverReverts | server/src/database.rs:156-170 | marking never turns a delivered message back to pending |
| Database.CreateMessageFresh | server/src/database.rs:91-122 | a successful insert appends one row whose id exceeds every earlier id, carrying the message's destination, kind, creation time and its own status, with no delivery time; a non-donate message leaves the donates alone |
| Database.CreateDonateMessageLinks | server/src/database.rs:91-133 | a "donate" message whose data is not a donate fails after its row is already stored; otherwise a donate row linked to the message and owned by its agent is appended; data in object form gains `"id"` = the donate id, and data in array form is stored as it came |
| Database.CreateMessageKeepsGood | server/src/database.rs:91-133 | inserting a message keeps the table invariant |
| Database.DonateByIdExact | server/src/database.rs:201-236 | the lookup finds something exactly when a row has the id, and then returns that row as a donate with its owner |
| Database.DeleteDonateEffect | server/src/database.rs:238-250 | a missing id deletes nothing; a present one returns that row's donate and owner and removes exactly the rows with that id; clients and messages are unchanged |
| Database.UpdateDonateEffect | server/src/database.rs:252-277 | the owner is returned iff the id exists; the row with that id takes the nine new fields and keeps its id, message link, owner and creation time; other rows are unchanged; a missing id changes nothing |
| Database.RemoveKeepsGood | server/src/database.rs:238-250 | deleting keeps the table invariant |
| Database.ReviseKeepsGood | server/src/database.rs:252-277 | updating keeps the table invariant |
| Database.ClearDeliveredEffect | server/src/database.rs:297-314 | retention removes exactly the delivered messages delivered before the cutoff, and the donates linked to them; clients and every identity's pending list are unchanged |
| Database.ClearKeepsPending | server/src/database.rs:309 | removing expired messages never changes what is pending for anyone |
| Database.ClearKeepsGood | server/src/database.rs:297-314 | retention keeps the table invariant |
| Database.Store.RegisterClient | server/src/database.rs:54-66 | the store's new state is the registration of its old state |
| Database.Store.ProofClient | server/src/database.rs:68-79 | the counting loop succeeds exactly when the identity has a row, and fails with "Client not found" otherwise |
| Database.Store.UpdateLastSeen | server/src/database.rs:81-89 | only the clients table changes, to its touched version |
| Database.Store.GetClients | server/src/database.rs:279-296 | all client rows, with unique uuids |
| Database.Store.GetPendingMessages | server/src/database.rs:134-155 | the scan loop returns exactly the identity's pending list |
| Database.Store.MarkMessagesDelivered | server/src/database.rs:156-170 | the per-id UPDATE loop leaves the messages marked as `MarkDelivered` describes, and nothing else changes |
| Database.Store.CreateDonate | server/src/database.rs:123-133 | the new state and id are those of the donate insert, which fails once the AUTOINCREMENT counter is exhausted |
| Database.Store.CreateMessage | server/src/database.rs:91-122 | the new state and result are those of the message insert, including the donate side effect and its failure |
| Database.Store.GetDonates | server/src/database.rs:171-199 | the loop reads every row back as a donate, in table order |
| Database.Store.GetDonateById | server/src/database.rs:201-236 | the search loop returns the first row with the id, or None |
| Database.Store.DeleteDonate | server/src/database.rs:238-250 | the new state and answer are those of the delete |
| Database.Store.UpdateDonate | server/src/database.rs:252-277 | the new state and owner are those of the update |
| Database.Store.ClearDeliveredMessages | server/src/database.rs:297-314 | the new state is retention at cutoff `now` |
| Server.MalformedInputIgnored | server/src/tcp.rs:83-84 | bytes that are no request frame, or whose JSON is a `ClientRequest` in neither object nor array form, end the session with no answer and no change |
| Server.UnregisteredPollRejected | server/src/tcp.rs:89-90 | a poll from an unknown identity fails before anything is written, and the store is unchanged |
| Server.RegisteredPollDelivers | server/src/tcp.rs:89-106 | a poll from a known identity answers "ok" with exactly its pending list; afterwards exactly those rows are delivered at `now`, `last_seen` is `now`, donates are unchanged and nothing is pending for it |
| Server.PendingIdsExact | server/src/tcp.rs:106 | a row's id is among the sent ids exactly when that row was pending for the poller |
| Server.PollMarksExactlyPending | server/src/tcp.rs:99-106 | marking the sent ids delivers exactly the poller's pending rows and touches no other row |
| Server.NothingPending | server/src/tcp.rs:91 | with no row pending for an identity, its pending list is empty |
| Server.FailedWriteKeepsPending | server/src/tcp.rs:97-98 | if the answer cannot be written, nothing is marked and everything stays pending for the next poll |
| Server.RegisterAnswersOk | server/src/tcp.rs:107-116 | "register" answers "ok" with "Registered successfully: <uuid>" for new and known identities alike, the tables become those of `Database.Register`, and the identity is known afterwards |
| Server.UnknownActionUntouched | server/src/tcp.rs:117-125 | any other action answers "error" with "Unknown action: <action>" and changes nothing |
| Server.ServeKeepsGood | server/src/tcp.rs:82-127 | a session keeps the table invariant |
| Server.CreateDonateMessageQueues | server/src/tcp.rs:134-146 | a queued donate is a new pending "donate" message for that agent with a linked donate row; it fails only when a row-id counter is exhausted |
| Server.TcpServer.HandleSocket | server/src/tcp.rs:82-127 | the store's new state, the bytes written and the outcome are those of the session, including the `iter_mut` loop over the sent messages |
| Server.TcpServer.CreateDonateMessage | server/src/tcp.rs:134-146 | the new state and result are those of queueing the donate |
| Rest.LoadPasswords | server/src/rest.rs:51-59 | every loaded key is non-empty, trimmed and free of commas |
| Rest.TrimIsInfix | server/src/rest.rs:56 | trimming adds no character |
| Rest.LoadJoined | server/src/rest.rs:51-59 | a comma-joined list of non-empty, trimmed, comma-free keys loads as exactly that set |
| Rest.UnsetMeansNoKeys | server/src/rest.rs:53-54 | an unset `API_PASSWORDS` loads no key |
| Rest.HeaderText | server/src/rest.rs:36 | `to_str` succeeds exactly when every byte is tab or visible ASCII, and then gives those characters |
| Rest.AuthorizeExact | server/src/rest.rs:20-49 | a request goes through exactly when no key is loaded, or its `X-API-Key` is readable text equal to a loaded key; otherwise it gets 401 |
| Rest.EmptyKeyRefused | server/src/rest.rs:42-47 | with keys loaded, an empty header value is refused |
| Rest.UnsetLetsEverythingThrough | server/src/rest.rs:28-32 | with no keys, every request goes through, with or without a header |
| RestHandlers.CreateAnswer | server/src/rest_handlers.rs:62-75 | the body says "ok" exactly when the message was created, and "error" otherwise |
| RestHandlers.LookupAnswer | server/src/rest_handlers.rs:98-110 | found is a 200 "ok" body, not found is 404, a store error is 500 |
| RestHandlers.CreateQueuesDonate | server/src/rest_handlers.rs:51-77 | `POST /api/donates` answers "ok" exactly when the store has room; then one pending "donate" message for the agent is appended, with a linked donate row |
| RestHandlers.DeleteMissingIs404 | server/src/rest_handlers.rs:103-106 | deleting a missing id is 404 and changes nothing |
| RestHandlers.DeleteNotifiesOwner | server/src/rest_handlers.rs:79-102 | deleting a present id answers "ok", removes it, and, when there is room, queues a "donate_deleted" notice for the former owner carrying the id and the deleted donate |
| RestHandlers.UpdateMissingIs404 | server/src/rest_handlers.rs:140-143 | updating a missing id is 404 and changes nothing |
| RestHandlers.UpdateNotifiesOwner | server/src/rest_handlers.rs:114-139 | updating a present id answers "ok", rewrites its row, and, when there is room, queues a "donate_updated" notice whose donate carries the path id |
| RestHandlers.GetClients | server/src/rest_handlers.rs:10-24 | `GET /api/clients` returns every client, with unique uuids |
| RestHandlers.GetDonates | server/src/rest_handlers.rs:37-49 | `GET /api/donates` returns one donate per row, in order |
| RestHandlers.GetMessages | server/src/rest_handlers.rs:26-35 | `GET /api/messages/{uuid}` returns exactly the agent's pending messages and marks nothing |
| RestHandlers.CreateDonate | server/src/rest_handlers.rs:51-77 | the store's new state and the body are those of the create handler |
| RestHandlers.DeleteDonate | server/src/rest_handlers.rs:79-112 | the store's new state and the reply are those of the delete handler |
| RestHandlers.UpdateDonate | server/src/rest_handlers.rs:114-149 | the store's new state and the reply are those of the update handler |
| ClientTcp.HostAndPortExact | client/src/tcp.rs:44-64 | a missing host.txt means 127.0.0.1:25565; a present one is accepted exactly when its trimmed text has one ':', and host and port are the text on either side |
| ClientTcp.HostAndPortRoundTrip | client/src/tcp.rs:44-64 | a written "<host>:<port>" without ':' in either part reads back as that host and port |
| ClientTcp.ChooseUuidExact | client/src/tcp.rs:66-94 | a non-blank uuid.txt is used trimmed and not rewritten; a missing or blank one is replaced by the new UUID, which is used |
| ClientTcp.ChooseUuidStable | client/src/tcp.rs:66-94 | a second start uses the same identity and writes nothing |
| ClientTcp.RegisterExact | client/src/tcp.rs:130-146 | registration succeeds exactly when connected and the answer reads as a response with status "ok"; the request carries "register" and the identity |
| ClientTcp.FindMessagesExact | client/src/tcp.rs:170-195 | a poll sends "pool" with the identity, and succeeds exactly when the answer is "ok" with a message that reads as a message list, which is then the result |
| ClientLib.Isize | client/src/lib.rs:40 | `as isize` keeps ids below 2^63 and wraps larger ones to negative values |
| ClientLib.Entry | client/src/lib.rs:37-69 | the per-message Lua table has the six fields, plus `delivered_at` exactly when delivered; every value is as pushed: the id as `isize`, the three texts, both times through the time printer, and the payload through the JSON printer |
| ClientLib.LuaTable | client/src/lib.rs:32-73 | the Lua table has keys 1..n, and key k holds the k-th message's entry |
| ClientLib.PushMessages | client/src/lib.rs:32-73 | the loop builds exactly that Lua table |
| ClientLib.Inbox.Accept | client/src/tcp.rs:151-162 | the queue grows by the poll's messages after what was queued; an empty or failed poll adds nothing |
| ClientLib.Inbox.GetMessages | client/src/lib.rs:75-90 | an empty queue gives nil; otherwise the whole queue, in order, as a Lua table; the queue is then empty |
| ClientLib.Inbox.PollNow | client/src/lib.rs:92-118 | always answers true, and the queue grows as after a poll |
| ClientLib.Agent.Open | client/src/lib.rs:120-166 | returns 0 exactly when the client could be made and registration succeeded, and then polling runs; otherwise returns 1 with no client set and no polling; uuid.txt holds what the identity decision wrote |
| Ui.ApiHeaders | client_app/src/ui.rs:22-31 | an empty password adds no header; a parsable one is the only header `X-API-Key`; an unparsable one panics (None) |
| Ui.NoFiltersShowAll | client_app/src/ui.rs:336-357 | with all five filters empty every donate is shown, in order |
| Ui.FilterDonatesExact | client_app/src/ui.rs:336-362 | the shown donates are exactly those passing all five tests, in order, so "Showing n of m" has n <= m |
| Ui.MissingIdFailsIdFilter | client_app/src/ui.rs:349-350 | a donate without an id fails every non-empty id filter |
| Ui.FilterCaseInsensitive | client_app/src/ui.rs:338-353 | the case typed into the steam-id, name, type and value filters makes no difference |
| Ui.ToLowerEmpty | client_app/src/ui.rs:338-353 | lower-casing gives the empty text only for the empty text |
| Ui.ColumnExact | client_app/src/ui.rs:368-380 | column c holds exactly the positions i < n with i mod 4 == c, in increasing order, and its k-th entry is 4k + c |
| Ui.ColumnLength | client_app/src/ui.rs:368-380 | column c of n donates has ceil((n - c) / 4) entries |
| Ui.ExactlyOneColumn | client_app/src/ui.rs:368-380 | each shown donate appears in exactly one of the four columns |
| Ui.LayoutColumns | client_app/src/ui.rs:368-380 | the nested layout loops give four columns, each exactly `Column(n, c)` |
| Ui.App.ClearFilters | client_app/src/ui.rs:324-330 | all five filters become empty, so the whole list is shown; nothing else changes |
| Ui.App.UpdateDonate | client_app/src/ui.rs:555-588 | a donate without an id is refused and nothing is sent; otherwise a `PUT` for its id is sent |
| Ui.App.EditModalStep | client_app/src/ui.rs:95-117 | with no dialog open nothing happens; Save, which takes priority, sends the update under the id of the donate being edited (the dialog has no id field) and closes; Cancel closes; otherwise the edited copy stays open |
| Delivery.RequestArrives | client/src/tcp.rs:133-138 | the server reads an agent's request frame as exactly the action and identity sent |
| Delivery.ResponseArrives | server/src/tcp.rs:93-98 | the agent reads a response frame as the response sent, unless its message is an explicit null |
| Delivery.PollRoundTrip | server/src/tcp.rs:89-106 | a registered agent's poll yields, on the agent, exactly its pending messages in table order, and afterwards nothing is pending for it |
| Delivery.RegisterRoundTrip | client/src/tcp.rs:130-146 | an agent's "register" succeeds on the agent, also for an identity the server already knows (every restart), and the server knows it afterwards |
| Delivery.LeavesPendingOnlyWhenSent | server/src/tcp.rs:89-106 | at-least-once delivery: a message stops being pending for `u` only in a session that was a successful poll by `u` whose written answer listed it |
| Delivery.ConfiguredKeyAccepted | server/src/rest.rs:20-59 | a loaded, visible-ASCII key is sent by the admin application as its only header and let through by the gateway |

## Left out

- Sockets, the accept loop, the hourly retention timer, the agent's ten-minute poll timer and the tokio runtime: these are I/O and scheduling. One session is a function of its input bytes, and whether its write succeeds is a parameter.
- A partial write (length sent, payload not) is treated like a write that fails as a whole.
- Concurrency: concurrent sessions and the queue `Mutex` are out. Each operation is atomic on the tables.
- The SQLite engine: table creation (`init_database`), file I/O faults, the RFC3339 text of times and foreign keys (declared but not enforced by default). Store errors are only the cases the model can name: a missing client, a full AUTOINCREMENT counter (2^63 - 1), a donate message whose data is no donate, and a duplicate uuid.
- Row order: the code's SELECTs have no ORDER BY. The model returns rows in rowid order, which is what SQLite's plain table scan does.
- The JSON text itself (`serde_json::to_vec`, `from_slice`, `to_string`) is the `JsonCodec` parameter, assumed faithful where a lemma needs it. The serde mapping between records and JSON values is modelled in both of the forms a derived struct reads: an object, and an array of its fields in declaration order. JSON numbers are integers only (`JNum`); floating-point numbers (`f64`) are not modelled.
- `message_data` round trips through its text column unchanged, as the codec is assumed faithful.
- Times are integers. Clock readings are parameters, with one reading `now` per session or request. The code reads `Utc::now()` several times within one call.
- Error texts are representative: a `StoreError`'s text in the "Error creating donate: …" body is not SQLite's or serde's exact wording.
- Lower-casing is ASCII only; Unicode case folding is not part of this model.
- The agent's file reads and writes cannot fail here, and `create_dir_all` is not modelled. `Uuid::new_v4` is the `generated` parameter.
- `ClientTcp.Register` and `ClientTcp.FindMessages`: the code panics on `unwrap` in two places. One is a non-"ok" status without a message (client/src/tcp.rs:143 and 183). The other is an "ok" answer to "pool" without a message (client/src/tcp.rs:185). The model reports the first as `Rejected(None)` and the second as `MissingPayload`, a failed exchange, instead of a panic.
- `TcpClient::new_with_server` is unused in the code (`#[allow(unused)]`) and not modelled. The same goes for the private `save_message` wrapper.
- `connect`'s ten-second timeout is the `connected` parameter.
- The Lua state, the FFI and the `OnceLock` statics are left out. `gmod13_open` is a method of `Agent`, and the Lua table is a map from keys to values. `gmod13_close` does nothing.
- `Printers`: how times and JSON are printed into the Lua table (`to_rfc3339`, `to_string`) is a parameter.
- The admin application's drawing (egui), its other tabs, the reqwest calls and the channel back to the UI are left out. Only the update request being sent is recorded (`updatesSent`), not its HTTP outcome.
- Server start-up (`TcpServer::new`, `RestServer::new`, CORS and routing) is configuration, not modelled.
- `Delivery.PollRoundTrip`, `Delivery.RegisterRoundTrip`: these require frame payloads below 2^32 bytes, because longer frames are cut (see `Framing.OversizedPayloadIsCut`).
- `Delivery.ConfiguredKeyAccepted`: this covers keys of visible ASCII. The bytes that non-ASCII text becomes on the wire (UTF-8) are not modelled.
