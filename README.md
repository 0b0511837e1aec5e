# rust-chat-server, modelled in Dafny

A model of the core of a small chat server and its terminal client. Clients
connect over TCP and exchange length-prefixed frames. The server runs one
session per connection and a command router. It also runs a user registry
actor, which maps user names to mailboxes, a room registry actor, and one
actor per room. The model covers:

- the wire framing (`Frame`): a 4-byte little-endian length, then the payload, with the codec kept abstract;
- the message vocabularies: current (`ClientMessages`, `ServerMessages`, the command types in `commands.dfy`) and older (`LegacyMessages`), plus the `User` and `RoomName` identities;
- the command router (`Processor`): a total function from each message to exactly one routed output, and the router's loop, which ends at the first send that fails;
- the user registry (`UserRegistry`), the room registry (`RoomRegistry`) and the room actor (`Rooms`). Each is a pure `Step` function over a state value, with lemmas about it. A class holds the same fields, and its methods are proved to perform exactly that `Step`;
- a client's session on the server (`Session`): the handshake and the active loop as a state machine over events, with an invariant that holds on every reachable state. A `ClientHandler` class steps through it;
- the client's line parsers, current (`ClientInput`) and older (`LegacyClient`).

Channels, sockets, clocks and randomness are not modelled as such. A
mailbox is a sequence of the messages sent to it. A failed send is decided by
a parameter: the set of closed mailboxes, the dead rooms, or whether the
broadcast channel has subscribers. A lookup result, a hash-map iteration
order and a ping nonce are parameters too. In the registries, the room actor
and the session, an error that a loop propagates with `?` sets a `stopped`
field, and a stopped actor handles nothing more. The router's loop is a
function over its whole queue: its result lists the outputs sent and the
error, if any, that ended it.

Where the code's behaviour differs from what its names and comments suggest,
the model follows the code:

- A room message to an empty room, and a fan-out with a failed delivery, do not reply to the sender. The error ends the room actor's loop (src/common/room.rs:241-243).
- A payload split across socket reads is refused with `InvalidFrameSize` (see Findings).
- A stream that ends inside a payload gives `ConnectionClosed` in the corrected reader, which uses `read_exact` with the source's own error conversion, not `InvalidFrameSize`.

## Model

| member | source | states |
|---|---|---|
| Users.New | src/common/user.rs:13-15 | the user built from a name has exactly that name |
| Users.FromString | src/common/user.rs:39-43 | conversion from `String` is `User::new` of the same text |
| Users.FromStr | src/common/user.rs:45-49 | conversion from `&str` goes through `String` and is `User::new` of the same text |
| Users.Display | src/common/user.rs:21-25 | a user displays as its name, verbatim |
| Users.EqText | src/common/user.rs:27-37 | a user equals a text exactly when it is the user built from that text |
| Users.IdentityIsName | src/common/user.rs:7-10 | two users are equal iff their names are, and equal users hash alike under any hasher |
| Users.NameRoundTrip | src/common/user.rs:13-25 | building from a name and displaying are inverse, both ways round |
| RoomNames.New | src/common/room.rs:21-26 | a room name keeps its text exactly |
| RoomNames.Display | src/common/room.rs:33-37 | a room name displays as its text |
| RoomNames.EqText | src/common/room.rs:39-49 | a room name equals a text iff it is the name built from that text |
| RoomNames.IdentityIsName | src/common/room.rs:16-19 | room names are equal iff their texts are; building and displaying are inverse |
| ClientMessages.NewGlobalChatMessage | src/common/messages/client.rs:25-27 | the builder gives a global chat message with the given text |
| ClientMessages.NewPrivateMessage | src/common/messages/client.rs:29-34 | the builder keeps both the recipient's name and the text |
| ClientMessages.NewPing | src/common/messages/client.rs:36-38 | the builder gives a ping with the given nonce |
| ClientMessages.DisplayShowsFields | src/common/messages/client.rs:51-70 | chat text shows verbatim, a ping's nonce reads back from its digits, a private message shows its recipient and text after fixed words |
| ServerMessages.Names | src/common/messages/server.rs:117-118 | the displayed list has one entry per user, each that user's name |
| ServerMessages.Display | src/common/messages/server.rs:14-18 | an envelope shows its sender's name, then ": ", then its content's display |
| ServerMessages.UserListShown | src/common/messages/server.rs:117-124 | "[No Users]" appears iff the list is empty; otherwise the label and then the names in list order, separated by ", " |
| ServerMessages.PlainContentShown | src/common/messages/server.rs:55-108 | a pong's nonce, an error's text, a server notice's text and chat text read back from their displays |
| ServerMessages.PrivateMessageShown | src/common/messages/server.rs:91-99 | a private message shows its label, the sender padded to ten columns, then the text |
| LegacyMessages.ClientDisplayShowsFields | src/common/message.rs:36-46 | the four displayable client messages show their user, text, nonce and room at fixed places |
| LegacyMessages.GetUserShown | src/common/message.rs:99-107 | `get_user` names a user exactly for chat, private and room-joined messages (the sender or the joiner), and the display shows that name at a fixed offset |
| LegacyMessages.ServerDisplayShowsFields | src/common/message.rs:65-97 | each plain server message's field reads back from its display after its fixed label |
| Processor.HandleInternalMessage | src/server/processor.rs:59-74 | user commands go to the user registry and room commands to the room registry, unchanged; a response goes nowhere |
| Processor.HandleClientMessage | src/server/processor.rs:77-171 | every client message is routed exactly once: chat to the broadcast channel, user commands to the user registry, room commands to the room registry, always in the sender's name; `ListRooms` carries the placeholder room "N/A" |
| Processor.HandleServerMessage | src/server/processor.rs:174-182 | a server message is broadcast unchanged |
| Processor.Dispatch | src/server/processor.rs:39-52 | only an internal response is dropped; a server message is broadcast unchanged |
| Processor.SendFailure | src/server/processor.rs:59-182 | a send to the user registry, to the room registry or to the broadcast channel fails, with that channel's error, exactly when its receiving side is gone; a dropped response never fails |
| Processor.Run | src/server/processor.rs:36-56 | messages are dispatched in queue order until the first failed send; the loop then ends with that send's error and routes nothing more; a drained queue ends it with `Ok` |
| Processor.DispatchAll | src/server/processor.rs:39-52 | with no failures, one routed output per message, in queue order |
| Processor.RunStopsAtFirstFailure | src/server/processor.rs:36-56 | the outputs are exactly the dispatches before the first failing position, and the error is that position's send error; with no failing position every message is routed |
| Processor.UnheardChatStopsRouter | src/server/processor.rs:93-98 | a global chat handled while no session subscribes ends the router with `ServerBroadcastFailed` before anything else is routed |
| Processor.ResponsesNeverStop | src/server/processor.rs:65-67 | a queue of responses is drained without error, whatever state the channels are in |
| Processor.RoutingLosesNothing | src/server/processor.rs:84-168 | the sender and the message can be recovered from the routed output |
| Processor.RoutingInjective | src/server/processor.rs:84-168 | different (sender, message) pairs are routed to different outputs |
| Processor.GlobalChatIsBroadcast | src/server/processor.rs:93-98 | chat becomes one broadcast envelope with the sender as both sender and author |
| Processor.CommandTable | src/server/processor.rs:84-168 | each client command maps to its own registry command, with its fields |
| Frame.Le32RoundTrip | src/connection/frame.rs:19 | decoding the 4-byte little-endian length gives back the length |
| Frame.FromLe32RoundTrip | src/connection/frame.rs:50 | every 4-byte prefix is the encoding of the length it decodes to |
| Frame.LeBytesRoundTrip | src/connection/frame.rs:50 | little-endian encoding of any width inverts decoding |
| Frame.FromLeRoundTrip | src/connection/frame.rs:50 | little-endian decoding of any width inverts encoding |
| Frame.WriteFrame | src/connection/frame.rs:12-25 | writing fails exactly when encoding fails, with `BincodeEncode`; otherwise the payload follows a 4-byte prefix |
| Frame.WritePrefixIsLength | src/connection/frame.rs:17-21 | the prefix of a written frame decodes to the payload's length |
| Frame.ReadExact | src/connection/frame.rs:33-48 | `read_exact` succeeds iff enough bytes remain, splits the stream exactly, and otherwise converts end of file to `ConnectionClosed` and any other end to `ConnectionDropped` |
| Frame.ReadBuf | src/connection/frame.rs:52-53 | one `read_buf` returns what one transport read yields, bounded by the buffer; it fails only on a fault with nothing left |
| Frame.ReadPayload | src/connection/frame.rs:43-60 | a stream shorter than the prefix fails with the converted error; a successful read returns exactly the announced number of bytes and the rest of the stream |
| Frame.ReadFrame | src/connection/frame.rs:28-65 | payload errors propagate; a payload that does not decode gives `BincodeDecode`; otherwise the decoded value and the rest of the stream |
| Frame.ShortPrefix | src/connection/frame.rs:33-48 | a stream that ends inside the prefix is closed at end of file and dropped on a fault |
| Frame.SizeMismatch | src/connection/frame.rs:56-60 | a read that returns other than the announced size gives `InvalidFrameSize` |
| Frame.FrameRoundTrip | src/connection/frame.rs:12-65 | a written frame reads back as the same message, leaving what follows it, when it arrives in one transport read |
| Frame.EmptyFrameThenData | src/connection/frame.rs:50-60 | a zero-length frame followed by more data is refused with `InvalidFrameSize` |
| Frame.SplitPayloadRejected | src/connection/frame.rs:51-60 | as written: a payload longer than one transport read is refused with `InvalidFrameSize` |
| Frame.ReadPayloadExact | src/connection/frame.rs:43-60 | corrected: the payload is read with `read_exact`; it fails only with the converted error |
| Frame.ReadFrameExact | src/connection/frame.rs:28-65 | corrected reader: the decoded value and the rest of the stream, or the payload's error, or `BincodeDecode` |
| Frame.FrameRoundTripExact | src/connection/frame.rs:12-65 | corrected: every written frame reads back as the same message, however the transport splits it |
| Frame.ExactTruncatedPayload | src/connection/frame.rs:33-53 | corrected: a stream that ends inside the payload is closed at end of file and dropped on a fault |
| Collections.SetToSeq | src/server/user_handler.rs:115 | collecting a hash map's keys gives each key exactly once, in some order |
| UserRegistry.Step | src/server/user_handler.rs:35-125 | each command keeps the registry consistent: every name maps to an existing mailbox; only `NewUser` creates a mailbox |
| UserRegistry.NewUserRegisters | src/server/user_handler.rs:37-49 | the user maps to a fresh empty mailbox, replacing an earlier entry; the arrival is broadcast and the loop goes on; no subscriber ends the loop with nothing broadcast; a requester that dropped its reply receiver makes the `unwrap` panic after the insert, ending the loop with nothing broadcast |
| UserRegistry.DisconnectRemoves | src/server/user_handler.rs:50-60 | the user, and only the user, is removed; no mailbox changes; the departure is broadcast and the loop goes on, or, with no subscriber, nothing is broadcast and the loop ends |
| UserRegistry.PrivateMessageToRegistered | src/server/user_handler.rs:61-86 | exactly one message reaches the recipient's mailbox and no other: the private message, or the refusal when sending to oneself |
| UserRegistry.PrivateMessageToUnknown | src/server/user_handler.rs:87-100 | an unknown recipient gives "User not found" in the sender's mailbox only; an unregistered sender gets nothing |
| UserRegistry.PingAnswered | src/server/user_handler.rs:102-112 | a registered sender gets a pong with the same nonce, and nothing else changes; an unregistered one gets nothing |
| UserRegistry.ListUsersIsComplete | src/server/user_handler.rs:113-124 | the reply lists every registered name exactly once and no other, only the sender's mailbox changes, and the loop goes on |
| UserRegistry.OnlyMembershipCommandsChangeUsers | src/server/user_handler.rs:61-124 | private messages, pings and listings change neither the registered users nor the broadcast log |
| UserRegistry.StoppedIgnoresAll | src/server/user_handler.rs:34-128 | once an error has ended the loop, no command has an effect |
| UserRegistry.StepOnlyAppends | src/server/user_handler.rs:35-125 | no command removes anything from a mailbox or from the broadcast log |
| UserRegistry.UserProcessor.constructor | src/server/user_handler.rs:20-31 | a new registry has no users, no mailboxes and no broadcasts |
| UserRegistry.UserProcessor.SendTo | src/server/user_handler.rs:66-74 | a send appends to the mailbox, or ends the loop when the mailbox is closed |
| UserRegistry.UserProcessor.Publish | src/server/user_handler.rs:42-48 | a broadcast is logged, or ends the loop when nobody subscribes |
| UserRegistry.UserProcessor.NewUser | src/server/user_handler.rs:37-49 | performs the `NewUser` step, including the panic when the requester is gone, and returns the new, empty mailbox |
| UserRegistry.UserProcessor.DisconnectUser | src/server/user_handler.rs:50-60 | performs the `DisconnectUser` step |
| UserRegistry.UserProcessor.PrivateMessage | src/server/user_handler.rs:61-101 | performs the `PrivateMessage` step |
| UserRegistry.UserProcessor.Ping | src/server/user_handler.rs:102-112 | performs the `Ping` step |
| UserRegistry.UserProcessor.ListUsers | src/server/user_handler.rs:113-124 | collects every user name once and performs the `ListUsers` step with that listing |
| UserRegistry.UserProcessor.Handle | src/server/user_handler.rs:35-125 | one turn of the loop performs exactly `Step` and keeps the registry consistent |
| Rooms.UsersInRoom | src/common/room.rs:100-102 | true iff the room has a member |
| Rooms.FanOut | src/common/room.rs:141-161 | no more deliveries than members visited |
| Rooms.FanOutMembers | src/common/room.rs:143-161 | the message, and only it, reaches exactly the visited members whose mailbox is open, at that mailbox |
| Rooms.FanOutOnce | src/common/room.rs:143-161 | no member receives the message twice |
| Rooms.SomeClosed | src/common/room.rs:163-174 | the fan-out reports a failure iff some member's mailbox is closed |
| Rooms.EmptyRoomMessageStops | src/common/room.rs:128-135 | a room message to an empty room sends nothing and ends the loop with `NoUsersInRoom` |
| Rooms.LastLeaveStops | src/common/room.rs:209-216 | when the last member leaves, the leave notice has no recipient and the loop ends |
| Rooms.JoinNotifiesMembers | src/common/room.rs:188-197 | a new member is added with their mailbox; "X joined the room" reaches every member with an open mailbox, the joiner included, and nobody else; a closed mailbox ends the loop |
| Rooms.RepeatedJoinRefused | src/common/room.rs:198-206 | a member joining again changes nothing and gets a `UserInRoom` error |
| Rooms.StrangerLeaveRefused | src/common/room.rs:217-225 | a non-member leaving changes nothing and gets a `UserNotInRoom` error |
| Rooms.ListUsersAnswers | src/common/room.rs:228-240 | the requester gets the room name from the request and every member exactly once |
| Rooms.RegistryCommandsIgnored | src/common/room.rs:185-187 | `NewRoom` and `ListRooms` change nothing in a room |
| Rooms.LookupFailureStops | src/common/room.rs:89-98 | a failed user lookup ends the loop before anything changes |
| Rooms.OrderOf | src/common/room.rs:143 | iterating the members visits each member exactly once |
| Rooms.RoomManager.constructor | src/common/room.rs:73-87 | a new room has its name, no members and no deliveries |
| Rooms.RoomManager.ListUsers | src/common/room.rs:108-110 | lists every member exactly once |
| Rooms.RoomManager.AddUser | src/common/room.rs:112-118 | a member is refused with `UserInRoom`; anyone else is added with their mailbox |
| Rooms.RoomManager.RemoveUser | src/common/room.rs:120-126 | a member is removed; anyone else is refused with `UserNotInRoom` |
| Rooms.Deliver | src/common/room.rs:141-169 | the sending loop delivers exactly the fan-out, and a send failed iff some visited member's mailbox is closed |
| Rooms.RoomManager.SendRoomMessage | src/common/room.rs:128-175 | an empty room gives `NoUsersInRoom`; otherwise one delivery per open member mailbox, and `RoomMessageNotSent` iff some mailbox is closed |
| Rooms.RoomManager.Broadcast | src/common/room.rs:128-175 | performs the fan-out and records its deliveries and its outcome |
| Rooms.RoomManager.SendTo | src/common/room.rs:200-205 | a reply is delivered, or ends the loop when the mailbox is closed |
| Rooms.RoomManager.Handle | src/common/room.rs:177-247 | one turn of the loop performs exactly `Step` |
| RoomRegistry.RoomTexts | src/server/room_handler.rs:69-74 | one text per room, each the room's name |
| RoomRegistry.AfterNotify | src/server/room_handler.rs:112-123 | a notice changes no room, queue or broadcast; a failed lookup ends the loop |
| RoomRegistry.Step | src/server/room_handler.rs:35-99 | each command keeps every room mapped to an existing queue |
| RoomRegistry.NewRoomRegisters | src/server/room_handler.rs:43-66 | the room maps to a fresh queue, replacing an earlier one; the creator is told "You created room: n"; "Room n created" is broadcast |
| RoomRegistry.NewRoomUnnotified | src/server/room_handler.rs:43-58 | when the creator cannot be told, the room is still registered, nothing is announced and the loop ends |
| RoomRegistry.ListRoomsReplies | src/server/room_handler.rs:67-81 | the requester gets one notice listing every room, and nothing else changes |
| RoomRegistry.RoomsTextShape | src/server/room_handler.rs:69-78 | the listing is "Rooms: [" + the names joined by ", " + "]" |
| RoomRegistry.ForwardToKnownRoom | src/server/room_handler.rs:82-95 | join, leave, member listing and room messages for a known room go, unchanged, onto that room's queue and no other |
| RoomRegistry.DropForUnknownRoom | src/server/room_handler.rs:86-95 | the same commands for an unknown room are dropped without a reply |
| RoomRegistry.OnlyNewRoomChangesRooms | src/server/room_handler.rs:67-95 | only `NewRoom` changes which rooms are known |
| RoomRegistry.RoomProcessor.constructor | src/server/room_handler.rs:22-33 | a new registry knows no rooms |
| RoomRegistry.RoomProcessor.NotifyUser | src/server/room_handler.rs:112-123 | looks up the user and sends the notice |
| RoomRegistry.RoomProcessor.NewRoom | src/server/room_handler.rs:43-66 | performs the `NewRoom` step |
| RoomRegistry.RoomProcessor.ListRooms | src/server/room_handler.rs:67-81 | collects every room once and performs the `ListRooms` step with that listing |
| RoomRegistry.RoomProcessor.Forward | src/server/room_handler.rs:82-95 | performs the forwarding step |
| RoomRegistry.RoomProcessor.Handle | src/server/room_handler.rs:35-99 | one turn of the loop performs exactly `Step` and keeps the registry consistent |
| Session.Step | src/server/client_handler.rs:55-150 | nothing the session has written, queued or published is ever taken back |
| Session.StepPreservesValid | src/server/client_handler.rs:55-150 | every event keeps the session invariant: nothing is queued before the handshake; afterwards, the user's registration comes first and every later command forwards a frame in that user's name |
| Session.RunPreservesValid | src/server/client_handler.rs:120-151 | the invariant holds after any sequence of events |
| Session.ForwardedInHandshakeName | src/server/client_handler.rs:122-127 | on any connection, every forwarded frame carries the name the handshake gave, and that user was registered first |
| Session.NonHandshakeRejected | src/server/client_handler.rs:62-65 | a first frame that is not a handshake ends the session with `InvalidHandshake`, and no user is registered |
| Session.HandshakeRegisters | src/server/client_handler.rs:71-76 | a handshake queues the user's registration before any reply is awaited |
| Session.TimeoutCloses | src/server/client_handler.rs:79-83 | a timeout writes "Handshake timeout" and ends the session with `HandshakeTimeout` |
| Session.WrongReplyRejected | src/server/client_handler.rs:84-91 | any reply other than `Complete` ends the session with `InvalidHandshake` |
| Session.CompleteActivates | src/server/client_handler.rs:95-117 | `Complete` activates the session under the handshake's name, writes "Welcome, u!" and publishes the arrival |
| Session.FrameForwarded | src/server/client_handler.rs:122-127 | each frame read is forwarded in the session user's name |
| Session.BroadcastEchoSuppressed | src/server/client_handler.rs:130-135 | a broadcast is written to the client iff someone else sent it |
| Session.MailboxWritten | src/server/client_handler.rs:137-149 | a mailbox message is written whoever sent it; any other mailbox item ends the loop without an error |
| Session.ClosedIsFinal | src/server/client_handler.rs:153-158 | a closed session reacts to no further event |
| Session.ClientHandler.constructor | src/server/client_handler.rs:28-53 | a new session awaits its handshake, having done nothing |
| Session.ClientHandler.ReadHandshake | src/server/client_handler.rs:61-76 | performs the session's reaction to the first frame |
| Session.ClientHandler.AwaitReply | src/server/client_handler.rs:78-102 | performs the session's reaction while it awaits the registration |
| Session.ClientHandler.React | src/server/client_handler.rs:120-150 | performs the active session's reaction to one event |
| Session.ClientHandler.Handle | src/server/client_handler.rs:55-150 | performs `Step` in any phase |
| Session.ClientHandler.Drive | src/server/client_handler.rs:120-151 | a sequence of events leaves the session in `Run`'s state and keeps the invariant |
| Text.Trim | src/client/mod.rs:49 | the trim is a contiguous slice of the line with only whitespace before and after it; it is empty iff the line is all whitespace, and otherwise neither starts nor ends with whitespace |
| Text.Lower | src/client/mod.rs:159 | lowercasing keeps the length and lowercases each character alone |
| Text.SplitRejoin | src/client/mod.rs:198-202 | splitting a joined line at its first separator gives back the head and the tail |
| Text.PadRight | src/common/messages/server.rs:94 | padding keeps the text and fills up to the width with spaces |
| Text.DecimalRoundTrip | src/common/messages/client.rs:58 | a number's decimal digits read back as the number |
| ClientInput.Head | src/client/mod.rs:159 | the head is the line's first word, up to the first space or the end, with each character lowercased |
| ClientInput.ParseUserInput | src/client/mod.rs:154-219 | only the four commands and chat are produced, and a ping carries the given nonce |
| ClientInput.ParseUnparse | src/client/mod.rs:154-219 | typing a message and parsing the line gives the message back: chat, the three fixed commands, and a private message whose recipient has no space |
| ClientInput.ParsePrivateMessage | src/client/mod.rs:197-208 | ":pm user text" gives a private message to that user with the whole remaining text |
| ClientInput.RejectsExactlyUnknownHeads | src/client/mod.rs:209-218 | a line is refused iff it starts with ':' and its lowercased head is no command; a line not starting with ':' is chat, verbatim |
| ClientInput.HeadIsCaseInsensitive | src/client/mod.rs:158-160 | command lines that agree on the lowercased head and on what follows the first space parse alike |
| ClientInput.ShoutedQuit | src/client/mod.rs:158-160 | ":QUIT now" disconnects |
| ClientInput.PrivateMessageParts | src/client/mod.rs:197-207 | ":pm a b c" is to "a" with text "b c": the text keeps its spaces |
| ClientInput.PrivateMessageWithoutText | src/client/mod.rs:197-207 | ":pm a" is to "a" with an empty text |
| ClientInput.BarePrivateMessage | src/client/mod.rs:197-207 | ":pm" is to the empty name with an empty text |
| ClientInput.HandleLineTrims | src/client/mod.rs:49-55 | a blank line gives nothing; any other line is parsed trimmed, so chat text is never empty and never starts or ends with whitespace |
| ClientInput.CommandsTryFrom | src/client/mod.rs:229-235 | the only error is `InvalidCommand` |
| ClientInput.CommandWordsOnly | src/client/mod.rs:229-235 | exactly ":quit" and ":ping" are accepted, each as its own command |
| LegacyClient.ParseUserInput | src/client.rs:151-182 | only chat, disconnect and ping are produced |
| LegacyClient.ExactCommandsOnly | src/client.rs:155-181 | a ':' line is accepted iff it is exactly ":quit" or ":ping"; any other line is chat, verbatim |
| LegacyClient.NearMissesRefused | src/client.rs:156-176 | ":", ":quit x" and ":QUIT" are refused |
| LegacyClient.ForwardLineUntrimmed | src/client.rs:58-64 | blank lines are skipped; other lines are parsed untrimmed, so " :quit" is chat |
| LegacyClient.CommandWordsOnly | src/client.rs:192-198 | exactly ":quit" and ":ping" are accepted, each as its own command |
| LegacyClient.CurrentParserExtendsLegacy | src/client.rs:151-182 | every line the older parser accepts gives the corresponding message in the current parser |

## Left out

- Sockets, channels, tasks and `tokio::select!` are not modelled. A session reacts to one event at a time, chosen by the caller, so fairness and timing are not modelled.
- Socket write errors in the session are not modelled. Neither is a failed send to the server's command queue or the broadcast channel. Both would end the session with an error.
- The handshake's five-second timer is modelled as a `Timeout` event.
- A mailbox item that arrives in a phase that does not wait for it is ignored. In the source it would stay queued.
- The bincode payload layout is not modelled. The codec is a pair of functions that the round-trip lemmas assume to be inverse.
- `ConnectionClosed` is a variant the frame reader returns, but src/connection/error.rs does not declare it. The model includes it.
- Terminal styling (colours, underlining) is not modelled. A styled text is its plain text.
- Padding a styled name (`{:<10}` applied to a crossterm styled value, src/common/messages/server.rs:72,94 and src/common/message.rs:70,75) is modelled as padding its plain text to ten columns. The styled value writes itself through its own formatter, so the real output may not be padded at all; `ServerMessages.PrivateMessageShown` and `LegacyMessages.GetUserShown` state the padded layout.
- The message vocabularies are merged. The room variants of `ClientMessage` are commented out in src/common/messages/client.rs:14-20, and the room variants of `ServerInternal` in src/common/messages/server.rs:37-50. Yet src/server/processor.rs routes them and src/common/room.rs:153,234 sends `ServerInternal::RoomMessage` and `RoomUsers`. The model declares each variant a core file uses, so it accepts programs the source would not compile.
- The session uses an older message vocabulary. src/server/client_handler.rs writes tuple variants `ServerMessage::ServerMessage` and `ServerMessage::Error`, and its broadcast channel carries `(UserName, ServerMessage)` pairs (src/server/mod.rs:18). src/server/processor.rs broadcasts the `ServerMessage` envelope instead. The model keeps the session's pair shape: a broadcast item is a sender and a `ServerInternal` content, the same two fields as the router's envelope. The session's own texts are written as `ServerInternal` notices and errors. So the model joins two versions of the code that do not compile together.
- The client's I/O loops, cursor control, `println!` echoes and the `assert_eq!` on the pong are not modelled.
- The `rand::random` ping nonce is a parameter.
- The delivery order of a room fan-out is not modelled. The source sends through `FuturesUnordered`, in hash-set order. The model delivers in an `order` parameter that lists each member once, and its lemmas state membership only.
- Hash-map iteration order is not modelled for user and room listings. A listing is a parameter constrained to list each key exactly once.
- `Rooms.RoomManager.Handle` takes that order from `Rooms.OrderOf` even for commands that do not iterate.
- The `GetUser` request to the user registry is a lookup-result parameter. src/server/user_handler.rs has no arm for `GetUser`, so the real lookup is not modelled.
- Room errors reach the user as their `Debug` text. The room code's error variants (`UserInRoom`, `UserNotInRoom`, `NoUsersInRoom`, `RoomMessageNotSent`) are not declared in src/common/error.rs, and the user type it carries is not part of this model. So the model shows the user in that text by name only, as in `UserInRoom(name)`.
- `ClientInput.ParseUserInput` lowercases ASCII only. Rust's `to_lowercase` maps no other character to a letter of the four command words, so the same lines are accepted.
- `LegacyMessages` does not use its own `User` and `Room` types: src/common/message.rs imports them from crate paths that no longer declare them. A user is the current `User`, which displays as its name, and a room is the text it displays as.
- `LegacyClient.CommandsTryFrom` returns an error variant that src/error.rs does not declare. The model gives it its own `InvalidCommand` error.
- Process entry points, tracing setup and environment reading are not part of this model.

## Findings

| source | as written | input that shows it | evidently intended | confidence | as-written member | corrected member |
|---|---|---|---|---|---|---|
| src/connection/frame.rs:52-60 | the payload is read with a single `read_buf`, and any shortfall is refused with `InvalidFrameSize` | a valid frame whose payload is longer than what the transport hands over in one read, e.g. a 100-byte payload delivered in two TCP segments | read exactly `size` bytes (`read_exact`), as the length prefix is read, so that a frame split across reads is still accepted | medium, not executed | Frame.SplitPayloadRejected | Frame.FrameRoundTripExact |
