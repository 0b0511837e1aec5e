/**
 * `ClientMessage` of src/common/messages/client.rs: the requests a client
 * sends once its handshake is done, with the builder functions and `Display`.
 *
 * The five variants the file declares are joined by the six room commands
 * that src/server/processor.rs routes (their declarations are commented out
 * in client.rs, and so are their `Display` arms).
 */
module ClientMessages {
  import opened Wrappers
  import Text
  import Users
  import opened RoomNames

  type UserName = Users.UserName

  datatype ClientMessage =
    | GlobalChatMessage(content: string)
    | PrivateMessage(toUser: UserName, content: string)
    | Ping(nonce: u16)
    | ListUsers
    | Disconnect
    | CreateRoom(room: RoomName)
    | JoinRoom(room: RoomName)
    | LeaveRoom(room: RoomName)
    | ListRooms
    | ListRoomUsers(room: RoomName)
    | RoomMessage(room: RoomName, content: string)
  {
    /** The room commands, whose `Display` arms are commented out. */
    predicate IsRoomCommand()
    {
      CreateRoom? || JoinRoom? || LeaveRoom? || ListRooms? || ListRoomUsers? || RoomMessage?
    }
  }

  /** `ClientMessage::global_chat_message`. */
  function NewGlobalChatMessage(content: string): (m: ClientMessage)
    ensures m.GlobalChatMessage? && m.content == content
  {
    GlobalChatMessage(content)
  }

  /** `ClientMessage::private_message`: recipient and text are kept as given. */
  function NewPrivateMessage(toUser: string, content: string): (m: ClientMessage)
    ensures m.PrivateMessage? && m.toUser.username == toUser && m.content == content
  {
    PrivateMessage(Users.FromStr(toUser), content)
  }

  /** `ClientMessage::ping`. */
  function NewPing(nonce: u16): (m: ClientMessage)
    ensures m.Ping? && m.nonce == nonce
  {
    Ping(nonce)
  }

  /** `Display for ClientMessage`; the room commands have no arm. */
  function Display(m: ClientMessage): (s: string)
    requires !m.IsRoomCommand()
  {
    match m
    case GlobalChatMessage(content) => content
    case Ping(i) => "Ping: " + Text.NatToString(i)
    case ListUsers => "Listing users"
    case Disconnect => "Disconnecting"
    case PrivateMessage(to, content) => "Private message to " + Users.Display(to) + ": " + content
  }

  /**
   * What the display of each message tells: chat text verbatim, the nonce of a
   * ping (read back from its digits), and recipient and text of a private
   * message; the fixed texts of the two commands without fields.
   */
  lemma DisplayShowsFields(m: ClientMessage)
    requires !m.IsRoomCommand()
    ensures m.GlobalChatMessage? ==> Display(m) == m.content
    ensures m.Ping? ==> Display(m)[..6] == "Ping: "
                        && Text.ParseDecimal(Display(m)[6..]) == m.nonce
    ensures m.ListUsers? ==> Display(m) == "Listing users"
    ensures m.Disconnect? ==> Display(m) == "Disconnecting"
    ensures m.PrivateMessage? ==>
              var prefix := "Private message to " + m.toUser.username + ": ";
              Display(m)[..|prefix|] == prefix && Display(m)[|prefix|..] == m.content
  {
    if m.Ping? {
      assert Display(m)[6..] == Text.NatToString(m.nonce);
      Text.DecimalRoundTrip(m.nonce);
    }
  }
}
