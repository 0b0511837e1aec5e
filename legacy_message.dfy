/**
 * The older message vocabulary of src/common/message.rs, which the older
 * client (src/client.rs) speaks: `ClientMessage` and `ServerMessage` with
 * their `Display` texts and `ServerMessage::get_user`.
 *
 * The user type of that file prints as its name, as `User` does; the room of
 * `RoomJoined` is kept as the text it prints as.
 */
module LegacyMessages {
  import opened Wrappers
  import Text
  import Users

  type User = Users.User

  datatype ClientMessage =
    | Handshake(user: User)
    | ChatMessage(content: string)
    | Ping(nonce: u64)
    | Join(room: string)
    | Create(room: string, description: Option<string>)
    | Leave
    | ListRooms
    | ListUsers
    | Disconnect
    | PrivateMessage(toUser: User, content: string)
  {
    /** The variants `Display` has an arm for; the others reach `todo!()`. */
    predicate HasDisplay()
    {
      Handshake? || ChatMessage? || Ping? || Join?
    }
  }

  /** `Display for ClientMessage`. */
  function DisplayClient(m: ClientMessage): string
    requires m.HasDisplay()
  {
    match m
    case Handshake(user) => "User " + Users.Display(user) + " connected"
    case ChatMessage(content) => content
    case Ping(i) => "Ping: " + Text.NatToString(i)
    case Join(room) => "Joining room: " + room
  }

  /**
   * What each client display tells: the connecting user between fixed words,
   * chat text verbatim, the nonce of a ping read back from its digits, and the
   * room being joined.
   */
  lemma ClientDisplayShowsFields(m: ClientMessage)
    requires m.HasDisplay()
    ensures m.Handshake? ==>
              var s := DisplayClient(m);
              var n := |m.user.username|;
              |s| == n + 15 && s[..5] == "User " && s[5..5 + n] == m.user.username
              && s[5 + n..] == " connected"
    ensures m.ChatMessage? ==> DisplayClient(m) == m.content
    ensures m.Ping? ==> DisplayClient(m)[..6] == "Ping: "
                        && Text.ParseDecimal(DisplayClient(m)[6..]) == m.nonce
    ensures m.Join? ==> DisplayClient(m)[..14] == "Joining room: " && DisplayClient(m)[14..] == m.room
  {
    if m.Ping? {
      assert DisplayClient(m)[6..] == Text.NatToString(m.nonce);
      Text.DecimalRoundTrip(m.nonce);
    }
  }

  datatype ServerMessage =
    | ServerMessage(content: string)
    | ChatMessage(from: User, content: string)
    | PrivateMessage(from: User, content: string)
    | Error(message: string)
    | Pong(nonce: u64)
    | RoomList(rooms: seq<string>)
    | UserList(users: seq<string>)
    | RoomJoined(room: string, user: User)
    | RoomCreated(room: string)
    | RoomLeft(room: string)
    | UserJoined(userName: string)

  const NameWidth: nat := 10
  const PrivateLabel: string := "[PrivateMessage] "

  /** `Display for ServerMessage`, with the terminal colours left out. */
  function DisplayServer(m: ServerMessage): string
  {
    match m
    case ServerMessage(content) => "Server: " + content
    case ChatMessage(from, content) => Text.PadRight(from.username, NameWidth) + ": " + content
    case PrivateMessage(from, content) =>
      PrivateLabel + Text.PadRight(Users.Display(from), NameWidth) + ": " + content
    case Error(message) => "Error: " + message
    case Pong(i) => "Pong: " + Text.NatToString(i)
    case RoomList(rooms) => "Rooms: " + Text.Join(rooms, ", ")
    case UserList(users) => "Users: " + Text.Join(users, ", ")
    case RoomJoined(room, user) =>
      "User " + Users.Display(user) + " joined room: " + room
    case RoomCreated(room) => "Created room: " + room
    case RoomLeft(room) => "Left room: " + room
    case UserJoined(userName) => "User joined: " + userName
  }

  /** `ServerMessage::get_user`: the user a message is about, when it names one. */
  function GetUser(m: ServerMessage): (u: Option<User>)
  {
    match m
    case ChatMessage(from, _) => Some(from)
    case PrivateMessage(from, _) => Some(from)
    case RoomJoined(_, user) => Some(user)
    case _ => None
  }

  /** Where the display of a message starts to show the user it is about. */
  function UserOffset(m: ServerMessage): nat
  {
    if m.ChatMessage? then 0 else if m.PrivateMessage? then |PrivateLabel| else 5
  }

  /**
   * Exactly chat messages, private messages and room joins name a user (the
   * sender, or the user who joined), and their display shows that user's name
   * at a fixed place: first for chat, after the label for a private message,
   * after "User " for a join.
   */
  lemma GetUserShown(m: ServerMessage)
    ensures GetUser(m).Some? <==> m.ChatMessage? || m.PrivateMessage? || m.RoomJoined?
    ensures m.ChatMessage? || m.PrivateMessage? ==> GetUser(m) == Some(m.from)
    ensures m.RoomJoined? ==> GetUser(m) == Some(m.user)
    ensures GetUser(m).Some? ==>
              var name := GetUser(m).value.username;
              var k := UserOffset(m);
              |DisplayServer(m)| >= k + |name| && DisplayServer(m)[k..k + |name|] == name
  {
    match m
    case ChatMessage(from, content) => ChatShowsSender(from, content);
    case PrivateMessage(from, content) => PrivateShowsSender(from, content);
    case RoomJoined(room, user) =>
      assert DisplayServer(m) == "User " + user.username + (" joined room: " + room);
    case _ =>
  }

  /** A chat line starts with its sender's name. */
  lemma ChatShowsSender(from: User, content: string)
    ensures var s := DisplayServer(ServerMessage.ChatMessage(from, content));
            |s| >= |from.username| && s[..|from.username|] == from.username
  {
    var padded := Text.PadRight(from.username, NameWidth);
    var s := DisplayServer(ServerMessage.ChatMessage(from, content));
    assert s == padded + (": " + content);
    assert s[..|from.username|] == padded[..|from.username|];
  }

  /** A private message shows its sender's name right after the label. */
  lemma PrivateShowsSender(from: User, content: string)
    ensures var s := DisplayServer(ServerMessage.PrivateMessage(from, content));
            var n := |from.username|;
            |s| >= |PrivateLabel| + n && s[|PrivateLabel|..|PrivateLabel| + n] == from.username
  {
    var padded := Text.PadRight(from.username, NameWidth);
    var s := DisplayServer(ServerMessage.PrivateMessage(from, content));
    assert s == PrivateLabel + (padded + (": " + content));
    assert s[|PrivateLabel|..|PrivateLabel| + |from.username|] == padded[..|from.username|];
  }

  /**
   * The fields of the plain server messages read back from their display: a
   * pong's nonce from its digits, and the text after each fixed label.
   */
  lemma ServerDisplayShowsFields(m: ServerMessage)
    ensures m.ServerMessage? ==> DisplayServer(m)[..8] == "Server: " && DisplayServer(m)[8..] == m.content
    ensures m.Error? ==> DisplayServer(m)[..7] == "Error: " && DisplayServer(m)[7..] == m.message
    ensures m.Pong? ==> DisplayServer(m)[..6] == "Pong: "
                        && Text.ParseDecimal(DisplayServer(m)[6..]) == m.nonce
    ensures m.RoomList? ==> DisplayServer(m)[..7] == "Rooms: " && DisplayServer(m)[7..] == Text.Join(m.rooms, ", ")
    ensures m.UserList? ==> DisplayServer(m)[..7] == "Users: " && DisplayServer(m)[7..] == Text.Join(m.users, ", ")
    ensures m.RoomCreated? ==> DisplayServer(m)[..14] == "Created room: " && DisplayServer(m)[14..] == m.room
    ensures m.RoomLeft? ==> DisplayServer(m)[..11] == "Left room: " && DisplayServer(m)[11..] == m.room
    ensures m.UserJoined? ==> DisplayServer(m)[..13] == "User joined: " && DisplayServer(m)[13..] == m.userName
  {
    if m.Pong? {
      assert DisplayServer(m)[6..] == Text.NatToString(m.nonce);
      Text.DecimalRoundTrip(m.nonce);
    }
  }
}
