/**
 * `ServerMessage` and `ServerInternal` of src/common/messages/server.rs: the
 * envelope the server sends to a client (sender plus content) and its
 * `Display`, with terminal colours and underlining left out (a styled text is
 * its plain text).
 *
 * `RoomMessage` and `RoomUsers` are the contents src/common/room.rs sends;
 * server.rs has them commented out, together with their `Display` arms.
 */
module ServerMessages {
  import opened Wrappers
  import Text
  import Users
  import RoomNames

  type UserName = Users.UserName
  type RoomName = RoomNames.RoomName

  datatype ServerInternal =
    | ServerMessage(text: string)
    | GlobalChatMessage(fromUser: UserName, content: string)
    | ChatMessage(content: string)
    | PrivateMessage(fromUser: UserName, content: string)
    | UserJoined(user: UserName)
    | UserList(users: seq<UserName>)
    | Error(message: string)
    | Pong(nonce: u16)
    | RoomMessage(room: RoomName, from: UserName, content: string)
    | RoomUsers(room: RoomName, users: seq<UserName>)
  {
    /** The contents without a `Display` arm. */
    predicate IsRoomContent()
    {
      RoomMessage? || RoomUsers?
    }
  }

  datatype ServerMessage = ServerMessage(fromUser: UserName, content: ServerInternal)

  /** The user names of a list, each displayed. */
  function Names(users: seq<UserName>): (r: seq<string>)
    ensures |r| == |users|
    ensures forall i :: 0 <= i < |users| ==> r[i] == users[i].username
  {
    if users == [] then [] else [Users.Display(users[0])] + Names(users[1..])
  }

  /** The text shown for a user list. */
  const NoUsers := "[No Users]"
  const UsersLabel := "[Users]"

  /** `Display for ServerInternal`, colours removed; `{:<10}` pads the sender's name. */
  function DisplayContent(c: ServerInternal): (s: string)
    requires !c.IsRoomContent()
  {
    match c
    case ServerMessage(text) => "Server: " + text
    case ChatMessage(content) => content
    case GlobalChatMessage(from, content) =>
      "[Global] " + Text.PadRight(Users.Display(from), 10) + ": " + content
    case PrivateMessage(from, content) =>
      "[PrivateMessage] " + Text.PadRight(Users.Display(from), 10) + ": " + content
    case Error(message) => "Error: " + message
    case Pong(i) => "Pong: " + Text.NatToString(i)
    case UserList(users) =>
      if |users| == 0 then NoUsers else UsersLabel + " " + Text.Join(Names(users), ", ")
    case UserJoined(user) => "User joined: " + Users.Display(user)
  }

  /** `Display for ServerMessage`: `{from_user}: {content}`. */
  function Display(m: ServerMessage): (s: string)
    requires !m.content.IsRoomContent()
    ensures |s| >= |m.fromUser.username| + 2
    ensures s[..|m.fromUser.username| + 2] == m.fromUser.username + ": "
    ensures s[|m.fromUser.username| + 2..] == DisplayContent(m.content)
  {
    Users.Display(m.fromUser) + ": " + DisplayContent(m.content)
  }

  /**
   * A user list shows the no-users marker exactly when it is empty; otherwise
   * the label, then the names in list order: the first name right after the
   * label and, for a longer list, the rest after a ", ".
   */
  lemma UserListShown(users: seq<UserName>)
    ensures DisplayContent(UserList(users)) == NoUsers <==> |users| == 0
    ensures |users| > 0 ==>
              DisplayContent(UserList(users))
              == UsersLabel + " " + users[0].username
                 + (if |users| == 1 then "" else ", " + Text.Join(Names(users[1..]), ", "))
  {
    if |users| > 0 {
      var s := DisplayContent(UserList(users));
      assert s[..7] == UsersLabel;
      assert s != NoUsers by { assert NoUsers[1] != s[1]; }
      if |users| > 1 {
        assert Names(users)[1..] == Names(users[1..]);
      }
    }
  }

  /**
   * The payload of the plain contents can be read back from their display:
   * the nonce of a pong from its digits, the text of an error, a server notice
   * or a chat message verbatim.
   */
  lemma PlainContentShown(c: ServerInternal)
    requires c.Pong? || c.Error? || c.ServerMessage? || c.ChatMessage?
    ensures c.Pong? ==> DisplayContent(c)[..6] == "Pong: "
                        && Text.ParseDecimal(DisplayContent(c)[6..]) == c.nonce
    ensures c.Error? ==> DisplayContent(c)[..7] == "Error: " && DisplayContent(c)[7..] == c.message
    ensures c.ServerMessage? ==> DisplayContent(c)[..8] == "Server: " && DisplayContent(c)[8..] == c.text
    ensures c.ChatMessage? ==> DisplayContent(c) == c.content
  {
    if c.Pong? {
      assert DisplayContent(c)[6..] == Text.NatToString(c.nonce);
      Text.DecimalRoundTrip(c.nonce);
    }
  }

  /** A private message shows its label, then the sender's name (padded to ten), then the text. */
  lemma PrivateMessageShown(from: UserName, content: string)
    ensures var s := DisplayContent(PrivateMessage(from, content));
            var name := Text.PadRight(from.username, 10);
            s[..17] == "[PrivateMessage] "
            && s[17..17 + |from.username|] == from.username
            && s[17 + |name|..] == ": " + content
  {
    var name := Text.PadRight(from.username, 10);
    var s := DisplayContent(PrivateMessage(from, content));
    assert s == "[PrivateMessage] " + name + ": " + content;
    assert s[17..17 + |name|] == name;
  }
}
