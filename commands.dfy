/** The user registry's command vocabulary, src/common/messages/user.rs. */
module UserCommands {
  import opened Wrappers
  import Users

  type UserName = Users.UserName

  /**
   * The commands the user registry's loop handles. The reply channel that
   * `NewUser` carries is the mailbox the registry hands back, returned by the
   * registry method instead of sent on a channel.
   */
  datatype UserInternal =
    | NewUser
    | PrivateMessage(toUser: UserName, content: string)
    | DisconnectUser
    | Ping(nonce: u16)
    | ListUsers

  datatype UserMessage = UserMessage(fromUser: UserName, message: UserInternal)
}

/** The room commands, src/common/messages/room.rs. */
module RoomCommands {
  import Users
  import RoomNames

  type UserName = Users.UserName
  type RoomName = RoomNames.RoomName

  datatype RoomInternal =
    | NewRoom
    | JoinRoom
    | LeaveRoom
    | ListRooms
    | ListUsers
    | RoomMessage(content: string)

  datatype RoomMessage = RoomMessage(fromUser: UserName, roomName: RoomName, message: RoomInternal)
}

/** The command router's inbound vocabulary, src/common/messages/process.rs. */
module ProcessCommands {
  import Users
  import ClientMessages
  import ServerMessages
  import UserCommands
  import RoomCommands

  type UserName = Users.UserName

  /** `ProcessResponse::UserCreated`; the mailbox receiver it carries is not modelled. */
  datatype ProcessResponse = UserCreated(username: UserName)

  datatype ProcessInternal =
    | UserMessage(userMessage: UserCommands.UserMessage)
    | RoomMessage(roomMessage: RoomCommands.RoomMessage)
    | Response(response: ProcessResponse)

  datatype ProcessMessage =
    | ClientMessage(fromUser: UserName, message: ClientMessages.ClientMessage)
    | ServerMessage(fromUser: UserName, serverMessage: ServerMessages.ServerMessage)
    | Internal(internal: ProcessInternal)
}

/**
 * Mailboxes: each connected user owns a private queue of server messages;
 * other components hold a handle to it and deliver by sending on it. A
 * mailbox is named by a number; a send fails when the receiving session has
 * gone, which the caller passes in as the set of closed mailboxes.
 */
module Mailboxes {
  import Users
  import ServerMessages

  type UserName = Users.UserName

  /** A registered user as the room code sees it: the name and the handle of the mailbox. */
  datatype UserHandle = UserHandle(name: UserName, mailbox: nat)

  /** One message placed in one user's mailbox. */
  datatype Delivery = Delivery(to: UserHandle, message: ServerMessages.ServerMessage)
}
