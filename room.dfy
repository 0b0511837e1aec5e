/**
 * The room actor of src/common/room.rs (`RoomManager`). A room has a name
 * and a set of members (identified by name, each with the mailbox their
 * messages go to); it handles one `RoomMessage` at a time: join, leave,
 * list the members, and fan a room message out to every member.
 *
 * `sent` records every delivery the room has made. A mailbox whose session
 * has gone is in `closed`; a send to it fails. The user lookup the room asks
 * of the user registry (`get_user_info`) is an input: the mailbox of the
 * requesting user, or `None` when the lookup fails. Any error that reaches a
 * `?` in `run` ends the room's loop, recorded in `stopped`.
 */
module Rooms {
  import opened Wrappers
  import Users
  import RoomNames
  import S = ServerMessages
  import R = RoomCommands
  import opened Mailboxes
  import Collections

  type UserName = Users.UserName
  type RoomName = RoomNames.RoomName

  /** The errors of the room code (`CommonError` as room.rs uses it). */
  datatype RoomError =
    | UserInRoom(user: UserName)
    | UserNotInRoom(user: UserName)
    | NoUsersInRoom
    | RoomMessageNotSent
    | LookupFailed     // `get_user_info` did not produce the user
    | MailboxClosed    // a direct send to the requesting user's mailbox failed

  /**
   * `e.to_string()`, the text of the `Error` reply to a failed join or leave
   * (the error's `Debug` form, here with the user shown by name).
   */
  function ErrorText(e: RoomError): string
  {
    match e
    case UserInRoom(u) => "UserInRoom(" + u.username + ")"
    case UserNotInRoom(u) => "UserNotInRoom(" + u.username + ")"
    case NoUsersInRoom => "NoUsersInRoom"
    case RoomMessageNotSent => "RoomMessageNotSent"
    case LookupFailed => "LookupFailed"
    case MailboxClosed => "MailboxClosed"
  }

  function JoinedText(u: UserName): string { u.username + " joined the room" }
  function LeftText(u: UserName): string { u.username + " left the room" }

  /** The room's state: its name, its members' mailboxes, the deliveries made, and whether its loop has ended. */
  datatype Room = Room(
    name: RoomName,
    users: map<UserName, nat>,
    sent: seq<Delivery>,
    stopped: Option<RoomError>)

  /** `order` holds every element of `members` once: one iteration order of a hash set. */
  predicate Enumerates(order: seq<UserName>, members: set<UserName>)
  {
    multiset(order) == multiset(members)
  }

  /** `users_in_room`: whether the room has a member. */
  function UsersInRoom(r: Room): (b: bool)
    ensures b <==> exists u :: u in r.users
  {
    r.users != map[]
  }

  /** The envelope a room message from `from` travels in. */
  function RoomEnvelope(room: RoomName, from: UserName, content: string): S.ServerMessage
  {
    S.ServerMessage.ServerMessage(from, S.ServerInternal.RoomMessage(room, from, content))
  }

  /** The deliveries of one fan-out, members visited in `order`, those with a closed mailbox skipped. */
  function FanOut(order: seq<UserName>, users: map<UserName, nat>, msg: S.ServerMessage, closed: set<nat>): (ds: seq<Delivery>)
    requires forall u :: u in order ==> u in users
    ensures |ds| <= |order|
  {
    if order == [] then []
    else
      var rest := FanOut(order[1..], users, msg, closed);
      if users[order[0]] in closed then rest
      else [Delivery(UserHandle(order[0], users[order[0]]), msg)] + rest
  }

  /** A fan-out from position `i` on is the delivery to the member at `i`, if any, then the fan-out from `i + 1`. */
  lemma FanOutUnfold(order: seq<UserName>, users: map<UserName, nat>, msg: S.ServerMessage, closed: set<nat>, i: nat)
    requires forall u :: u in order ==> u in users
    requires i < |order|
    ensures FanOut(order[i..], users, msg, closed)
            == (if users[order[i]] in closed then [] else [Delivery(UserHandle(order[i], users[order[i]]), msg)])
               + FanOut(order[i + 1..], users, msg, closed)
  {
    assert order[i..][1..] == order[i + 1..];
  }

  /**
   * The sending loop of `send_room_message`: every member in `order` is sent
   * `msg`, a closed mailbox counting as a failed send; the deliveries are the
   * fan-out, and some send failed iff a visited mailbox is closed.
   */
  method Deliver(order: seq<UserName>, users: map<UserName, nat>, msg: S.ServerMessage, closed: set<nat>)
    returns (deliveries: seq<Delivery>, failed: bool)
    requires forall u :: u in order ==> u in users
    ensures deliveries == FanOut(order, users, msg, closed)
    ensures failed <==> exists j :: 0 <= j < |order| && users[order[j]] in closed
  {
    deliveries := [];
    failed := false;
    ghost var culprit := 0;
    var i := 0;
    while i < |order|
      invariant 0 <= i <= |order|
      invariant deliveries + FanOut(order[i..], users, msg, closed) == FanOut(order, users, msg, closed)
      invariant failed ==> culprit < i && users[order[culprit]] in closed
      invariant !failed ==> forall j :: 0 <= j < i ==> users[order[j]] !in closed
    {
      var u := order[i];
      FanOutAdvance(order, users, msg, closed, i, deliveries);
      if users[u] in closed {
        failed := true;
        culprit := i;
      } else {
        deliveries := deliveries + [Delivery(UserHandle(u, users[u]), msg)];
      }
      i := i + 1;
    }
    assert order[|order|..] == [];
  }

  /** One step of the sending loop keeps the deliveries a prefix of the fan-out. */
  lemma FanOutAdvance(order: seq<UserName>, users: map<UserName, nat>, msg: S.ServerMessage, closed: set<nat>,
                      i: nat, ds: seq<Delivery>)
    requires forall u :: u in order ==> u in users
    requires i < |order|
    requires ds + FanOut(order[i..], users, msg, closed) == FanOut(order, users, msg, closed)
    ensures var next := if users[order[i]] in closed then ds else ds + [Delivery(UserHandle(order[i], users[order[i]]), msg)];
            next + FanOut(order[i + 1..], users, msg, closed) == FanOut(order, users, msg, closed)
  {
    FanOutUnfold(order, users, msg, closed, i);
    var rest := FanOut(order[i + 1..], users, msg, closed);
    if users[order[i]] !in closed {
      var d := Delivery(UserHandle(order[i], users[order[i]]), msg);
      assert (ds + [d]) + rest == ds + ([d] + rest);
    }
  }

  /** A fan-out delivers `msg`, and only `msg`, to exactly the visited members whose mailbox is open, at that mailbox. */
  lemma {:induction false} FanOutMembers(order: seq<UserName>, users: map<UserName, nat>, msg: S.ServerMessage,
                                         closed: set<nat>, d: Delivery)
    requires forall u :: u in order ==> u in users
    ensures d in FanOut(order, users, msg, closed) <==>
              d.to.name in order && d.to.mailbox == users[d.to.name] && d.to.mailbox !in closed && d.message == msg
  {
    if order != [] {
      FanOutMembers(order[1..], users, msg, closed, d);
      assert forall u :: u in order <==> u == order[0] || u in order[1..];
    }
  }

  /** When no member is visited twice, nobody receives the message twice. */
  lemma {:induction false} FanOutOnce(order: seq<UserName>, users: map<UserName, nat>, msg: S.ServerMessage, closed: set<nat>)
    requires forall u :: u in order ==> u in users
    requires forall i, j :: 0 <= i < j < |order| ==> order[i] != order[j]
    ensures var ds := FanOut(order, users, msg, closed);
            forall i, j :: 0 <= i < j < |ds| ==> ds[i].to.name != ds[j].to.name
  {
    if order != [] {
      var tail := order[1..];
      assert forall i, j :: 0 <= i < j < |tail| ==> tail[i] != tail[j] by {
        forall i, j | 0 <= i < j < |tail| ensures tail[i] != tail[j] {
          assert tail[i] == order[i + 1] && tail[j] == order[j + 1];
        }
      }
      FanOutOnce(tail, users, msg, closed);
      var rest := FanOut(tail, users, msg, closed);
      forall k | 0 <= k < |rest| ensures rest[k].to.name != order[0] {
        FanOutMembers(tail, users, msg, closed, rest[k]);
        var i :| 0 <= i < |tail| && tail[i] == rest[k].to.name;
        assert order[i + 1] == tail[i];
      }
      var ds := FanOut(order, users, msg, closed);
      if users[order[0]] !in closed {
        forall i, j | 0 <= i < j < |ds| ensures ds[i].to.name != ds[j].to.name {
          assert ds[j] == rest[j - 1];
          if i > 0 {
            assert ds[i] == rest[i - 1];
          }
        }
      }
    }
  }

  /** Some visited member has a closed mailbox exactly when some member has one, when every member is visited. */
  lemma SomeClosed(order: seq<UserName>, users: map<UserName, nat>, closed: set<nat>)
    requires forall u :: u in order <==> u in users
    ensures (exists j :: 0 <= j < |order| && users[order[j]] in closed)
            <==> (exists u :: u in users && users[u] in closed)
  {
    if exists u :: u in users && users[u] in closed {
      var u :| u in users && users[u] in closed;
      var j :| 0 <= j < |order| && order[j] == u;
    }
  }

  /** The deliveries a room message makes, and whether the fan-out reports a failure. */
  function AfterRoomMessage(r: Room, from: UserName, content: string, order: seq<UserName>, closed: set<nat>): (r': Room)
    requires Enumerates(order, r.users.Keys)
  {
    if r.users == map[] then r.(stopped := Some(NoUsersInRoom))
    else
      assert forall u :: u in order ==> u in r.users by {
        forall u | u in order ensures u in r.users {
          assert multiset(order)[u] > 0;
        }
      }
      var r1 := r.(sent := r.sent + FanOut(order, r.users, RoomEnvelope(r.name, from, content), closed));
      if exists u :: u in r.users && r.users[u] in closed then r1.(stopped := Some(RoomMessageNotSent))
      else r1
  }

  /** A direct send to one user's mailbox: delivered, or the loop ends if the mailbox is gone. */
  function AfterSend(r: Room, to: UserHandle, msg: S.ServerMessage, closed: set<nat>): Room
  {
    if to.mailbox in closed then r.(stopped := Some(MailboxClosed))
    else r.(sent := r.sent + [Delivery(to, msg)])
  }

  /** The members a command iterates over, if it iterates: after the join, after the leave, or as they are. */
  function Iterated(r: Room, m: R.RoomMessage): set<UserName>
  {
    match m.message
    case JoinRoom => r.users.Keys + {m.fromUser}
    case LeaveRoom => r.users.Keys - {m.fromUser}
    case _ => r.users.Keys
  }

  /**
   * One iteration of `RoomManager::run`. `lookup` is the requesting user's
   * mailbox as `get_user_info` reports it; `order` is the order in which the
   * member set is iterated by the command.
   */
  function Step(r: Room, m: R.RoomMessage, lookup: Option<nat>, order: seq<UserName>, closed: set<nat>): (r': Room)
    requires Enumerates(order, Iterated(r, m))
  {
    if r.stopped.Some? then r
    else
      var from := m.fromUser;
      match m.message
      case NewRoom => r
      case ListRooms => r
      case JoinRoom =>
        if lookup.None? then r.(stopped := Some(LookupFailed))
        else if from in r.users then
          AfterSend(r, UserHandle(from, lookup.value),
                    S.ServerMessage.ServerMessage(from, S.Error(ErrorText(UserInRoom(from)))), closed)
        else
          AfterRoomMessage(r.(users := r.users[from := lookup.value]), from, JoinedText(from), order, closed)
      case LeaveRoom =>
        if lookup.None? then r.(stopped := Some(LookupFailed))
        else if from in r.users then
          AfterRoomMessage(r.(users := r.users - {from}), from, LeftText(from), order, closed)
        else
          AfterSend(r, UserHandle(from, lookup.value),
                    S.ServerMessage.ServerMessage(from, S.Error(ErrorText(UserNotInRoom(from)))), closed)
      case ListUsers =>
        if lookup.None? then r.(stopped := Some(LookupFailed))
        else AfterSend(r, UserHandle(from, lookup.value),
                       S.ServerMessage.ServerMessage(from, S.RoomUsers(m.roomName, order)), closed)
      case RoomMessage(content) =>
        AfterRoomMessage(r, from, content, order, closed)
  }

  // ------------------------------------------------------------ properties

  /** A room message to an empty room sends nothing and ends the loop with `NoUsersInRoom`. */
  lemma EmptyRoomMessageStops(r: Room, from: UserName, room: RoomName, content: string, closed: set<nat>)
    requires r.stopped.None? && r.users == map[]
    ensures Step(r, R.RoomMessage.RoomMessage(from, room, R.RoomInternal.RoomMessage(content)), None, [], closed)
            == r.(stopped := Some(NoUsersInRoom))
  {
  }

  /** When the last member leaves, the leave notice has nobody to go to and the loop ends. */
  lemma LastLeaveStops(r: Room, u: UserName, room: RoomName, mailbox: nat, closed: set<nat>)
    requires r.stopped.None? && r.users.Keys == {u}
    ensures Step(r, R.RoomMessage.RoomMessage(u, room, R.LeaveRoom), Some(mailbox), [], closed)
            == r.(users := map[], stopped := Some(NoUsersInRoom))
  {
    assert r.users - {u} == map[];
  }

  /**
   * A successful join makes the joiner a member with their mailbox and sends
   * "X joined the room" once to every member with an open mailbox, the
   * joiner included, and to nobody else; a closed mailbox among the members
   * makes the fan-out report `RoomMessageNotSent` and end the loop.
   */
  lemma JoinNotifiesMembers(r: Room, u: UserName, room: RoomName, mailbox: nat, order: seq<UserName>,
                            closed: set<nat>, d: Delivery)
    requires r.stopped.None? && u !in r.users
    requires Enumerates(order, r.users.Keys + {u})
    ensures var m := R.RoomMessage.RoomMessage(u, room, R.JoinRoom);
            var r' := Step(r, m, Some(mailbox), order, closed);
            && r'.users == r.users[u := mailbox]
            && r.sent <= r'.sent
            && (d in r'.sent[|r.sent|..] <==>
                  d.to.name in r'.users && d.to.mailbox == r'.users[d.to.name] && d.to.mailbox !in closed
                  && d.message == RoomEnvelope(r.name, u, JoinedText(u)))
            && (r'.stopped.Some? <==> exists v :: v in r'.users && r'.users[v] in closed)
  {
    var users := r.users[u := mailbox];
    assert users.Keys == r.users.Keys + {u};
    assert forall v :: v in order ==> v in users by {
      forall v | v in order ensures v in users { assert multiset(order)[v] > 0; }
    }
    var msg := RoomEnvelope(r.name, u, JoinedText(u));
    FanOutMembers(order, users, msg, closed, d);
    assert d.to.name in order <==> d.to.name in users by {
      assert multiset(order)[d.to.name] == multiset(users.Keys)[d.to.name];
    }
  }

  /** A join by a member changes no membership and sends the error to that user only. */
  lemma RepeatedJoinRefused(r: Room, u: UserName, room: RoomName, mailbox: nat, order: seq<UserName>, closed: set<nat>)
    requires r.stopped.None? && u in r.users && mailbox !in closed
    requires Enumerates(order, r.users.Keys + {u})
    ensures Step(r, R.RoomMessage.RoomMessage(u, room, R.JoinRoom), Some(mailbox), order, closed)
            == r.(sent := r.sent + [Delivery(UserHandle(u, mailbox),
                                             S.ServerMessage.ServerMessage(u, S.Error(ErrorText(UserInRoom(u)))))])
  {
  }

  /** A leave by a non-member changes no membership and sends the error to that user only. */
  lemma StrangerLeaveRefused(r: Room, u: UserName, room: RoomName, mailbox: nat, order: seq<UserName>, closed: set<nat>)
    requires r.stopped.None? && u !in r.users && mailbox !in closed
    requires Enumerates(order, r.users.Keys - {u})
    ensures Step(r, R.RoomMessage.RoomMessage(u, room, R.LeaveRoom), Some(mailbox), order, closed)
            == r.(sent := r.sent + [Delivery(UserHandle(u, mailbox),
                                             S.ServerMessage.ServerMessage(u, S.Error(ErrorText(UserNotInRoom(u)))))])
  {
  }

  /** `ListUsers` answers with the room name the request carried and every member exactly once. */
  lemma ListUsersAnswers(r: Room, u: UserName, room: RoomName, mailbox: nat, order: seq<UserName>, closed: set<nat>)
    requires r.stopped.None? && mailbox !in closed
    requires Enumerates(order, r.users.Keys)
    ensures Step(r, R.RoomMessage.RoomMessage(u, room, R.ListUsers), Some(mailbox), order, closed)
            == r.(sent := r.sent + [Delivery(UserHandle(u, mailbox), S.ServerMessage.ServerMessage(u, S.RoomUsers(room, order)))])
    ensures forall v :: v in order <==> v in r.users
    ensures |order| == |r.users|
  {
    Collections.CollectedExactly(order, r.users.Keys);
  }

  /** `NewRoom` and `ListRooms` reach the room but change nothing. */
  lemma RegistryCommandsIgnored(r: Room, m: R.RoomMessage, lookup: Option<nat>, order: seq<UserName>, closed: set<nat>)
    requires m.message.NewRoom? || m.message.ListRooms?
    requires Enumerates(order, Iterated(r, m))
    ensures Step(r, m, lookup, order, closed) == r
  {
  }

  /** A failed lookup ends the loop before anything is changed or sent. */
  lemma LookupFailureStops(r: Room, m: R.RoomMessage, order: seq<UserName>, closed: set<nat>)
    requires r.stopped.None?
    requires m.message.JoinRoom? || m.message.LeaveRoom? || m.message.ListUsers?
    requires Enumerates(order, Iterated(r, m))
    ensures Step(r, m, None, order, closed) == r.(stopped := Some(LookupFailed))
  {
  }

  // ------------------------------------------------------------- the actor

  /** `RoomManager`: the room as the object its loop updates. */
  class RoomManager {
    var roomName: RoomName
    var users: map<UserName, nat>
    var sent: seq<Delivery>
    var stopped: Option<RoomError>

    function State(): Room
      reads this
    {
      Room(roomName, users, sent, stopped)
    }

    /** `RoomManager::new`: an empty room. */
    constructor (name: RoomName)
      ensures State() == Room(name, map[], [], None)
    {
      roomName := name;
      users := map[];
      sent := [];
      stopped := None;
    }

    /** `list_users`: every member's name once, in the set's iteration order. */
    method ListUsers() returns (names: seq<UserName>)
      ensures Enumerates(names, users.Keys)
      ensures forall u :: u in names <==> u in users
    {
      names := Collections.SetToSeq(users.Keys);
      Collections.CollectedExactly(names, users.Keys);
    }

    /** `add_user`: refused if a member of that name is already in the room. */
    method AddUser(user: UserHandle) returns (r: Result<(), RoomError>)
      modifies this
      ensures old(user.name in users) ==> r == Err(UserInRoom(user.name)) && users == old(users)
      ensures old(user.name !in users) ==> r.Ok? && users == old(users)[user.name := user.mailbox]
      ensures roomName == old(roomName) && sent == old(sent) && stopped == old(stopped)
    {
      if user.name in users {
        return Err(UserInRoom(user.name));
      }
      users := users[user.name := user.mailbox];
      return Ok(());
    }

    /** `remove_user`: refused if there is no member of that name. */
    method RemoveUser(user: UserName) returns (r: Result<(), RoomError>)
      modifies this
      ensures old(user in users) ==> r.Ok? && users == old(users) - {user}
      ensures old(user !in users) ==> r == Err(UserNotInRoom(user)) && users == old(users)
      ensures roomName == old(roomName) && sent == old(sent) && stopped == old(stopped)
    {
      if user in users {
        users := users - {user};
        return Ok(());
      }
      return Err(UserNotInRoom(user));
    }

    /**
     * `send_room_message`: the room message goes to every member, visited in
     * the set's iteration order `order`; a failed send does not stop the
     * others but makes the result `RoomMessageNotSent`.
     */
    method SendRoomMessage(from: UserName, content: string, closed: set<nat>)
      returns (r: Result<(), RoomError>, deliveries: seq<Delivery>, order: seq<UserName>)
      ensures Enumerates(order, users.Keys)
      ensures forall u :: u in order <==> u in users
      ensures users == map[] ==> r == Err(NoUsersInRoom) && deliveries == []
      ensures users != map[] ==> deliveries == FanOut(order, users, RoomEnvelope(roomName, from, content), closed)
      ensures users != map[] ==> (r.Err? <==> exists u :: u in users && users[u] in closed)
      ensures r.Err? ==> r.error == (if users == map[] then NoUsersInRoom else RoomMessageNotSent)
    {
      if users == map[] {
        return Err(NoUsersInRoom), [], [];
      }
      order := Collections.SetToSeq(users.Keys);
      Collections.CollectedExactly(order, users.Keys);
      var failed;
      deliveries, failed := Deliver(order, users, RoomEnvelope(roomName, from, content), closed);
      SomeClosed(order, users, closed);
      r := if failed then Err(RoomMessageNotSent) else Ok(());
    }

    /** `send_room_message(...)?` inside `run`: deliveries logged, an error ends the loop. */
    method Broadcast(from: UserName, content: string, closed: set<nat>) returns (order: seq<UserName>)
      requires stopped.None?
      modifies this
      ensures Enumerates(order, old(users.Keys))
      ensures State() == AfterRoomMessage(old(State()), from, content, order, closed)
    {
      var r, deliveries;
      r, deliveries, order := SendRoomMessage(from, content, closed);
      sent := sent + deliveries;
      if r.Err? {
        stopped := Some(r.error);
      }
    }

    /** `user.user_tx().send(msg).await?` */
    method SendTo(to: UserHandle, msg: S.ServerMessage, closed: set<nat>)
      modifies this
      ensures State() == AfterSend(old(State()), to, msg, closed)
    {
      if to.mailbox in closed {
        stopped := Some(MailboxClosed);
      } else {
        sent := sent + [Delivery(to, msg)];
      }
    }

    /** One iteration of `run`. */
    method Handle(m: R.RoomMessage, lookup: Option<nat>, closed: set<nat>) returns (order: seq<UserName>)
      modifies this
      ensures Enumerates(order, Iterated(old(State()), m))
      ensures State() == Step(old(State()), m, lookup, order, closed)
    {
      order := OrderOf(Iterated(State(), m));
      if stopped.Some? {
        return;
      }
      var from := m.fromUser;
      match m.message {
        case NewRoom =>
        case ListRooms =>
        case JoinRoom =>
          if lookup.None? {
            stopped := Some(LookupFailed);
            return;
          }
          var added := AddUser(UserHandle(from, lookup.value));
          if added.Ok? {
            order := Broadcast(from, JoinedText(from), closed);
          } else {
            SendTo(UserHandle(from, lookup.value),
                   S.ServerMessage.ServerMessage(from, S.Error(ErrorText(added.error))), closed);
          }
        case LeaveRoom =>
          if lookup.None? {
            stopped := Some(LookupFailed);
            return;
          }
          var removed := RemoveUser(from);
          if removed.Ok? {
            order := Broadcast(from, LeftText(from), closed);
          } else {
            SendTo(UserHandle(from, lookup.value),
                   S.ServerMessage.ServerMessage(from, S.Error(ErrorText(removed.error))), closed);
          }
        case ListUsers =>
          if lookup.None? {
            stopped := Some(LookupFailed);
            return;
          }
          order := ListUsers();
          SendTo(UserHandle(from, lookup.value), S.ServerMessage.ServerMessage(from, S.RoomUsers(m.roomName, order)), closed);
        case RoomMessage(content) =>
          order := Broadcast(from, content, closed);
      }
    }
  }

  /** The iteration order a command that does not iterate is modelled with. */
  method OrderOf(members: set<UserName>) returns (order: seq<UserName>)
    ensures Enumerates(order, members)
  {
    order := Collections.SetToSeq(members);
  }
}
