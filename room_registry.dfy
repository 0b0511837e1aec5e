/**
 * The room registry actor of src/server/room_handler.rs (`RoomProcessor`).
 * It owns the map from room name to the inbound channel of that room's actor
 * and handles one `RoomMessage` at a time: it creates rooms, lists them, and
 * forwards every other room command to the room it names.
 *
 * Room channels are numbered; `queues[i]` is everything forwarded to room
 * channel `i`. `sent` records the notices delivered to users' mailboxes and
 * `broadcast` what was published on the broadcast channel. The environment
 * (`Peers`) says what the requesting user's lookup in the user registry
 * gives, which mailboxes and which room actors are gone, and whether the
 * broadcast has a subscriber. An error that reaches a `?` ends the loop,
 * recorded in `stopped`.
 */
module RoomRegistry {
  import opened Wrappers
  import Text
  import Users
  import RoomNames
  import S = ServerMessages
  import R = RoomCommands
  import opened Mailboxes
  import Collections

  type UserName = Users.UserName
  type RoomName = RoomNames.RoomName

  /** Why the registry's loop ended (the `ServerError`s its `?`s can return). */
  datatype ServerError =
    | LookupFailed           // `get_user_info` failed
    | OutputBroadcastFailed  // the requesting user's mailbox is gone
    | RoomBroadcastFailed    // the room actor's channel is gone
    | ServerBroadcastFailed  // nobody subscribes to the broadcast channel

  /**
   * The other ends: the requesting user's mailbox as the user registry
   * reports it, the mailboxes and room channels whose receivers are gone,
   * and whether the broadcast channel has a subscriber.
   */
  datatype Peers = Peers(lookup: Option<nat>, closedMailboxes: set<nat>, deadRooms: set<nat>, subscribed: bool)

  datatype Registry = Registry(
    rooms: map<RoomName, nat>,
    queues: seq<seq<R.RoomMessage>>,
    sent: seq<Delivery>,
    broadcast: seq<S.ServerMessage>,
    stopped: Option<ServerError>)

  /** Every known room's channel exists. */
  predicate Consistent(r: Registry)
  {
    forall n :: n in r.rooms ==> r.rooms[n] < |r.queues|
  }

  const Initial := Registry(map[], [], [], [], None)

  function CreatedNotice(room: RoomName): string { "You created room: " + room.roomName }
  function CreatedAnnouncement(room: RoomName): string { "Room " + room.roomName + " created" }

  /** The displayed names of rooms, in order. */
  function RoomTexts(order: seq<RoomName>): (r: seq<string>)
    ensures |r| == |order|
    ensures forall i :: 0 <= i < |order| ==> r[i] == order[i].roomName
  {
    if order == [] then [] else [RoomNames.Display(order[0])] + RoomTexts(order[1..])
  }

  /** The `ListRooms` reply: `Rooms: [` then the names joined by `, ` then `]`. */
  function RoomsText(order: seq<RoomName>): string
  {
    "Rooms: [" + Text.Join(RoomTexts(order), ", ") + "]"
  }

  /** `order` holds every known room name once: one iteration order of the map's keys. */
  predicate Enumerates(order: seq<RoomName>, r: Registry)
  {
    multiset(order) == multiset(r.rooms.Keys)
  }

  /** `notify_user(from, text)`: look the user up, then send them a server notice. */
  function AfterNotify(r: Registry, from: UserName, text: string, peers: Peers): (r': Registry)
    ensures r'.rooms == r.rooms && r'.queues == r.queues && r'.broadcast == r.broadcast
    ensures peers.lookup.None? ==> r' == r.(stopped := Some(LookupFailed))
  {
    match peers.lookup
    case None => r.(stopped := Some(LookupFailed))
    case Some(mailbox) =>
      if mailbox in peers.closedMailboxes then r.(stopped := Some(OutputBroadcastFailed))
      else r.(sent := r.sent + [Delivery(UserHandle(from, mailbox),
                                         S.ServerMessage.ServerMessage(from, S.ServerInternal.ServerMessage(text)))])
  }

  /** `server_broadcast_tx.send(msg)?` */
  function AfterPublish(r: Registry, msg: S.ServerMessage, peers: Peers): Registry
  {
    if peers.subscribed then r.(broadcast := r.broadcast + [msg])
    else r.(stopped := Some(ServerBroadcastFailed))
  }

  /** The commands that are forwarded to the room they name. */
  predicate IsForwarded(m: R.RoomInternal)
  {
    m.JoinRoom? || m.LeaveRoom? || m.ListUsers? || m.RoomMessage?
  }

  /**
   * One iteration of `RoomProcessor::run`; `order` is the order in which
   * the map yields its keys, used by `ListRooms` only.
   */
  function Step(r: Registry, m: R.RoomMessage, peers: Peers, order: seq<RoomName>): (r': Registry)
    requires Consistent(r)
    requires r.stopped.None? && m.message.ListRooms? ==> Enumerates(order, r)
    ensures Consistent(r')
  {
    if r.stopped.Some? then r
    else
      var from := m.fromUser;
      var room := m.roomName;
      match m.message
      case NewRoom =>
        var r1 := r.(rooms := r.rooms[room := |r.queues|], queues := r.queues + [[]]);
        var r2 := AfterNotify(r1, from, CreatedNotice(room), peers);
        if r2.stopped.Some? then r2
        else AfterPublish(r2, S.ServerMessage.ServerMessage(from, S.ServerInternal.ServerMessage(CreatedAnnouncement(room))), peers)
      case ListRooms =>
        AfterNotify(r, from, RoomsText(order), peers)
      case _ =>
        if room in r.rooms then
          var id := r.rooms[room];
          if id in peers.deadRooms then r.(stopped := Some(RoomBroadcastFailed))
          else r.(queues := r.queues[id := r.queues[id] + [m]])
        else r
  }

  // ------------------------------------------------------------ properties

  /**
   * `NewRoom(n)` maps `n` to a brand-new room channel, replacing any earlier
   * room of that name, tells the creator "You created room: n" and then
   * announces "Room n created" on the broadcast channel.
   */
  lemma NewRoomRegisters(r: Registry, from: UserName, room: RoomName, peers: Peers, mailbox: nat)
    requires Consistent(r) && r.stopped.None?
    requires peers.lookup == Some(mailbox) && mailbox !in peers.closedMailboxes && peers.subscribed
    ensures var r' := Step(r, R.RoomMessage.RoomMessage(from, room, R.NewRoom), peers, []);
            && r'.rooms == r.rooms[room := |r.queues|]
            && (forall n :: n in r.rooms ==> r.rooms[n] != |r.queues|)
            && r'.queues == r.queues + [[]]
            && r'.sent == r.sent + [Delivery(UserHandle(from, mailbox),
                                     S.ServerMessage.ServerMessage(from, S.ServerInternal.ServerMessage(CreatedNotice(room))))]
            && r'.broadcast == r.broadcast + [S.ServerMessage.ServerMessage(from, S.ServerInternal.ServerMessage(CreatedAnnouncement(room)))]
            && r'.stopped.None?
  {
  }

  /**
   * When the creator cannot be notified, the room is still registered, but
   * nothing is announced and the loop ends.
   */
  lemma NewRoomUnnotified(r: Registry, from: UserName, room: RoomName, peers: Peers)
    requires Consistent(r) && r.stopped.None?
    requires peers.lookup.None? || peers.lookup.value in peers.closedMailboxes
    ensures var r' := Step(r, R.RoomMessage.RoomMessage(from, room, R.NewRoom), peers, []);
            && r'.rooms == r.rooms[room := |r.queues|]
            && r'.sent == r.sent && r'.broadcast == r.broadcast
            && r'.stopped == Some(if peers.lookup.None? then LookupFailed else OutputBroadcastFailed)
  {
  }

  /**
   * `ListRooms` sends the requester one notice listing every room, and
   * changes no room and no queue.
   */
  lemma ListRoomsReplies(r: Registry, from: UserName, room: RoomName, peers: Peers, mailbox: nat, order: seq<RoomName>)
    requires Consistent(r) && r.stopped.None? && Enumerates(order, r)
    requires peers.lookup == Some(mailbox) && mailbox !in peers.closedMailboxes
    ensures var r' := Step(r, R.RoomMessage.RoomMessage(from, room, R.ListRooms), peers, order);
            && r'.rooms == r.rooms && r'.queues == r.queues && r'.broadcast == r.broadcast && r'.stopped.None?
            && r'.sent == r.sent + [Delivery(UserHandle(from, mailbox),
                                     S.ServerMessage.ServerMessage(from, S.ServerInternal.ServerMessage(RoomsText(order))))]
    ensures forall n :: n in order <==> n in r.rooms
  {
    Collections.CollectedExactly(order, r.rooms.Keys);
  }

  /** The list of rooms shows each room's name, between `Rooms: [` and `]`, separated by `, `. */
  lemma {:induction false} RoomsTextShape(order: seq<RoomName>, more: RoomName)
    ensures RoomsText([]) == "Rooms: []"
    ensures order != [] ==>
              RoomsText(order + [more]) == "Rooms: [" + Text.Join(RoomTexts(order), ", ") + ", " + more.roomName + "]"
  {
    if order != [] {
      assert RoomTexts(order + [more]) == RoomTexts(order) + [more.roomName];
      Text.JoinAppend(RoomTexts(order), [more.roomName], ", ");
    }
  }

  /**
   * A join, leave, member listing or room message for a known room is put,
   * unchanged, on that room's channel and on no other; nothing else changes.
   */
  lemma ForwardToKnownRoom(r: Registry, m: R.RoomMessage, peers: Peers)
    requires Consistent(r) && r.stopped.None?
    requires IsForwarded(m.message) && m.roomName in r.rooms && r.rooms[m.roomName] !in peers.deadRooms
    ensures var r' := Step(r, m, peers, []);
            var id := r.rooms[m.roomName];
            && r'.rooms == r.rooms && r'.sent == r.sent && r'.broadcast == r.broadcast && r'.stopped.None?
            && |r'.queues| == |r.queues|
            && r'.queues[id] == r.queues[id] + [m]
            && (forall j :: 0 <= j < |r.queues| && j != id ==> r'.queues[j] == r.queues[j])
  {
  }

  /** The same command for an unknown room is dropped: nothing is forwarded, replied or changed. */
  lemma DropForUnknownRoom(r: Registry, m: R.RoomMessage, peers: Peers)
    requires Consistent(r)
    requires IsForwarded(m.message) && m.roomName !in r.rooms
    ensures Step(r, m, peers, []) == r
  {
  }

  /** Only `NewRoom` changes which rooms are known. */
  lemma OnlyNewRoomChangesRooms(r: Registry, m: R.RoomMessage, peers: Peers, order: seq<RoomName>)
    requires Consistent(r)
    requires r.stopped.None? && m.message.ListRooms? ==> Enumerates(order, r)
    requires !m.message.NewRoom?
    ensures Step(r, m, peers, order).rooms == r.rooms
  {
  }

  // ------------------------------------------------------------- the actor

  /** `RoomProcessor`: the registry as the object its loop updates. */
  class RoomProcessor {
    var rooms: map<RoomName, nat>
    var queues: seq<seq<R.RoomMessage>>
    var sent: seq<Delivery>
    var broadcast: seq<S.ServerMessage>
    var stopped: Option<ServerError>

    function State(): Registry
      reads this
    {
      Registry(rooms, queues, sent, broadcast, stopped)
    }

    predicate Valid()
      reads this
    {
      Consistent(State())
    }

    constructor ()
      ensures Valid() && State() == Initial
    {
      rooms := map[];
      queues := [];
      sent := [];
      broadcast := [];
      stopped := None;
    }

    /** `notify_user` */
    method NotifyUser(from: UserName, text: string, peers: Peers)
      modifies this
      ensures State() == AfterNotify(old(State()), from, text, peers)
    {
      match peers.lookup {
        case None =>
          stopped := Some(LookupFailed);
        case Some(mailbox) =>
          if mailbox in peers.closedMailboxes {
            stopped := Some(OutputBroadcastFailed);
          } else {
            sent := sent + [Delivery(UserHandle(from, mailbox),
                                     S.ServerMessage.ServerMessage(from, S.ServerInternal.ServerMessage(text)))];
          }
      }
    }

    /** `NewRoom`: a fresh room channel under that name, then the notice and the announcement. */
    method NewRoom(from: UserName, room: RoomName, peers: Peers)
      requires Valid() && stopped.None?
      modifies this
      ensures Valid()
      ensures State() == Step(old(State()), R.RoomMessage.RoomMessage(from, room, R.NewRoom), peers, [])
    {
      rooms := rooms[room := |queues|];
      queues := queues + [[]];
      NotifyUser(from, CreatedNotice(room), peers);
      if stopped.Some? {
        return;
      }
      var msg := S.ServerMessage.ServerMessage(from, S.ServerInternal.ServerMessage(CreatedAnnouncement(room)));
      if peers.subscribed {
        broadcast := broadcast + [msg];
      } else {
        stopped := Some(ServerBroadcastFailed);
      }
    }

    /** `ListRooms`: the room names are collected in the map's order. */
    method ListRooms(from: UserName, room: RoomName, peers: Peers) returns (order: seq<RoomName>)
      requires Valid() && stopped.None?
      modifies this
      ensures Valid()
      ensures Enumerates(order, old(State()))
      ensures State() == Step(old(State()), R.RoomMessage.RoomMessage(from, room, R.ListRooms), peers, order)
    {
      order := Collections.SetToSeq(rooms.Keys);
      NotifyUser(from, RoomsText(order), peers);
    }

    /** Join, leave, member listing and room messages: forwarded to the named room if it is known. */
    method Forward(m: R.RoomMessage, peers: Peers)
      requires Valid() && stopped.None? && IsForwarded(m.message)
      modifies this
      ensures Valid()
      ensures State() == Step(old(State()), m, peers, [])
    {
      if m.roomName in rooms {
        var id := rooms[m.roomName];
        if id in peers.deadRooms {
          stopped := Some(RoomBroadcastFailed);
        } else {
          queues := queues[id := queues[id] + [m]];
        }
      }
    }

    /** One iteration of `run`; `order` is the key order a `ListRooms` saw. */
    method Handle(m: R.RoomMessage, peers: Peers) returns (order: seq<RoomName>)
      requires Valid()
      modifies this
      ensures Valid()
      ensures old(stopped).None? && m.message.ListRooms? ==> Enumerates(order, old(State()))
      ensures State() == Step(old(State()), m, peers, order)
    {
      order := [];
      if stopped.Some? {
        return;
      }
      match m.message {
        case NewRoom =>
          NewRoom(m.fromUser, m.roomName, peers);
        case ListRooms =>
          order := ListRooms(m.fromUser, m.roomName, peers);
        case _ =>
          Forward(m, peers);
      }
    }
  }
}
