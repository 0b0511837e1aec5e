/**
 * The command router of src/server/processor.rs. Every message the router
 * takes from its queue becomes exactly one send: a command for the user
 * registry, a command for the room registry, or a message on the global
 * broadcast channel; a `Response` is only logged.
 */
module Processor {
  import opened Wrappers
  import Users
  import RoomNames
  import C = ClientMessages
  import S = ServerMessages
  import U = UserCommands
  import R = RoomCommands
  import P = ProcessCommands

  type UserName = Users.UserName

  /** Where one routed message goes. */
  datatype Routed =
    | ToUsers(userCommand: U.UserMessage)
    | ToRooms(roomCommand: R.RoomMessage)
    | Broadcast(message: S.ServerMessage)
    | Dropped

  /** The room name `ListRooms` is routed with. */
  const PlaceholderRoom := RoomNames.New("N/A")

  /** `handle_internal_message`: user and room commands to their registry; a response is dropped. */
  function HandleInternalMessage(p: P.ProcessInternal): (r: Routed)
    ensures p.UserMessage? <==> r.ToUsers?
    ensures p.RoomMessage? <==> r.ToRooms?
    ensures p.Response? <==> r.Dropped?
    ensures r.ToUsers? ==> r.userCommand == p.userMessage
    ensures r.ToRooms? ==> r.roomCommand == p.roomMessage
  {
    match p
    case UserMessage(u) => ToUsers(u)
    case RoomMessage(m) => ToRooms(m)
    case Response(_) => Dropped
  }

  /** The client messages that become user-registry commands. */
  predicate IsUserCommand(m: C.ClientMessage)
  {
    m.Disconnect? || m.PrivateMessage? || m.Ping? || m.ListUsers?
  }

  /** `handle_client_message`: one client message from `from` becomes one routed command. */
  function HandleClientMessage(from: UserName, m: C.ClientMessage): (r: Routed)
    ensures !r.Dropped?
    ensures r.Broadcast? <==> m.GlobalChatMessage?
    ensures r.ToUsers? <==> IsUserCommand(m)
    ensures r.ToRooms? <==> m.IsRoomCommand()
    ensures r.ToUsers? ==> r.userCommand.fromUser == from
    ensures r.ToRooms? ==> r.roomCommand.fromUser == from
    ensures r.ToRooms? ==> r.roomCommand.roomName == (if m.ListRooms? then PlaceholderRoom else m.room)
  {
    match m
    case Disconnect =>
      HandleInternalMessage(P.UserMessage(U.UserMessage(from, U.DisconnectUser)))
    case GlobalChatMessage(content) =>
      Broadcast(S.ServerMessage.ServerMessage(from, S.GlobalChatMessage(from, content)))
    case PrivateMessage(to, content) =>
      HandleInternalMessage(P.UserMessage(U.UserMessage(from, U.PrivateMessage(to, content))))
    case Ping(nonce) =>
      HandleInternalMessage(P.UserMessage(U.UserMessage(from, U.Ping(nonce))))
    case ListUsers =>
      HandleInternalMessage(P.UserMessage(U.UserMessage(from, U.ListUsers)))
    case CreateRoom(room) =>
      HandleInternalMessage(P.RoomMessage(R.RoomMessage.RoomMessage(from, room, R.NewRoom)))
    case JoinRoom(room) =>
      HandleInternalMessage(P.RoomMessage(R.RoomMessage.RoomMessage(from, room, R.JoinRoom)))
    case LeaveRoom(room) =>
      HandleInternalMessage(P.RoomMessage(R.RoomMessage.RoomMessage(from, room, R.LeaveRoom)))
    case ListRooms =>
      HandleInternalMessage(P.RoomMessage(R.RoomMessage.RoomMessage(from, PlaceholderRoom, R.ListRooms)))
    case ListRoomUsers(room) =>
      HandleInternalMessage(P.RoomMessage(R.RoomMessage.RoomMessage(from, room, R.ListUsers)))
    case RoomMessage(room, content) =>
      HandleInternalMessage(P.RoomMessage(R.RoomMessage.RoomMessage(from, room, R.RoomInternal.RoomMessage(content))))
  }

  /** `handle_server_message`: the envelope goes on the broadcast channel as it is. */
  function HandleServerMessage(from: UserName, m: S.ServerMessage): (r: Routed)
    ensures r.Broadcast? && r.message == m
  {
    Broadcast(m)
  }

  /** One iteration of `run`: the message taken from the queue is handed to its handler. */
  function Dispatch(pm: P.ProcessMessage): (r: Routed)
    ensures r.Dropped? <==> pm.Internal? && pm.internal.Response?
    ensures pm.ServerMessage? ==> r == Broadcast(pm.serverMessage)
  {
    match pm
    case Internal(p) => HandleInternalMessage(p)
    case ClientMessage(from, m) => HandleClientMessage(from, m)
    case ServerMessage(from, m) => HandleServerMessage(from, m)
  }

  /**
   * Whether each of the router's outgoing channels can take a send at the
   * moment a message is handled: the user registry's and the room registry's
   * queues are open while their receivers live, and a broadcast succeeds only
   * while some session subscribes (the channel's first receiver is dropped
   * when the server is set up).
   */
  datatype Channels = Channels(userRegistryOpen: bool, roomRegistryOpen: bool, hasSubscribers: bool)

  /** The `ServerError` variants a failed send of the router becomes. */
  datatype RouterError = UserBroadcastFailed | RoomBroadcastFailed | ServerBroadcastFailed

  /** The error the send of a routed output raises on these channels, if any. */
  function SendFailure(r: Routed, ch: Channels): (e: Option<RouterError>)
    ensures e == Some(UserBroadcastFailed) <==> r.ToUsers? && !ch.userRegistryOpen
    ensures e == Some(RoomBroadcastFailed) <==> r.ToRooms? && !ch.roomRegistryOpen
    ensures e == Some(ServerBroadcastFailed) <==> r.Broadcast? && !ch.hasSubscribers
  {
    match r
    case ToUsers(_) => if ch.userRegistryOpen then None else Some(UserBroadcastFailed)
    case ToRooms(_) => if ch.roomRegistryOpen then None else Some(RoomBroadcastFailed)
    case Broadcast(_) => if ch.hasSubscribers then None else Some(ServerBroadcastFailed)
    case Dropped => None
  }

  /** What `run` did with its queue: the outputs sent, and the error that ended it, if one did. */
  datatype Outcome = Outcome(sent: seq<Routed>, stopped: Option<RouterError>)

  /**
   * `run` over a queue of messages, `channels[i]` being the state of the
   * channels when `queue[i]` is handled: each message is dispatched in queue
   * order until a send fails; the `?` then ends the loop with that error, and
   * no later message is routed. A drained queue ends the loop with `Ok`.
   */
  function Run(queue: seq<P.ProcessMessage>, channels: seq<Channels>): (o: Outcome)
    requires |channels| == |queue|
    ensures |o.sent| <= |queue|
    ensures forall i :: 0 <= i < |o.sent| ==>
              o.sent[i] == Dispatch(queue[i]) && SendFailure(o.sent[i], channels[i]).None?
    ensures o.stopped.None? <==> |o.sent| == |queue|
    ensures o.stopped.Some? ==> o.stopped == SendFailure(Dispatch(queue[|o.sent|]), channels[|o.sent|])
    decreases |queue|
  {
    if queue == [] then Outcome([], None)
    else
      var r := Dispatch(queue[0]);
      match SendFailure(r, channels[0])
      case Some(e) => Outcome([], Some(e))
      case None =>
        var rest := Run(queue[1..], channels[1..]);
        Outcome([r] + rest.sent, rest.stopped)
  }

  /** The routed outputs of a queue when every send succeeds. */
  function DispatchAll(queue: seq<P.ProcessMessage>): (out: seq<Routed>)
    ensures |out| == |queue|
    ensures forall i :: 0 <= i < |queue| ==> out[i] == Dispatch(queue[i])
    decreases |queue|
  {
    if queue == [] then [] else [Dispatch(queue[0])] + DispatchAll(queue[1..])
  }

  /**
   * The router stops at the first failed send and nowhere else: at `k`, the
   * first position whose send fails, the outputs are the dispatches of the
   * messages before it and the error is that send's; with no failing position
   * every message is routed and the loop ends with `Ok`.
   */
  lemma RunStopsAtFirstFailure(queue: seq<P.ProcessMessage>, channels: seq<Channels>, k: nat)
    requires |channels| == |queue|
    requires k <= |queue|
    requires forall i :: 0 <= i < k ==> SendFailure(Dispatch(queue[i]), channels[i]).None?
    requires k < |queue| ==> SendFailure(Dispatch(queue[k]), channels[k]).Some?
    ensures Run(queue, channels).sent == DispatchAll(queue[..k])
    ensures Run(queue, channels).stopped == (if k < |queue| then SendFailure(Dispatch(queue[k]), channels[k]) else None)
  {
    var o := Run(queue, channels);
    assert |o.sent| == k;
    assert o.sent == DispatchAll(queue[..k]);
  }

  /**
   * A global chat message handled while no session subscribes ends the router
   * with `ServerBroadcastFailed`, and nothing queued after it is routed.
   */
  lemma UnheardChatStopsRouter(queue: seq<P.ProcessMessage>, channels: seq<Channels>,
                               from: UserName, content: string)
    requires |queue| > 0 && |channels| == |queue|
    requires queue[0] == P.ClientMessage(from, C.GlobalChatMessage(content))
    requires !channels[0].hasSubscribers
    ensures Run(queue, channels) == Outcome([], Some(ServerBroadcastFailed))
  {
  }

  /** A response is only logged, so it can never end the router, whatever the channels. */
  lemma ResponsesNeverStop(queue: seq<P.ProcessMessage>, channels: seq<Channels>)
    requires |channels| == |queue|
    requires forall i :: 0 <= i < |queue| ==> queue[i].Internal? && queue[i].internal.Response?
    ensures Run(queue, channels) == Outcome(DispatchAll(queue), None)
  {
    RunStopsAtFirstFailure(queue, channels, |queue|);
    assert queue[..|queue|] == queue;
  }

  /**
   * The client command a routed output came from: the reading of a routed
   * command back into the sender and the client message.
   */
  function Unroute(r: Routed): Option<(UserName, C.ClientMessage)>
  {
    match r
    case ToUsers(um) =>
      (match um.message
       case DisconnectUser => Some((um.fromUser, C.Disconnect))
       case PrivateMessage(to, content) => Some((um.fromUser, C.PrivateMessage(to, content)))
       case Ping(nonce) => Some((um.fromUser, C.Ping(nonce)))
       case ListUsers => Some((um.fromUser, C.ListUsers))
       case NewUser => None)
    case ToRooms(rm) =>
      (match rm.message
       case NewRoom => Some((rm.fromUser, C.CreateRoom(rm.roomName)))
       case JoinRoom => Some((rm.fromUser, C.JoinRoom(rm.roomName)))
       case LeaveRoom => Some((rm.fromUser, C.LeaveRoom(rm.roomName)))
       case ListRooms => Some((rm.fromUser, C.ListRooms))
       case ListUsers => Some((rm.fromUser, C.ListRoomUsers(rm.roomName)))
       case RoomMessage(content) => Some((rm.fromUser, C.RoomMessage(rm.roomName, content))))
    case Broadcast(sm) =>
      if sm.content.GlobalChatMessage? && sm.content.fromUser == sm.fromUser
      then Some((sm.fromUser, C.GlobalChatMessage(sm.content.content)))
      else None
    case Dropped => None
  }

  /**
   * Routing loses nothing: sender and message, ping nonce, recipient, room and
   * text included, are recovered from the routed output.
   */
  lemma RoutingLosesNothing(from: UserName, m: C.ClientMessage)
    ensures Unroute(HandleClientMessage(from, m)) == Some((from, m))
  {
  }

  /** Hence two different client messages are never routed alike. */
  lemma RoutingInjective(f1: UserName, m1: C.ClientMessage, f2: UserName, m2: C.ClientMessage)
    requires HandleClientMessage(f1, m1) == HandleClientMessage(f2, m2)
    ensures f1 == f2 && m1 == m2
  {
    RoutingLosesNothing(f1, m1);
    RoutingLosesNothing(f2, m2);
  }

  /**
   * A global chat message is broadcast as a chat envelope whose sender, both
   * outside and inside, is the sending user; nothing goes to a registry.
   */
  lemma GlobalChatIsBroadcast(from: UserName, content: string)
    ensures HandleClientMessage(from, C.GlobalChatMessage(content))
            == Broadcast(S.ServerMessage.ServerMessage(from, S.GlobalChatMessage(from, content)))
  {
  }

  /**
   * Each client command lands on the registry command the table of
   * `handle_client_message` names, with the ping nonce unchanged.
   */
  lemma CommandTable(from: UserName, m: C.ClientMessage)
    ensures m.Disconnect? ==> HandleClientMessage(from, m).userCommand.message == U.DisconnectUser
    ensures m.Ping? ==> HandleClientMessage(from, m).userCommand.message == U.Ping(m.nonce)
    ensures m.PrivateMessage? ==>
              HandleClientMessage(from, m).userCommand.message == U.PrivateMessage(m.toUser, m.content)
    ensures m.ListUsers? ==> HandleClientMessage(from, m).userCommand.message == U.ListUsers
    ensures m.CreateRoom? ==> HandleClientMessage(from, m).roomCommand.message == R.NewRoom
    ensures m.JoinRoom? ==> HandleClientMessage(from, m).roomCommand.message == R.JoinRoom
    ensures m.LeaveRoom? ==> HandleClientMessage(from, m).roomCommand.message == R.LeaveRoom
    ensures m.ListRooms? ==> HandleClientMessage(from, m).roomCommand.message == R.ListRooms
    ensures m.ListRoomUsers? ==> HandleClientMessage(from, m).roomCommand.message == R.ListUsers
    ensures m.RoomMessage? ==> HandleClientMessage(from, m).roomCommand.message == R.RoomInternal.RoomMessage(m.content)
  {
  }
}
