/**
 * The user registry actor of src/server/user_handler.rs. It owns the map
 * from user name to that user's mailbox and handles one `UserMessage` at a
 * time: it registers and removes users, delivers private messages, answers
 * pings and lists the users, and announces arrivals and departures on the
 * server's broadcast channel.
 *
 * Mailboxes are numbered; `mailboxes[i]` is everything delivered to mailbox
 * `i` so far, and `broadcast` everything published on the broadcast channel.
 * A send to a mailbox whose session has gone, or a publish with nobody
 * subscribed, fails; the `?` after it ends the registry's loop, which the
 * model records in `stopped`. Which mailboxes are gone and whether anybody
 * listens are the `Peers` the caller passes in.
 */
module UserRegistry {
  import opened Wrappers
  import Users
  import S = ServerMessages
  import U = UserCommands
  import Collections

  type UserName = Users.UserName

  /** Why the registry's loop ended. */
  datatype SendError =
    | MailboxClosed    // `mpsc::Sender::send` on a mailbox whose receiver is gone
    | NoSubscribers    // `broadcast::Sender::send` with no receiver subscribed
    | ReplyDropped     // the `unwrap` of the `NewUser` reply panics: the requester dropped its receiver

  /**
   * The other ends of the channels: the mailboxes whose sessions have gone,
   * whether the broadcast has a subscriber, and whether the sender of a
   * `NewUser` request has dropped the receiver of its reply.
   */
  datatype Peers = Peers(closed: set<nat>, subscribed: bool, requesterGone: bool)

  /** The registry's state. */
  datatype Registry = Registry(
    users: map<UserName, nat>,
    mailboxes: seq<seq<S.ServerMessage>>,
    broadcast: seq<S.ServerMessage>,
    stopped: Option<SendError>)

  /** Every registered user's mailbox exists. */
  predicate Consistent(r: Registry)
  {
    forall u :: u in r.users ==> r.users[u] < |r.mailboxes|
  }

  /** `UserProcessor::new`: nobody registered, nothing sent. */
  const Initial := Registry(map[], [], [], None)

  function JoinedText(u: UserName): string { u.username + " joined the server" }
  function DisconnectedText(u: UserName): string { u.username + " disconnected" }
  const SelfMessageText := "You can't send a private message to yourself"
  function NotFoundText(to: UserName): string { "User not found: " + to.username }

  /** Sending `msg` to mailbox `id`: appended there, or the loop ends if that mailbox is gone. */
  function AfterSend(r: Registry, id: nat, msg: S.ServerMessage, peers: Peers): (r': Registry)
    requires id < |r.mailboxes|
  {
    if id in peers.closed then r.(stopped := Some(MailboxClosed))
    else r.(mailboxes := r.mailboxes[id := r.mailboxes[id] + [msg]])
  }

  /** Publishing `msg` on the broadcast channel: logged, or the loop ends if nobody subscribes. */
  function AfterPublish(r: Registry, msg: S.ServerMessage, peers: Peers): (r': Registry)
  {
    if peers.subscribed then r.(broadcast := r.broadcast + [msg])
    else r.(stopped := Some(NoSubscribers))
  }

  /** `listing` holds every registered name once, in some order (a hash map's key order). */
  predicate Enumerates(listing: seq<UserName>, r: Registry)
  {
    multiset(listing) == multiset(r.users.Keys)
  }

  /**
   * One iteration of `UserProcessor::run`. `listing` is the order in which
   * the map yields its keys, used by `ListUsers` only. A stopped registry
   * handles nothing.
   */
  function Step(r: Registry, m: U.UserMessage, peers: Peers, listing: seq<UserName>): (r': Registry)
    requires Consistent(r)
    requires r.stopped.None? && m.message.ListUsers? ==> Enumerates(listing, r)
    ensures Consistent(r')
    ensures |r'.mailboxes| == |r.mailboxes| + (if r.stopped.None? && m.message.NewUser? then 1 else 0)
  {
    if r.stopped.Some? then r
    else
      var from := m.fromUser;
      match m.message
      case NewUser =>
        var r1 := r.(users := r.users[from := |r.mailboxes|], mailboxes := r.mailboxes + [[]]);
        if peers.requesterGone then r1.(stopped := Some(ReplyDropped))
        else AfterPublish(r1, S.ServerMessage.ServerMessage(from, S.ServerInternal.ServerMessage(JoinedText(from))), peers)
      case DisconnectUser =>
        AfterPublish(r.(users := r.users - {from}),
                     S.ServerMessage.ServerMessage(from, S.ServerInternal.ServerMessage(DisconnectedText(from))), peers)
      case PrivateMessage(to, content) =>
        if to in r.users then
          if to == from then
            AfterSend(r, r.users[to], S.ServerMessage.ServerMessage(from, S.Error(SelfMessageText)), peers)
          else
            AfterSend(r, r.users[to], S.ServerMessage.ServerMessage(from, S.PrivateMessage(from, content)), peers)
        else if from in r.users then
          AfterSend(r, r.users[from], S.ServerMessage.ServerMessage(from, S.Error(NotFoundText(to))), peers)
        else r
      case Ping(nonce) =>
        if from in r.users then AfterSend(r, r.users[from], S.ServerMessage.ServerMessage(from, S.Pong(nonce)), peers)
        else r
      case ListUsers =>
        if from in r.users then AfterSend(r, r.users[from], S.ServerMessage.ServerMessage(from, S.UserList(listing)), peers)
        else r
  }

  // ------------------------------------------------------------ properties

  /**
   * `NewUser(u)` maps `u` to a brand-new, empty mailbox, replacing any
   * earlier entry for `u`, and announces the arrival on the broadcast
   * channel; no mailbox receives anything. When the requester has dropped
   * its reply receiver, the `unwrap` panics after the insert: the loop ends
   * and nothing is announced.
   */
  lemma NewUserRegisters(r: Registry, u: UserName, peers: Peers)
    requires Consistent(r) && r.stopped.None?
    ensures var r' := Step(r, U.UserMessage(u, U.NewUser), peers, []);
            && r'.users == r.users[u := |r.mailboxes|]
            && (forall v :: v in r.users ==> r.users[v] != |r.mailboxes|)
            && r'.mailboxes == r.mailboxes + [[]]
            && (peers.requesterGone ==> r'.broadcast == r.broadcast && r'.stopped == Some(ReplyDropped))
            && (!peers.requesterGone && peers.subscribed ==>
                  r'.broadcast == r.broadcast + [S.ServerMessage.ServerMessage(u, S.ServerInternal.ServerMessage(JoinedText(u)))]
                  && r'.stopped.None?)
            && (!peers.requesterGone && !peers.subscribed ==>
                  r'.broadcast == r.broadcast && r'.stopped == Some(NoSubscribers))
  {
  }

  /**
   * `DisconnectUser(u)` removes `u` and nothing else, whether or not `u` was
   * registered, delivers nothing, and announces the departure.
   */
  lemma DisconnectRemoves(r: Registry, u: UserName, peers: Peers)
    requires Consistent(r) && r.stopped.None?
    ensures var r' := Step(r, U.UserMessage(u, U.DisconnectUser), peers, []);
            && u !in r'.users
            && (forall v :: v != u ==> (v in r'.users <==> v in r.users))
            && (forall v :: v in r'.users ==> r'.users[v] == r.users[v])
            && r'.mailboxes == r.mailboxes
            && (peers.subscribed ==>
                  r'.broadcast == r.broadcast + [S.ServerMessage.ServerMessage(u, S.ServerInternal.ServerMessage(DisconnectedText(u)))]
                  && r'.stopped.None?)
            && (!peers.subscribed ==> r'.broadcast == r.broadcast && r'.stopped == Some(NoSubscribers))
  {
  }

  /** Only the mailbox `id` may have changed, and only by appending the messages in `added`. */
  predicate OnlyAppended(r: Registry, r': Registry, id: nat, added: seq<S.ServerMessage>)
  {
    && |r'.mailboxes| == |r.mailboxes|
    && id < |r.mailboxes|
    && r'.mailboxes[id] == r.mailboxes[id] + added
    && (forall j :: 0 <= j < |r.mailboxes| && j != id ==> r'.mailboxes[j] == r.mailboxes[j])
  }

  /**
   * A private message to a registered other user appends exactly one
   * `PrivateMessage` from the sender to the recipient's mailbox and to no
   * other; one to oneself appends the refusal and no private message.
   */
  lemma PrivateMessageToRegistered(r: Registry, from: UserName, to: UserName, content: string, peers: Peers)
    requires Consistent(r) && r.stopped.None?
    requires to in r.users && r.users[to] !in peers.closed
    ensures var r' := Step(r, U.UserMessage(from, U.PrivateMessage(to, content)), peers, []);
            && r'.users == r.users && r'.broadcast == r.broadcast && r'.stopped.None?
            && OnlyAppended(r, r', r.users[to],
                 [S.ServerMessage.ServerMessage(from,
                    if to == from then S.Error(SelfMessageText) else S.PrivateMessage(from, content))])
  {
  }

  /**
   * A private message to an unknown name tells the sender "User not found",
   * in the sender's mailbox only, and only when the sender is registered.
   */
  lemma PrivateMessageToUnknown(r: Registry, from: UserName, to: UserName, content: string, peers: Peers)
    requires Consistent(r) && r.stopped.None?
    requires to !in r.users
    ensures var r' := Step(r, U.UserMessage(from, U.PrivateMessage(to, content)), peers, []);
            && (from in r.users && r.users[from] !in peers.closed ==>
                  r'.stopped.None? && r'.users == r.users && r'.broadcast == r.broadcast
                  && OnlyAppended(r, r', r.users[from],
                       [S.ServerMessage.ServerMessage(from, S.Error(NotFoundText(to)))]))
            && (from !in r.users ==> r' == r)
  {
  }

  /** A ping from a registered user is answered by a pong with the same nonce; from anybody else, by nothing. */
  lemma PingAnswered(r: Registry, from: UserName, nonce: u16, peers: Peers)
    requires Consistent(r) && r.stopped.None?
    ensures var r' := Step(r, U.UserMessage(from, U.Ping(nonce)), peers, []);
            && (from in r.users && r.users[from] !in peers.closed ==>
                  r'.stopped.None? && r'.users == r.users && r'.broadcast == r.broadcast
                  && OnlyAppended(r, r', r.users[from], [S.ServerMessage.ServerMessage(from, S.Pong(nonce))]))
            && (from !in r.users ==> r' == r)
  {
  }

  /**
   * `ListUsers` answers a registered sender with a list holding every
   * registered name exactly once, and no other name.
   */
  lemma ListUsersIsComplete(r: Registry, from: UserName, peers: Peers, listing: seq<UserName>)
    requires Consistent(r) && r.stopped.None?
    requires Enumerates(listing, r)
    requires from in r.users && r.users[from] !in peers.closed
    ensures var r' := Step(r, U.UserMessage(from, U.ListUsers), peers, listing);
            && OnlyAppended(r, r', r.users[from], [S.ServerMessage.ServerMessage(from, S.UserList(listing))])
            && r'.stopped.None?
            && (forall v :: v in listing <==> v in r.users)
            && |listing| == |r.users|
  {
    Collections.CollectedExactly(listing, r.users.Keys);
  }

  /** Only `NewUser` and `DisconnectUser` change who is registered. */
  lemma OnlyMembershipCommandsChangeUsers(r: Registry, m: U.UserMessage, peers: Peers, listing: seq<UserName>)
    requires Consistent(r)
    requires m.message.ListUsers? ==> Enumerates(listing, r)
    requires !m.message.NewUser? && !m.message.DisconnectUser?
    ensures Step(r, m, peers, listing).users == r.users
    ensures Step(r, m, peers, listing).broadcast == r.broadcast
  {
  }

  /** Once the loop has ended, nothing more is handled. */
  lemma StoppedIgnoresAll(r: Registry, m: U.UserMessage, peers: Peers, listing: seq<UserName>)
    requires Consistent(r) && r.stopped.Some?
    ensures Step(r, m, peers, listing) == r
  {
  }

  /**
   * Messages are only ever appended: one command never takes anything out of
   * a mailbox or off the broadcast log.
   */
  lemma StepOnlyAppends(r: Registry, m: U.UserMessage, peers: Peers, listing: seq<UserName>)
    requires Consistent(r)
    requires m.message.ListUsers? ==> Enumerates(listing, r)
    ensures var r' := Step(r, m, peers, listing);
            && r.broadcast <= r'.broadcast
            && forall i :: 0 <= i < |r.mailboxes| ==> r.mailboxes[i] <= r'.mailboxes[i]
  {
  }

  // ------------------------------------------------------------- the actor

  /** `UserProcessor`: the registry as the object its loop updates. */
  class UserProcessor {
    var users: map<UserName, nat>
    var mailboxes: seq<seq<S.ServerMessage>>
    var broadcast: seq<S.ServerMessage>
    var stopped: Option<SendError>

    function State(): Registry
      reads this
    {
      Registry(users, mailboxes, broadcast, stopped)
    }

    predicate Valid()
      reads this
    {
      Consistent(State())
    }

    constructor ()
      ensures Valid() && State() == Initial
    {
      users := map[];
      mailboxes := [];
      broadcast := [];
      stopped := None;
    }

    /** `to_user_tx.send(msg).await?` */
    method SendTo(id: nat, msg: S.ServerMessage, peers: Peers)
      requires id < |mailboxes|
      modifies this
      ensures State() == AfterSend(old(State()), id, msg, peers)
    {
      if id in peers.closed {
        stopped := Some(MailboxClosed);
      } else {
        mailboxes := mailboxes[id := mailboxes[id] + [msg]];
      }
    }

    /** `server_broadcast_tx.send(msg)?` */
    method Publish(msg: S.ServerMessage, peers: Peers)
      modifies this
      ensures State() == AfterPublish(old(State()), msg, peers)
    {
      if peers.subscribed {
        broadcast := broadcast + [msg];
      } else {
        stopped := Some(NoSubscribers);
      }
    }

    /** `NewUser`: registers `from` with a fresh mailbox, returned to the requester. */
    method NewUser(from: UserName, peers: Peers) returns (mailbox: nat)
      requires Valid() && stopped.None?
      modifies this
      ensures Valid()
      ensures State() == Step(old(State()), U.UserMessage(from, U.NewUser), peers, [])
      ensures mailbox == old(|mailboxes|) && mailboxes[mailbox] == []
    {
      mailbox := |mailboxes|;
      users := users[from := mailbox];
      mailboxes := mailboxes + [[]];
      if peers.requesterGone {
        stopped := Some(ReplyDropped);
      } else {
        Publish(S.ServerMessage.ServerMessage(from, S.ServerInternal.ServerMessage(JoinedText(from))), peers);
      }
    }

    /** `DisconnectUser` */
    method DisconnectUser(from: UserName, peers: Peers)
      requires Valid() && stopped.None?
      modifies this
      ensures Valid()
      ensures State() == Step(old(State()), U.UserMessage(from, U.DisconnectUser), peers, [])
    {
      users := users - {from};
      Publish(S.ServerMessage.ServerMessage(from, S.ServerInternal.ServerMessage(DisconnectedText(from))), peers);
    }

    /** `PrivateMessage { to_user, content }` */
    method PrivateMessage(from: UserName, to: UserName, content: string, peers: Peers)
      requires Valid() && stopped.None?
      modifies this
      ensures Valid()
      ensures State() == Step(old(State()), U.UserMessage(from, U.PrivateMessage(to, content)), peers, [])
    {
      if to in users {
        if to == from {
          SendTo(users[to], S.ServerMessage.ServerMessage(from, S.Error(SelfMessageText)), peers);
        } else {
          SendTo(users[to], S.ServerMessage.ServerMessage(from, S.PrivateMessage(from, content)), peers);
        }
      } else if from in users {
        SendTo(users[from], S.ServerMessage.ServerMessage(from, S.Error(NotFoundText(to))), peers);
      }
    }

    /** `Ping(nonce)` */
    method Ping(from: UserName, nonce: u16, peers: Peers)
      requires Valid() && stopped.None?
      modifies this
      ensures Valid()
      ensures State() == Step(old(State()), U.UserMessage(from, U.Ping(nonce)), peers, [])
    {
      if from in users {
        SendTo(users[from], S.ServerMessage.ServerMessage(from, S.Pong(nonce)), peers);
      }
    }

    /** `ListUsers`: the keys are collected, in the map's order, before the reply is sent. */
    method ListUsers(from: UserName, peers: Peers) returns (listing: seq<UserName>)
      requires Valid() && stopped.None?
      modifies this
      ensures Valid()
      ensures Enumerates(listing, old(State()))
      ensures State() == Step(old(State()), U.UserMessage(from, U.ListUsers), peers, listing)
    {
      listing := Collections.SetToSeq(users.Keys);
      if from in users {
        SendTo(users[from], S.ServerMessage.ServerMessage(from, S.UserList(listing)), peers);
      }
    }

    /**
     * One iteration of `run`: the command is handled unless the loop has
     * already ended. `listing` is the key order a `ListUsers` saw.
     */
    method Handle(m: U.UserMessage, peers: Peers) returns (listing: seq<UserName>)
      requires Valid()
      modifies this
      ensures Valid()
      ensures old(stopped).None? && m.message.ListUsers? ==> Enumerates(listing, old(State()))
      ensures State() == Step(old(State()), m, peers, listing)
    {
      listing := [];
      if stopped.Some? {
        return;
      }
      match m.message {
        case NewUser =>
          var _ := NewUser(m.fromUser, peers);
        case DisconnectUser =>
          DisconnectUser(m.fromUser, peers);
        case PrivateMessage(to, content) =>
          PrivateMessage(m.fromUser, to, content, peers);
        case Ping(nonce) =>
          Ping(m.fromUser, nonce, peers);
        case ListUsers =>
          listing := ListUsers(m.fromUser, peers);
      }
    }
  }
}
