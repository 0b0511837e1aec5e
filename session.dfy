/**
 * One client's session on the server, src/server/client_handler.rs
 * (`ClientHandler::authenticate` followed by `ClientHandler::run`), as a
 * state machine that reacts to one event at a time.
 *
 * The session first waits for a handshake frame, registers the user with
 * the server, and waits for the registration to complete or time out. Once
 * active, it forwards every frame the client sends to the server's command
 * queue, and writes to the client what arrives on the broadcast channel
 * (unless the client sent it) and in its own mailbox.
 *
 * This file belongs to an iteration whose vocabulary differs from the
 * other files': the client's frames include the handshake, the session
 * registers the user itself with `NewUser`, and the registration is
 * confirmed by a `Complete` response. Those shapes are declared here. What
 * the session writes to its client are server contents (`ServerInternal`).
 */
module Session {
  import opened Wrappers
  import Users
  import C = ClientMessages
  import S = ServerMessages
  import Frame

  type UserName = Users.UserName

  /** A frame the client sends: the handshake naming the user, or a command. */
  datatype ClientFrame =
    | Handshake(user: UserName)
    | Command(message: C.ClientMessage)

  /** What the session puts on the server's command queue. */
  datatype Command =
    | NewUser(user: UserName)                              // `ProcessInternal::NewUser(user, client_tx)`
    | Forward(fromUser: UserName, frame: ClientFrame)      // `ProcessMessage::ClientMessage { from_user, message }`

  /** What arrives in the session's own mailbox. */
  datatype MailboxItem =
    | ServerMessage(fromUser: UserName, message: S.ServerInternal)   // `ProcessMessage::ServerMessage`
    | Complete                                                       // `ProcessResponse::Complete`
    | OtherItem                                                      // any other `ProcessMessage`

  /** One event the session can react to. */
  datatype Event =
    | Inbound(frame: Result<ClientFrame, Frame.ConnectionError>)  // a frame read from the client, or the read's error
    | Broadcast(sender: UserName, message: S.ServerInternal)     // an item received on the broadcast channel
    | Mailbox(item: MailboxItem)                                 // an item received in the mailbox
    | Timeout                                                    // the handshake's five seconds have passed

  /** Why a session ended with an error. */
  datatype SessionError =
    | InvalidHandshake
    | HandshakeTimeout
    | Connection(error: Frame.ConnectionError)

  datatype Phase =
    | AwaitingHandshake
    | AwaitingReply(user: UserName)
    | Active(user: UserName)
    | Closed(error: Option<SessionError>)   // `None`: the loop ended without an error

  /** The session: its phase, and everything it has written, queued and published so far. */
  datatype State = State(
    phase: Phase,
    written: seq<S.ServerInternal>,
    commands: seq<Command>,
    published: seq<(UserName, S.ServerInternal)>)

  const Initial := State(AwaitingHandshake, [], [], [])

  const TimeoutText := "Handshake timeout"
  function WelcomeText(u: UserName): string { "Welcome, " + u.username + "!" }
  function JoinedText(u: UserName): string { u.username + " joined the server" }

  /** The session's reaction to one event; an event its phase does not wait for changes nothing. */
  function Step(s: State, e: Event): (s': State)
    ensures s.written <= s'.written && s.commands <= s'.commands && s.published <= s'.published
  {
    match s.phase
    case AwaitingHandshake =>
      (match e
       case Inbound(Err(err)) => s.(phase := Closed(Some(Connection(err))))
       case Inbound(Ok(Handshake(u))) => s.(phase := AwaitingReply(u), commands := s.commands + [NewUser(u)])
       case Inbound(Ok(Command(_))) => s.(phase := Closed(Some(InvalidHandshake)))
       case _ => s)
    case AwaitingReply(u) =>
      (match e
       case Timeout =>
         s.(phase := Closed(Some(HandshakeTimeout)), written := s.written + [S.Error(TimeoutText)])
       case Mailbox(Complete) =>
         s.(phase := Active(u),
            written := s.written + [S.ServerInternal.ServerMessage(WelcomeText(u))],
            published := s.published + [(u, S.ServerInternal.ServerMessage(JoinedText(u)))])
       case Mailbox(_) => s.(phase := Closed(Some(InvalidHandshake)))
       case _ => s)
    case Active(u) =>
      (match e
       case Inbound(Ok(f)) => s.(commands := s.commands + [Forward(u, f)])
       case Inbound(Err(_)) => s
       case Broadcast(sender, m) => if sender != u then s.(written := s.written + [m]) else s
       case Mailbox(ServerMessage(_, m)) => s.(written := s.written + [m])
       case Mailbox(_) => s.(phase := Closed(None))
       case Timeout => s)
    case Closed(_) => s
  }

  /** The session after a sequence of events. */
  function Run(s: State, events: seq<Event>): State
    decreases |events|
  {
    if events == [] then s else Run(Step(s, events[0]), events[1..])
  }

  // ------------------------------------------------------------ properties

  /** The commands of one user: its registration, then frames forwarded in its name. */
  predicate AttributedTo(commands: seq<Command>, u: UserName)
  {
    && |commands| >= 1
    && commands[0] == NewUser(u)
    && forall i :: 1 <= i < |commands| ==> commands[i].Forward? && commands[i].fromUser == u
  }

  /**
   * What every reachable session satisfies: nothing is queued before the
   * handshake; after it, the first command registers the handshake's user
   * and every later one forwards a frame in that user's name; the arrival is
   * published exactly once, on activation.
   */
  predicate Valid(s: State)
  {
    match s.phase
    case AwaitingHandshake => s.commands == [] && s.written == [] && s.published == []
    case AwaitingReply(u) => s.commands == [NewUser(u)] && s.written == [] && s.published == []
    case Active(u) =>
      AttributedTo(s.commands, u) && s.published == [(u, S.ServerInternal.ServerMessage(JoinedText(u)))]
    case Closed(_) =>
      s.commands == [] || (s.commands[0].NewUser? && AttributedTo(s.commands, s.commands[0].user))
  }

  lemma StepPreservesValid(s: State, e: Event)
    requires Valid(s)
    ensures Valid(Step(s, e))
  {
    var s' := Step(s, e);
    if s.phase.Active? && s'.commands != s.commands {
      var u := s.phase.user;
      assert s'.commands == s.commands + [Forward(u, e.frame.value)];
      assert forall i :: 1 <= i < |s.commands| ==> s'.commands[i] == s.commands[i];
    }
  }

  lemma {:induction false} RunPreservesValid(s: State, events: seq<Event>)
    requires Valid(s)
    ensures Valid(Run(s, events))
    decreases |events|
  {
    if events != [] {
      StepPreservesValid(s, events[0]);
      RunPreservesValid(Step(s, events[0]), events[1..]);
    }
  }

  /**
   * Hence, whatever happens on a connection, every frame the session
   * forwards carries the user name its handshake gave, and that user was
   * registered first.
   */
  lemma ForwardedInHandshakeName(events: seq<Event>, i: nat)
    requires 1 <= i < |Run(Initial, events).commands|
    ensures var cs := Run(Initial, events).commands;
            cs[0].NewUser? && cs[i].Forward? && cs[i].fromUser == cs[0].user
  {
    RunPreservesValid(Initial, events);
  }

  /** A first frame that is not a handshake ends the session; no user is registered. */
  lemma NonHandshakeRejected(message: C.ClientMessage)
    ensures Step(Initial, Inbound(Ok(Command(message)))) == Initial.(phase := Closed(Some(InvalidHandshake)))
  {
  }

  /** A handshake registers its user before any reply is awaited, and writes nothing yet. */
  lemma HandshakeRegisters(u: UserName)
    ensures Step(Initial, Inbound(Ok(Handshake(u)))) == State(AwaitingReply(u), [], [NewUser(u)], [])
  {
  }

  /** A timeout while waiting writes "Handshake timeout" and ends the session with `HandshakeTimeout`. */
  lemma TimeoutCloses(s: State, u: UserName)
    requires s.phase == AwaitingReply(u)
    ensures Step(s, Timeout) == s.(phase := Closed(Some(HandshakeTimeout)), written := s.written + [S.Error(TimeoutText)])
  {
  }

  /** Any reply other than `Complete` ends the session with `InvalidHandshake`, writing nothing. */
  lemma WrongReplyRejected(s: State, u: UserName, item: MailboxItem)
    requires s.phase == AwaitingReply(u) && !item.Complete?
    ensures Step(s, Mailbox(item)) == s.(phase := Closed(Some(InvalidHandshake)))
  {
  }

  /** `Complete` welcomes the user under the handshake's name and announces the arrival to the others. */
  lemma CompleteActivates(s: State, u: UserName)
    requires s.phase == AwaitingReply(u)
    ensures var s' := Step(s, Mailbox(Complete));
            && s'.phase == Active(u)
            && s'.written == s.written + [S.ServerInternal.ServerMessage(WelcomeText(u))]
            && s'.published == s.published + [(u, S.ServerInternal.ServerMessage(JoinedText(u)))]
  {
  }

  /** An active session forwards each frame read, in its user's name, and writes nothing for it. */
  lemma FrameForwarded(s: State, u: UserName, f: ClientFrame)
    requires s.phase == Active(u)
    ensures Step(s, Inbound(Ok(f))) == s.(commands := s.commands + [Forward(u, f)])
  {
  }

  /** A broadcast is written to the client exactly when someone else sent it. */
  lemma BroadcastEchoSuppressed(s: State, u: UserName, sender: UserName, m: S.ServerInternal)
    requires s.phase == Active(u)
    ensures var s' := Step(s, Broadcast(sender, m));
            (s'.written == s.written + [m] <==> sender != u) && (sender == u <==> s' == s)
  {
    var s' := Step(s, Broadcast(sender, m));
    if sender == u {
      assert |s'.written| == |s.written|;
    }
  }

  /** A mailbox message is written whoever sent it; anything else in the mailbox ends the loop without an error. */
  lemma MailboxWritten(s: State, u: UserName, item: MailboxItem)
    requires s.phase == Active(u)
    ensures item.ServerMessage? ==> Step(s, Mailbox(item)) == s.(written := s.written + [item.message])
    ensures !item.ServerMessage? ==> Step(s, Mailbox(item)) == s.(phase := Closed(None))
  {
  }

  /** A closed session reacts to nothing. */
  lemma {:induction false} ClosedIsFinal(s: State, events: seq<Event>)
    requires s.phase.Closed?
    ensures Run(s, events) == s
    decreases |events|
  {
    if events != [] {
      ClosedIsFinal(Step(s, events[0]), events[1..]);
    }
  }

  // -------------------------------------------------------------- the class

  /** `ClientHandler`: the session as the object its handlers update. */
  class ClientHandler {
    var phase: Phase
    var written: seq<S.ServerInternal>
    var commands: seq<Command>
    var published: seq<(UserName, S.ServerInternal)>

    function Snapshot(): State
      reads this
    {
      State(phase, written, commands, published)
    }

    /** A fresh connection, waiting for its handshake. */
    constructor ()
      ensures Snapshot() == Initial
    {
      phase := AwaitingHandshake;
      written := [];
      commands := [];
      published := [];
    }

    /** `authenticate`, before the handshake: the first frame must be a handshake. */
    method ReadHandshake(frame: Result<ClientFrame, Frame.ConnectionError>)
      requires phase.AwaitingHandshake?
      modifies this
      ensures Snapshot() == Step(old(Snapshot()), Inbound(frame))
    {
      match frame {
        case Err(err) =>
          phase := Closed(Some(Connection(err)));
        case Ok(Handshake(u)) =>
          commands := commands + [NewUser(u)];
          phase := AwaitingReply(u);
        case Ok(Command(_)) =>
          phase := Closed(Some(InvalidHandshake));
      }
    }

    /** `authenticate`, waiting for the registration: a timeout or the first mailbox item decides. */
    method AwaitReply(e: Event)
      requires phase.AwaitingReply?
      modifies this
      ensures Snapshot() == Step(old(Snapshot()), e)
    {
      var u := phase.user;
      match e {
        case Timeout =>
          written := written + [S.Error(TimeoutText)];
          phase := Closed(Some(HandshakeTimeout));
        case Mailbox(item) =>
          if item.Complete? {
            written := written + [S.ServerInternal.ServerMessage(WelcomeText(u))];
            phase := Active(u);
            published := published + [(u, S.ServerInternal.ServerMessage(JoinedText(u)))];
          } else {
            phase := Closed(Some(InvalidHandshake));
          }
        case Inbound(_) =>
        case Broadcast(_, _) =>
      }
    }

    /** One turn of `run`'s loop. */
    method React(e: Event)
      requires phase.Active?
      modifies this
      ensures Snapshot() == Step(old(Snapshot()), e)
    {
      var u := phase.user;
      match e {
        case Inbound(Ok(f)) =>
          commands := commands + [Forward(u, f)];
        case Inbound(Err(_)) =>
        case Broadcast(sender, m) =>
          if sender != u {
            written := written + [m];
          }
        case Mailbox(ServerMessage(_, m)) =>
          written := written + [m];
        case Mailbox(_) =>
          phase := Closed(None);
        case Timeout =>
      }
    }

    /** Any event, dispatched on the phase. */
    method Handle(e: Event)
      modifies this
      ensures Snapshot() == Step(old(Snapshot()), e)
    {
      match phase {
        case AwaitingHandshake =>
          if e.Inbound? {
            ReadHandshake(e.frame);
          }
        case AwaitingReply(_) =>
          AwaitReply(e);
        case Active(_) =>
          React(e);
        case Closed(_) =>
      }
    }

    /** The session driven through a sequence of events; every state it passes through is valid. */
    method Drive(events: seq<Event>)
      requires Valid(Snapshot())
      modifies this
      ensures Valid(Snapshot())
      ensures Snapshot() == Run(old(Snapshot()), events)
    {
      var i := 0;
      while i < |events|
        invariant 0 <= i <= |events|
        invariant Valid(Snapshot())
        invariant Run(old(Snapshot()), events) == Run(Snapshot(), events[i..])
      {
        assert events[i..][1..] == events[i + 1..];
        StepPreservesValid(Snapshot(), events[i]);
        Handle(events[i]);
        i := i + 1;
      }
    }
  }
}
