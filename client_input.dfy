/**
 * The command-line parser of the current client (src/client/mod.rs): how a
 * line typed by the user becomes a `ClientMessage`, the trim-and-skip rule
 * applied to every line before it is parsed, and `Commands::try_from`.
 *
 * The random nonce of `:ping` is a parameter; the echo of the line and the
 * log output are left out.
 */
module ClientInput {
  import opened Wrappers
  import Text
  import Users
  import opened ClientMessages

  /** The command heads the parser knows, as they appear after lowercasing. */
  const QuitHead: string := ":quit"
  const UsersHead: string := ":users"
  const PingHead: string := ":ping"
  const PmHead: string := ":pm"

  predicate IsCommandLine(line: string)
  {
    |line| > 0 && line[0] == ':'
  }

  /** The first space-separated word of the line, lowercased. */
  function Head(line: string): (h: string)
    ensures |h| <= |line| && (|h| < |line| ==> line[|h|] == ' ')
    ensures forall i :: 0 <= i < |h| ==> line[i] != ' ' && h[i] == Text.LowerChar(line[i])
    ensures ' ' !in h
  {
    Text.Lower(Text.Before(line, ' '))
  }

  /**
   * `parse_user_input`: a line that does not start with ':' is chat text,
   * taken verbatim; otherwise the lowercased first word picks the command.
   * `:pm` splits the line at its first two spaces into head, recipient and
   * text, a missing part reading as the empty string.
   */
  function ParseUserInput(line: string, nonce: u16): (r: Option<ClientMessage>)
    ensures r.Some? ==> !r.value.IsRoomCommand()
    ensures r.Some? && r.value.Ping? ==> r.value.nonce == nonce
  {
    if !IsCommandLine(line) then
      Some(NewGlobalChatMessage(line))
    else
      var head := Head(line);
      if head == QuitHead then Some(Disconnect)
      else if head == UsersHead then Some(ListUsers)
      else if head == PingHead then Some(NewPing(nonce))
      else if head == PmHead then
        var rest := Text.OrEmpty(Text.After(line, ' '));
        Some(NewPrivateMessage(Text.Before(rest, ' '), Text.OrEmpty(Text.After(rest, ' '))))
      else None
  }

  /**
   * The reaction of `handle_user_input` to one line read from the terminal:
   * the line is trimmed, a blank line is skipped, and the trimmed line is
   * parsed.
   */
  function HandleLine(raw: string, nonce: u16): (r: Option<ClientMessage>)
  {
    var line := Text.Trim(raw);
    if line == [] then None else ParseUserInput(line, nonce)
  }

  /** The messages the parser can produce, given how they are typed. */
  predicate Typeable(m: ClientMessage)
  {
    match m
    case GlobalChatMessage(content) => !IsCommandLine(content)
    case PrivateMessage(to, _) => ' ' !in to.username
    case Ping(_) => true
    case ListUsers => true
    case Disconnect => true
    case _ => false
  }

  /** How a user types each message the parser understands. */
  function Unparse(m: ClientMessage): string
    requires Typeable(m)
  {
    match m
    case GlobalChatMessage(content) => content
    case PrivateMessage(to, content) => PmHead + " " + to.username + " " + content
    case Ping(_) => PingHead
    case ListUsers => UsersHead
    case Disconnect => QuitHead
  }

  /** A word without capitals is its own lowercase form. */
  lemma LowerFixed(s: string)
    requires forall i :: 0 <= i < |s| ==> !('A' <= s[i] <= 'Z')
    ensures Text.Lower(s) == s
  {
  }

  /** A line that is a bare word without spaces has that word, lowercased, as its head. */
  lemma HeadOfWord(line: string)
    requires ' ' !in line
    ensures Head(line) == Text.Lower(line)
  {
    Text.SplitNone(line, ' ');
  }

  /** A command word without spaces or capitals is its own head. */
  lemma HeadOfCommandWord(w: string)
    requires ' ' !in w
    requires forall i :: 0 <= i < |w| ==> !('A' <= w[i] <= 'Z')
    ensures Head(w) == w
  {
    HeadOfWord(w);
    LowerFixed(w);
  }

  /** A typed private message is read back with its recipient and its whole text. */
  lemma ParsePrivateMessage(user: string, content: string, nonce: u16)
    requires ' ' !in user
    ensures ParseUserInput(PmHead + " " + user + " " + content, nonce)
            == Some(NewPrivateMessage(user, content))
  {
    var rest := user + " " + content;
    assert PmHead + " " + user + " " + content == PmHead + [' '] + rest;
    Text.SplitRejoin(PmHead, ' ', rest);
    LowerFixed(PmHead);
    assert rest == user + [' '] + content;
    Text.SplitRejoin(user, ' ', content);
  }

  /**
   * Typing a message and parsing the line gives the message back: chat text
   * verbatim, the three fixed commands, and a private message whose recipient
   * has no space (its text may have any).
   */
  lemma ParseUnparse(m: ClientMessage, nonce: u16)
    requires Typeable(m)
    requires m.Ping? ==> m.nonce == nonce
    ensures ParseUserInput(Unparse(m), nonce) == Some(m)
  {
    match m
    case GlobalChatMessage(_) =>
    case PrivateMessage(to, content) =>
      ParsePrivateMessage(to.username, content, nonce);
      Users.NameRoundTrip(to.username, to);
    case Ping(_) =>
      HeadOfCommandWord(PingHead);
    case ListUsers =>
      HeadOfCommandWord(UsersHead);
    case Disconnect =>
      HeadOfCommandWord(QuitHead);
  }

  /**
   * The parser rejects a line exactly when it starts with ':' and its head is
   * none of the four commands; a line not starting with ':' is always chat.
   */
  lemma RejectsExactlyUnknownHeads(line: string, nonce: u16)
    ensures ParseUserInput(line, nonce).None?
            <==> IsCommandLine(line) && Head(line) !in {QuitHead, UsersHead, PingHead, PmHead}
    ensures !IsCommandLine(line) ==> ParseUserInput(line, nonce) == Some(GlobalChatMessage(line))
  {
  }

  /**
   * Only the first word and what follows its first space decide the result,
   * and the first word only through its lowercase form: two command lines
   * that agree on those parse alike.
   */
  lemma HeadIsCaseInsensitive(a: string, b: string, nonce: u16)
    requires IsCommandLine(a) && IsCommandLine(b)
    requires Text.Lower(Text.Before(a, ' ')) == Text.Lower(Text.Before(b, ' '))
    requires Text.After(a, ' ') == Text.After(b, ' ')
    ensures ParseUserInput(a, nonce) == ParseUserInput(b, nonce)
  {
  }

  /** Capitals and trailing words do not stop a command: ":QUIT now" disconnects. */
  lemma ShoutedQuit(nonce: u16)
    ensures ParseUserInput(":QUIT now", nonce) == Some(Disconnect)
  {
    var line := ":QUIT now";
    assert line == ":QUIT" + [' '] + "now";
    Text.SplitRejoin(":QUIT", ' ', "now");
    assert Text.Lower(":QUIT") == QuitHead;
  }

  /**
   * `:pm` takes the recipient up to the next space and the rest of the line
   * as the text, spaces included.
   */
  lemma PrivateMessageParts(nonce: u16)
    ensures ParseUserInput(":pm a b c", nonce) == Some(NewPrivateMessage("a", "b c"))
  {
    assert ":pm a b c" == PmHead + " " + "a" + " " + "b c";
    ParsePrivateMessage("a", "b c", nonce);
  }

  /** A `:pm` line without text sends an empty text. */
  lemma PrivateMessageWithoutText(nonce: u16)
    ensures ParseUserInput(":pm a", nonce) == Some(NewPrivateMessage("a", ""))
  {
    assert ":pm a" == PmHead + [' '] + "a";
    Text.SplitRejoin(PmHead, ' ', "a");
    Text.SplitNone("a", ' ');
    LowerFixed(PmHead);
  }

  /** A bare `:pm` sends an empty text to the empty name. */
  lemma BarePrivateMessage(nonce: u16)
    ensures ParseUserInput(":pm", nonce) == Some(NewPrivateMessage("", ""))
  {
    HeadOfCommandWord(PmHead);
    Text.SplitNone(PmHead, ' ');
    Text.SplitNone("", ' ');
  }

  /** The only chat text the parser produces is the whole line. */
  lemma ChatIsVerbatim(line: string, nonce: u16)
    ensures ParseUserInput(line, nonce).Some? && ParseUserInput(line, nonce).value.GlobalChatMessage? ==>
              ParseUserInput(line, nonce).value.content == line
  {
  }

  /**
   * Blank lines produce nothing; any other line is parsed after trimming, so
   * chat text never starts or ends with whitespace and is never empty.
   */
  lemma HandleLineTrims(raw: string, nonce: u16)
    ensures Text.AllWhitespace(raw) ==> HandleLine(raw, nonce).None?
    ensures !Text.AllWhitespace(raw) ==> HandleLine(raw, nonce) == ParseUserInput(Text.Trim(raw), nonce)
    ensures HandleLine(raw, nonce).Some? && HandleLine(raw, nonce).value.GlobalChatMessage? ==>
              var c := HandleLine(raw, nonce).value.content;
              c != [] && !Text.IsWhitespace(c[0]) && !Text.IsWhitespace(c[|c| - 1])
  {
    var line := Text.Trim(raw);
    assert line == [] <==> Text.AllWhitespace(raw);
    if line == [] {
      assert HandleLine(raw, nonce) == None;
    } else {
      assert HandleLine(raw, nonce) == ParseUserInput(line, nonce);
      ChatIsVerbatim(line, nonce);
    }
  }

  /** The commands of `Commands::try_from`. */
  datatype Command = Quit | Ping

  /** `ClientError`; the connection and I/O variants wrap errors of other layers. */
  datatype ClientError = Connection | Io | InvalidCommand

  /** `Commands::try_from`: the whole text must be one of the two command words. */
  function CommandsTryFrom(value: string): (r: Result<Command, ClientError>)
    ensures r.Err? ==> r.error == InvalidCommand
  {
    if value == QuitHead then Ok(Command.Quit)
    else if value == PingHead then Ok(Command.Ping)
    else Err(InvalidCommand)
  }

  /** The word of each command. */
  function CommandWord(c: Command): string
  {
    match c
    case Quit => QuitHead
    case Ping => PingHead
  }

  /** `Commands::try_from` accepts exactly the two command words, each for its own command. */
  lemma CommandWordsOnly(value: string, c: Command)
    ensures CommandsTryFrom(CommandWord(c)) == Ok(c)
    ensures CommandsTryFrom(value) == Ok(c) <==> value == CommandWord(c)
    ensures CommandsTryFrom(value).Err? <==> value != QuitHead && value != PingHead
  {
  }
}
