/**
 * The command-line parser of the older client (src/client.rs): whole lines
 * are matched exactly against the command words, and lines are only checked
 * for blankness, never trimmed, before they are parsed. Its messages are
 * those of the older vocabulary (`LegacyMessages`).
 *
 * The random nonce of `:ping` is a parameter; the echo of the line and the
 * log output are left out.
 */
module LegacyClient {
  import opened Wrappers
  import Text
  import opened LegacyMessages
  import ClientMessages
  import ClientInput

  const EmptyCommand: string := ":"
  const QuitWord: string := ":quit"
  const PingWord: string := ":ping"

  /**
   * `parse_user_input` of the older client: a line that does not start with
   * ':' is chat text; a line that does must be exactly `:quit` or `:ping`.
   */
  function ParseUserInput(line: string, nonce: u64): (r: Option<ClientMessage>)
    ensures r.Some? ==> r.value.ChatMessage? || r.value.Disconnect? || r.value.Ping?
  {
    if ClientInput.IsCommandLine(line) then
      if line == EmptyCommand then None
      else if line == QuitWord then Some(Disconnect)
      else if line == PingWord then Some(ClientMessage.Ping(nonce))
      else None
    else
      Some(ClientMessage.ChatMessage(line))
  }

  /**
   * What the older input task passes on for one line read from the terminal:
   * blank lines are skipped, any other line is parsed as it was read.
   */
  function ForwardLine(raw: string, nonce: u64): (r: Option<ClientMessage>)
  {
    if Text.Trim(raw) == [] then None else ParseUserInput(raw, nonce)
  }

  /**
   * A command line is accepted exactly when it is one of the two command
   * words, with nothing before or after; every other line is chat, verbatim.
   */
  lemma ExactCommandsOnly(line: string, nonce: u64)
    ensures ClientInput.IsCommandLine(line) ==>
              (ParseUserInput(line, nonce).Some? <==> line == QuitWord || line == PingWord)
    ensures line == QuitWord ==> ParseUserInput(line, nonce) == Some(Disconnect)
    ensures line == PingWord ==> ParseUserInput(line, nonce) == Some(ClientMessage.Ping(nonce))
    ensures !ClientInput.IsCommandLine(line) ==> ParseUserInput(line, nonce) == Some(ClientMessage.ChatMessage(line))
  {
  }

  /** A bare ':' and a command with trailing words are both refused. */
  lemma NearMissesRefused(nonce: u64)
    ensures ParseUserInput(":", nonce).None?
    ensures ParseUserInput(":quit x", nonce).None?
    ensures ParseUserInput(":QUIT", nonce).None?
  {
    assert ":quit x" != QuitWord && ":quit x" != PingWord && ":quit x" != EmptyCommand;
    assert ":QUIT"[1] != QuitWord[1];
  }

  /**
   * Blank lines produce nothing; every other line is parsed untrimmed, so
   * surrounding whitespace stays in chat text and hides a command.
   */
  lemma ForwardLineUntrimmed(raw: string, nonce: u64)
    ensures Text.AllWhitespace(raw) ==> ForwardLine(raw, nonce).None?
    ensures !Text.AllWhitespace(raw) ==> ForwardLine(raw, nonce) == ParseUserInput(raw, nonce)
    ensures ForwardLine(" :quit", nonce) == Some(ClientMessage.ChatMessage(" :quit"))
  {
    var q := " :quit";
    assert !Text.IsWhitespace(q[1]);
    assert !Text.AllWhitespace(q);
    assert !ClientInput.IsCommandLine(q);
  }

  /** `Commands::try_from` of the older client. */
  datatype Command = Quit | Ping

  /** The error the older client reports for an unknown command. */
  datatype Error = InvalidCommand

  /** `Commands::try_from`: the whole text must be one of the two command words. */
  function CommandsTryFrom(value: string): (r: Result<Command, Error>)
  {
    if value == QuitWord then Ok(Command.Quit)
    else if value == PingWord then Ok(Command.Ping)
    else Err(InvalidCommand)
  }

  /** `Commands::try_from` accepts exactly the two command words, each for its own command. */
  lemma CommandWordsOnly(value: string)
    ensures CommandsTryFrom(value) == Ok(Command.Quit) <==> value == QuitWord
    ensures CommandsTryFrom(value) == Ok(Command.Ping) <==> value == PingWord
    ensures CommandsTryFrom(value).Err? <==> value != QuitWord && value != PingWord
  {
  }

  /**
   * The current client understands every line the older one did: a line the
   * older parser accepts gives the corresponding message of the current
   * vocabulary (chat, disconnect or ping with the same nonce) there too.
   */
  lemma CurrentParserExtendsLegacy(line: string, nonce: u16)
    requires ParseUserInput(line, nonce).Some?
    ensures ParseUserInput(line, nonce).value.ChatMessage? ==>
              ClientInput.ParseUserInput(line, nonce) == Some(ClientMessages.GlobalChatMessage(line))
    ensures ParseUserInput(line, nonce).value.Disconnect? ==>
              ClientInput.ParseUserInput(line, nonce) == Some(ClientMessages.Disconnect)
    ensures ParseUserInput(line, nonce).value.Ping? ==>
              ClientInput.ParseUserInput(line, nonce) == Some(ClientMessages.Ping(nonce))
  {
    if line == QuitWord {
      ClientInput.HeadOfCommandWord(QuitWord);
    } else if line == PingWord {
      ClientInput.HeadOfCommandWord(PingWord);
    }
  }
}
