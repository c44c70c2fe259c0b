/** Whole lines through the assembler, with tag and prefix parsers that leave
    a line not starting with '@' (resp. ':') untouched. */
module MessageExamples {
  import opened Bytes
  import opened Wrappers
  import opened Commands
  import opened Messages

  /** A line that starts with neither '@' nor ':' goes straight to the
      command parser. */
  lemma PlainLine<T, P>(body: seq<byte>, tagsOf: FieldParser<T>, prefixOf: FieldParser<P>)
    requires PassesThrough(tagsOf, AT) && PassesThrough(prefixOf, COLON)
    requires body != [] && body[0] != AT && body[0] != COLON
    ensures Assembled(body + CRLF, tagsOf, prefixOf)
         == Ok(Message(None, None, Commands.Parse(body).0,
                       ParseChannel(Commands.Parse(body).1).0,
                       Parameters(ParseChannel(Commands.Parse(body).1).1)))
    ensures Commands.ParseChecked(body).Ok? ==>
      AssembledChecked(body + CRLF, tagsOf, prefixOf)
         == Ok(Message(None, None, Commands.ParseChecked(body).value.0,
                       ParseChannel(Commands.ParseChecked(body).value.1).0,
                       Parameters(ParseChannel(Commands.ParseChecked(body).value.1).1)))
  {
    StripAppended(body, CRLF);
    assert tagsOf(body) == Some(Step(None, body));
    assert prefixOf(body) == Some(Step(None, body));
  }

  /** A line that is only tags (or only a prefix) is not rejected: the
      command parser is handed an empty line and returns `Default`, and
      there is no channel and no parameters. */
  lemma FieldsWithoutCommand<T, P>(body: seq<byte>, tags: Option<T>, prefix: Option<P>,
                                   tagsOf: FieldParser<T>, prefixOf: FieldParser<P>)
    requires body != [] && tagsOf(body) == Some(Step(tags, []))
    requires prefixOf([]) == Some(Step(prefix, []))
    ensures Assembled(body + CRLF, tagsOf, prefixOf) == Ok(Message(tags, prefix, Command.Default, None, None))
  {
    StripAppended(body, CRLF);
    EmptyToken([]);
  }

  /** For instance "@x\r\n" with a tag parser that consumes the whole line
      and a prefix parser that passes it through. */
  lemma TagsOnlyLine<P>(prefixOf: FieldParser<P>)
    requires PassesThrough(prefixOf, COLON)
    ensures var swallow: FieldParser<int> := s => Some(Step(Some(0), []));
      Assembled([AT, 0x78] + CRLF, swallow, prefixOf) == Ok(Message(Some(0), None, Command.Default, None, None))
  {
    var swallow: FieldParser<int> := s => Some(Step(Some(0), []));
    assert prefixOf([]) == Some(Step(None, []));
    FieldsWithoutCommand([AT, 0x78], Some(0), None, swallow, prefixOf);
  }

  /** A known command alone on its line: that command and nothing else. */
  lemma KnownCommandAlone<T, P>(c: Command, tagsOf: FieldParser<T>, prefixOf: FieldParser<P>)
    requires c in Dispatched
    requires PassesThrough(tagsOf, AT) && PassesThrough(prefixOf, COLON)
    ensures Assembled(c.value + CRLF, tagsOf, prefixOf) == Ok(Message(None, None, c, None, None))
  {
    StripAppended(c.value, CRLF);
    LiteralFacts(c);
    KnownTokens(c, []);
  }

  /** "FOO bar baz\r\n": an unknown command keeps its token, and the rest of
      the line, space included, is the parameters. */
  lemma UnknownCommandLine<T, P>(tagsOf: FieldParser<T>, prefixOf: FieldParser<P>)
    requires PassesThrough(tagsOf, AT) && PassesThrough(prefixOf, COLON)
    ensures Assembled(Ascii("FOO") + [SP] + Ascii("bar baz") + CRLF, tagsOf, prefixOf)
         == Ok(Message(None, None, Command(CommandKey.Undefined, Ascii("FOO")),
                       None, Some(Ascii("bar baz"))))
  {
    var token, tail := Ascii("FOO"), Ascii("bar baz");
    var line := token + [SP] + tail;
    FooToken();
    assert line[0] == token[0];
    PlainLine(line, tagsOf, prefixOf);
    TokenThenRest(token, tail);
    assert ParseChannel(tail) == (None, tail) && Parameters(tail) == Some(tail) by {
      BarBazText();
    }
  }

  lemma FooToken()
    ensures SP !in Ascii("FOO") && Ascii("FOO")[0] == 0x46
    ensures !StartsWith(Ascii("FOO"), Command.Privmsg.value)
    ensures Classify(Ascii("FOO")) == Command(CommandKey.Undefined, Ascii("FOO"))
  {
    AsciiNoSpace("FOO");
    assert Ascii("FOO")[0] != Command.Privmsg.value[0];
  }

  lemma BarBazText()
    ensures Ascii("bar baz")[0] == 0x62
  {
  }

  /** A trie command, a space and a tail that starts with neither '#' nor
      ':': no channel, and the whole tail is the parameters. */
  lemma KnownCommandWithParameters<T, P>(c: Command, tail: seq<byte>, tagsOf: FieldParser<T>, prefixOf: FieldParser<P>)
    requires c in TrieCommands
    requires PassesThrough(tagsOf, AT) && PassesThrough(prefixOf, COLON)
    requires tail != [] && tail[0] != HASH && tail[0] != COLON
    ensures Assembled(c.value + [SP] + tail + CRLF, tagsOf, prefixOf) == Ok(Message(None, None, c, None, Some(tail)))
  {
    var line := c.value + [SP] + tail;
    LiteralFacts(c);
    assert line[0] == c.value[0];
    PlainLine(line, tagsOf, prefixOf);
    KnownTokens(c, tail);
  }

  /** "001 user :Welcome\r\n": only a leading ':' is stripped, so a middle
      parameter keeps the trailing one's colon in the parameters. */
  lemma MiddleParameterKept<T, P>(tagsOf: FieldParser<T>, prefixOf: FieldParser<P>)
    requires PassesThrough(tagsOf, AT) && PassesThrough(prefixOf, COLON)
    ensures Assembled(Command.RplWelcome.value + [SP] + Ascii("user :Welcome") + CRLF, tagsOf, prefixOf)
         == Ok(Message(None, None, Command.RplWelcome, None, Some(Ascii("user :Welcome"))))
  {
    WelcomeText();
    KnownCommandWithParameters(Command.RplWelcome, Ascii("user :Welcome"), tagsOf, prefixOf);
  }

  lemma WelcomeText()
    ensures Ascii("user :Welcome") != [] && Ascii("user :Welcome")[0] == 0x75
  {
  }

  /** As written: "PRIVMSG #channel :Hello world\r\n" keeps the space after
      PRIVMSG, so no channel is found and the parameters are the whole tail. */
  lemma PrivmsgChannelLost<T, P>(tagsOf: FieldParser<T>, prefixOf: FieldParser<P>)
    requires PassesThrough(tagsOf, AT) && PassesThrough(prefixOf, COLON)
    ensures var tail := [SP, HASH] + Ascii("channel") + [SP, COLON] + Ascii("Hello world");
      Assembled(Command.Privmsg.value + tail + CRLF, tagsOf, prefixOf)
      == Ok(Message(None, None, Command.Privmsg, None, Some(tail)))
  {
    var tail := [SP, HASH] + Ascii("channel") + [SP, COLON] + Ascii("Hello world");
    var line := Command.Privmsg.value + tail;
    LiteralFacts(Command.Privmsg);
    assert line[0] == Command.Privmsg.value[0];
    PlainLine(line, tagsOf, prefixOf);
    FastPath(tail);
    assert ParseChannel(tail) == (None, tail);
  }

  /** Corrected: with the checked fast path the same line yields channel
      "channel" and parameters "Hello world". */
  lemma PrivmsgChannelRecovered<T, P>(tagsOf: FieldParser<T>, prefixOf: FieldParser<P>)
    requires PassesThrough(tagsOf, AT) && PassesThrough(prefixOf, COLON)
    ensures var tail := [SP, HASH] + Ascii("channel") + [SP, COLON] + Ascii("Hello world");
      AssembledChecked(Command.Privmsg.value + tail + CRLF, tagsOf, prefixOf)
      == Ok(Message(None, None, Command.Privmsg, Some(Ascii("channel")), Some(Ascii("Hello world"))))
  {
    var channel, text := Ascii("channel"), Ascii("Hello world");
    var tail := [SP, HASH] + channel + [SP, COLON] + text;
    var line := Command.Privmsg.value + tail;
    var afterCommand := [HASH] + channel + [SP] + ([COLON] + text);
    LiteralFacts(Command.Privmsg);
    assert line[0] == Command.Privmsg.value[0];
    PlainLine(line, tagsOf, prefixOf);
    Regroup(Command.Privmsg.value, channel, text);
    CheckedFastPathConsumesSpace(afterCommand);
    ChannelWord();
    ChannelThenRest(channel, [COLON] + text);
    assert Parameters([COLON] + text) == Some(text);
  }

  lemma ChannelWord()
    ensures SP !in Ascii("channel")
  {
    AsciiNoSpace("channel");
  }

  lemma Regroup(command: seq<byte>, channel: seq<byte>, text: seq<byte>)
    ensures command + ([SP, HASH] + channel + [SP, COLON] + text)
         == command + [SP] + ([HASH] + channel + [SP] + ([COLON] + text))
  {
  }
}
