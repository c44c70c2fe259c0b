/** The message assembler: strips the line terminator, then hands the rest of
    the line to the tag, prefix, command and channel parsers in that order,
    each one receiving what the previous one left, and keeps what is left at
    the end as the parameters. */
module Messages {
  import opened Bytes
  import opened Wrappers
  import Commands

  const AT: byte := 0x40  // '@'

  /** What a field parser hands back: the field, if the line holds one, and
      the new value of the line it was given by reference. */
  datatype Step<T> = Step(value: Option<T>, rest: seq<byte>)

  /** The tag and prefix parsers are not part of this model. They are taken
      as parameters; `None` stands for the exception such a parser throws on
      a malformed field, which aborts the whole line. */
  type FieldParser<T> = seq<byte> -> Option<Step<T>>

  /** A parser given a line by reference can only move its start forward. */
  ghost predicate ReturnsSuffix<T>(parser: FieldParser<T>) {
    forall s :: parser(s).Some? ==> IsSuffix(parser(s).value.rest, s)
  }

  /** A parser that leaves a line not introduced by its sigil untouched. */
  ghost predicate PassesThrough<T>(parser: FieldParser<T>, sigil: byte) {
    forall s :: (s == [] || s[0] != sigil) ==> parser(s) == Some(Step(None, s))
  }

  datatype Message<T, P> = Message(
    tags: Option<T>,
    prefix: Option<P>,
    command: Commands.Command,
    channel: Option<seq<byte>>,
    parameters: Option<seq<byte>>)

  datatype ParseError =
    | EmptyLine        // nothing left once the terminator is stripped
    | TagsRejected     // the tag parser threw
    | PrefixRejected   // the prefix parser threw
    | FastPathMismatch // PRIVMSG followed by a byte other than a space

  /** `ParseChannel(ref line)`: a line starting with '#' gives the channel (the
      bytes after '#' up to the first space) and gives up everything through
      that space; any other line gives no channel and stays as it is. */
  function ParseChannel(line: seq<byte>): (r: (Option<seq<byte>>, seq<byte>))
    ensures r.0.Some? <==> line != [] && line[0] == HASH
    ensures r.0.None? ==> r.1 == line
    ensures r.0.Some? ==> SP !in r.0.value && IsSuffix(r.1, line)
  {
    if line != [] && line[0] == HASH then
      var (channel, rest) := SplitFirst(line[1..], SP);
      SuffixTransitive(rest, line[1..], line);
      (Some(channel), rest)
    else
      (None, line)
  }

  /** The channel and the new line rebuild the old one around the '#' and
      the space that the channel parser drops. */
  lemma ChannelReconstructs(line: seq<byte>)
    requires line != [] && line[0] == HASH
    ensures ParseChannel(line).0.Some?
    ensures SP in line ==> [HASH] + ParseChannel(line).0.value + [SP] + ParseChannel(line).1 == line
    ensures SP !in line ==> [HASH] + ParseChannel(line).0.value == line && ParseChannel(line).1 == []
  {
    var tail := line[1..];
    assert line == [HASH] + tail;
    assert SP in line <==> SP in tail;
    var split := SplitFirst(tail, SP);
    assert ParseChannel(line) == (Some(split.0), split.1);
    Reassociate(HASH, split.0, SP, split.1);
  }

  /** Conversely, '#', a channel without spaces, a space and anything parse
      back to that channel and that remainder. */
  lemma ChannelThenRest(channel: seq<byte>, rest: seq<byte>)
    requires SP !in channel
    ensures ParseChannel([HASH] + channel + [SP] + rest) == (Some(channel), rest)
  {
    var line := [HASH] + channel + [SP] + rest;
    assert line[1..] == channel + [SP] + rest;
    SplitFirstUnique(channel, SP, rest);
  }

  /** The parameters: everything left, with one leading ':' removed; nothing
      when nothing is left. They are never split further. */
  function Parameters(line: seq<byte>): (r: Option<seq<byte>>)
    ensures r.None? <==> line == []
    ensures r.Some? ==> IsSuffix(r.value, line) && |line| <= |r.value| + 1
    ensures r.Some? ==> line == [COLON] + r.value || (line[0] != COLON && r.value == line)
  {
    if line != [] && line[0] == COLON then
      assert line == [COLON] + line[1..];
      Some(line[1..])
    else if |line| > 0 then
      Some(line)
    else
      None
  }

  /** The message a raw line stands for: the specification `Parse` meets. */
  function Assembled<T, P>(raw: seq<byte>, tagsOf: FieldParser<T>, prefixOf: FieldParser<P>)
    : (r: Result<Message<T, P>, ParseError>)
    ensures r == Err(EmptyLine) <==> raw == [] || raw == CRLF
  {
    var line := StripSuffix(raw, CRLF);
    assert raw == CRLF ==> line == [] by {
      StripAppended([], CRLF);
      assert [] + CRLF == CRLF;
    }
    if line == [] then Err(EmptyLine)
    else match tagsOf(line)
      case None => Err(TagsRejected)
      case Some(tags) =>
        match prefixOf(tags.rest)
        case None => Err(PrefixRejected)
        case Some(prefix) =>
          var (command, afterCommand) := Commands.Parse(prefix.rest);
          var (channel, afterChannel) := ParseChannel(afterCommand);
          Ok(Message(tags.value, prefix.value, command, channel, Parameters(afterChannel)))
  }

  /** `Assembled` with the command taken by `Commands.ParseChecked`, whose
      fast path consumes the space after PRIVMSG so that the channel parser
      sees the channel. */
  function AssembledChecked<T, P>(raw: seq<byte>, tagsOf: FieldParser<T>, prefixOf: FieldParser<P>)
    : (r: Result<Message<T, P>, ParseError>)
    ensures r.Ok? ==> Assembled(raw, tagsOf, prefixOf).Ok?
    ensures r.Ok? ==> r.value.command == Assembled(raw, tagsOf, prefixOf).value.command
  {
    var line := StripSuffix(raw, CRLF);
    if line == [] then Err(EmptyLine)
    else match tagsOf(line)
      case None => Err(TagsRejected)
      case Some(tags) =>
        match prefixOf(tags.rest)
        case None => Err(PrefixRejected)
        case Some(prefix) =>
          match Commands.ParseChecked(prefix.rest)
          case Err(_) => Err(FastPathMismatch)
          case Ok((command, afterCommand)) =>
            var (channel, afterChannel) := ParseChannel(afterCommand);
            Ok(Message(tags.value, prefix.value, command, channel, Parameters(afterChannel)))
  }

  /** `Message.Parse`: one local `line`, narrowed by each field parser in turn. */
  method Parse<T, P>(raw: seq<byte>, tagsOf: FieldParser<T>, prefixOf: FieldParser<P>)
    returns (r: Result<Message<T, P>, ParseError>)
    ensures r == Assembled(raw, tagsOf, prefixOf)
  {
    var line := StripSuffix(raw, CRLF);
    if |line| == 0 {
      return Err(EmptyLine);
    }
    var tags := tagsOf(line);
    if tags.None? {
      return Err(TagsRejected);
    }
    line := tags.value.rest;
    var prefix := prefixOf(line);
    if prefix.None? {
      return Err(PrefixRejected);
    }
    line := prefix.value.rest;
    var afterCommand := Commands.Parse(line);
    var command := afterCommand.0;
    line := afterCommand.1;
    var afterChannel := ParseChannel(line);
    var channel := afterChannel.0;
    line := afterChannel.1;
    var parameters := Parameters(line);
    r := Ok(Message(tags.value.value, prefix.value.value, command, channel, parameters));
  }

  // ---- Properties of the assembled message ----

  /** With field parsers that only move the start of the line forward, the
      parameters are a tail slice of the stripped line. */
  lemma {:induction false} ParametersAreSuffix<T, P>(raw: seq<byte>, tagsOf: FieldParser<T>, prefixOf: FieldParser<P>)
    requires ReturnsSuffix(tagsOf) && ReturnsSuffix(prefixOf)
    requires Assembled(raw, tagsOf, prefixOf).Ok?
    requires Assembled(raw, tagsOf, prefixOf).value.parameters.Some?
    ensures IsSuffix(Assembled(raw, tagsOf, prefixOf).value.parameters.value, StripSuffix(raw, CRLF))
  {
    var line := StripSuffix(raw, CRLF);
    var tags := tagsOf(line).value;
    var prefix := prefixOf(tags.rest).value;
    var afterCommand := Commands.Parse(prefix.rest).1;
    var afterChannel := ParseChannel(afterCommand).1;
    SuffixTransitive(prefix.rest, tags.rest, line);
    SuffixTransitive(afterCommand, prefix.rest, line);
    SuffixTransitive(afterChannel, afterCommand, line);
    SuffixTransitive(Parameters(afterChannel).value, afterChannel, line);
  }
}
