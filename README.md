# Chat line parser: command classifier and message assembler

A Dafny model of the message-ingestion front end of a Twitch/IRC-style chat
client. One raw line of bytes becomes a `Message` with optional tags, an
optional prefix, a command, an optional channel and optional parameters.

- `bytes.dfy` (module `Bytes`): bytes as `newtype byte = 0..255`. It also holds
  the three slice operations the parser borrows from its string library, as
  plain sequence functions: `StartsWith`, `StripSuffix` and `SplitFirst`.
  A slice the parser hands back is modelled as a suffix of its input.
- `letters.dfy` (module `Letters`): the digits and capital letters as named
  bytes. A literal such as `"PING"u8` is written `[P] + [I, N, G]`: first
  byte, then the suffix that the trie compares.
- `command.dfy` (module `Commands`): the `Command` record (key, bytes) with
  its 25 static constants and `Default`, the value of `default(Command)`.
  `Classify` is the first-byte/suffix trie. `Parse` is `Command.Parse`: the
  `PRIVMSG` fast path, then a split at the first space, then the trie. The
  `ref source` argument becomes the second component of the result.
- `message.dfy` (module `Messages`): `ParseChannel`, `Parameters`, and
  `Message.Parse` as a method that narrows one local `line` step by step.
  The method is proved equal to the specification function `Assembled`.
- `message_examples.dfy` (module `MessageExamples`): whole lines through the
  assembler.

Behaviour kept as the code has it:
- The fast path checks only that the line starts with the 7 bytes `PRIVMSG`.
  It never looks at the byte after them, and it leaves that byte (normally the
  space) in the remainder.
- `"376"` is declared but never dispatched.
- `RplNamReply` carries the `RplEndOfNames` key.
- An unmatched suffix under P, C, R, U, 0 or 3 gives `Default`, which is
  `(Undefined, empty)`. It does not give `(Undefined, token)`.

About `Default`: every arm of the classifier's switch has type `Command`, so
`default` there is `default(Command)`, not a null `Command?`. `Parse`
therefore always returns a command.

The system's design document describes some behaviour that the code does not
have. Where the two disagree, the model follows the code:
- The design document says an unmatched suffix keeps the raw token. The code
  keeps it only for first bytes without a nested match.
- The design document says a fast-path match followed by another byte fails.
  The code accepts it (see Findings).
- The design document says a line with no command after its tags and prefix
  fails. The code hands the empty remainder to `Command.Parse`, which returns
  `Default`, so such a line gives a message with command `Default`. The model
  has no error for it. `MessageExamples.FieldsWithoutCommand` and
  `MessageExamples.TagsOnlyLine` show this.
- The design document expects `":tmi.example.tv 001 user :Welcome"` to give
  parameters `"Welcome"`. The code strips only a leading `:` from what is left
  after the command, so it gives `"user :Welcome"`, provided the prefix parser
  consumes the prefix and the space after it. `MessageExamples.MiddleParameterKept`
  shows this for the prefix-free line `"001 user :Welcome"`.

## Model

| member | source | states |
|---|---|---|
| `Bytes.SplitFirst` | src/Command.cs:42 | the head holds no separator; when the input has one, head + separator + tail is the input; otherwise the head is the whole input and the tail is empty; the tail is a suffix of the input |
| `Bytes.SplitFirstUnique` | src/Message.cs:38-40 | any decomposition head + separator + tail with a separator-free head is exactly the one `SplitFirst` returns |
| `Bytes.StripSuffix` | src/Message.cs:16 | a present suffix is removed once (result + suffix = input); an absent one leaves the input unchanged |
| `Bytes.StripAppended` | src/Message.cs:16 | stripping CR LF undoes appending it |
| `Commands.Classify` | src/Command.cs:44-95 | a known result is one of the trie's constants and its bytes equal the token; any other result is `Default` or `(Undefined, token)` with a non-empty token |
| `Commands.Parse` | src/Command.cs:33-96 | the new `source` is a suffix of the old one; a known result is one of the dispatched constants and the input begins with its bytes |
| `Commands.LiteralFacts` | src/Command.cs:7-31 | every declared literal has no space, is at least 3 bytes and starts with a digit or capital; each trie literal differs from PRIVMSG in its first two bytes and is classified as its own constant |
| `Commands.TrieRecognises` | src/Command.cs:46-92 | each of the 23 trie constants is returned for its own literal |
| `Commands.ClassifyKnownIff` | src/Command.cs:46-92 | the trie yields a known command if and only if the token is one of the trie literals, and then the command's bytes are the token |
| `Commands.UnrecognisedKept` | src/Command.cs:53-93 | an unrecognised non-empty token whose first byte is not P, C, R, U, 0 or 3 (this includes J, W, G, H and N with a failed guard) gives `(Undefined, token)` |
| `Commands.UnrecognisedDropped` | src/Command.cs:46-92 | an unrecognised token starting with P, C, R, U, 0 or 3 gives `Default`, which differs from `(Undefined, token)` |
| `Commands.FastPath` | src/Command.cs:36-39 | `PRIVMSG` + anything gives `Privmsg`, and the remainder is the input minus exactly those 7 bytes |
| `Commands.FastPathIgnoresNextByte` | src/Command.cs:36-39 | `"PRIVMSGX y"` gives `Privmsg` with remainder `"X y"` |
| `Commands.GeneralPath` | src/Command.cs:42-44 | off the fast path, the classified token is the bytes before the first space and the remainder is the bytes after it, or empty when there is no space |
| `Commands.TokenThenRest` | src/Command.cs:42-95 | a space-free token that does not start with PRIVMSG, then a space and anything: the token alone is classified and the rest is handed back |
| `Commands.KnownTokens` | src/Command.cs:36-92 | each of the 24 dispatched literals, alone or followed by a space and anything, gives its constant; the remainder keeps the space only on the fast path |
| `Commands.EmptyToken` | src/Command.cs:94 | an empty input, or one starting with a space, gives `Default` and drops that space |
| `Commands.FastPathSeesOnlyToken` | src/Command.cs:36-42 | the fast path fires on a line exactly when it fires on the line's first token |
| `Commands.TokenDeterminesCommand` | src/Command.cs:42-95 | two inputs with the same token before the first space give the same command |
| `Commands.EndOfMotdNeverReturned` | src/Command.cs:31 | no input gives `RplEndOfMotd`, nor any command keyed `RplEndOfMotd` or `RplNamReply` |
| `Commands.EndOfMotdClassified` | src/Command.cs:85-92 | the classifier maps the token `"376"` to `Default` |
| `Commands.EndOfMotdLiteralUnrecognised` | src/Command.cs:85-92 | `"376"` followed by a space and anything gives `Default` |
| `Commands.NamReplySharesKey` | src/Command.cs:27-28 | `"353"` and `"366"` both give the `RplEndOfNames` key, and the two commands differ only in their bytes |
| `Commands.FastPathKeepsSeparator` | src/Command.cs:38 | after `PRIVMSG` + space + rest the fast path leaves space + rest, while the split used for every other command leaves rest |
| `Commands.ParseChecked` | src/Command.cs:36-40 | corrected fast path: fails exactly when PRIVMSG is followed by a byte other than a space; on success it gives `Parse`'s command and always the bytes after the first space |
| `Commands.CheckedFastPathConsumesSpace` | src/Command.cs:36-40 | with the check, `PRIVMSG` + space + rest leaves rest |
| `Messages.ParseChannel` | src/Message.cs:33-46 | a channel is found if and only if the line starts with `#`; it holds no space and the new line is a suffix of the old one; without `#` the line is unchanged |
| `Messages.ChannelReconstructs` | src/Message.cs:36-42 | `#` + channel + space + new line rebuilds the old line when it has a space; otherwise `#` + channel is the whole line and the new line is empty |
| `Messages.ChannelThenRest` | src/Message.cs:36-42 | `#` + a space-free channel + space + rest parses back to that channel and that rest |
| `Messages.Parameters` | src/Message.cs:23-28 | no parameters if and only if nothing is left; otherwise what is left minus one leading `:`, or verbatim when it does not start with `:`; always a suffix |
| `Messages.Assembled` | src/Message.cs:16-17 | the line is rejected as empty if and only if it is empty or a bare CR LF |
| `Messages.Parse` | src/Message.cs:14-31 | the method's result equals `Assembled`: strip CR LF, reject an empty line, then tags, prefix, command and channel in that order, each given what the previous one left, and the final remainder becomes the parameters |
| `Messages.ParametersAreSuffix` | src/Message.cs:19-28 | when the tag and prefix parsers hand back suffixes, the parameters are a suffix of the stripped line |
| `Messages.AssembledChecked` | src/Message.cs:19-23 | assembly with the corrected fast path succeeds only where the as-written one does, and gives the same command |
| `MessageExamples.PlainLine` | src/Message.cs:19-30 | a line starting with neither `@` nor `:` goes to the command parser whole |
| `MessageExamples.FieldsWithoutCommand` | src/Message.cs:19-28 | a line that the tag and prefix parsers consume entirely gives command `Default`, no channel and no parameters, instead of an error |
| `MessageExamples.TagsOnlyLine` | src/Message.cs:19-28 | `"@x\r\n"`, with a tag parser that takes the whole line, gives a message with those tags and command `Default` |
| `MessageExamples.KnownCommandAlone` | src/Message.cs:14-30 | each dispatched literal + CR LF gives that command and no tags, prefix, channel or parameters |
| `MessageExamples.UnknownCommandLine` | src/Message.cs:21-26 | `"FOO bar baz\r\n"` gives `(Undefined, "FOO")`, no channel, and parameters `"bar baz"` |
| `MessageExamples.KnownCommandWithParameters` | src/Message.cs:19-28 | a trie command, a space and a tail that starts with neither `#` nor `:` give that command, no channel, and the whole tail as the parameters |
| `MessageExamples.MiddleParameterKept` | src/Message.cs:23-28 | `"001 user :Welcome\r\n"` gives `RplWelcome` and parameters `"user :Welcome"` |
| `MessageExamples.PrivmsgChannelLost` | src/Message.cs:21-22 | as written, `"PRIVMSG #channel :Hello world\r\n"` gives no channel, and the parameters are `" #channel :Hello world"` |
| `MessageExamples.PrivmsgChannelRecovered` | src/Message.cs:21-22 | with the corrected fast path, the same line gives channel `"channel"` and parameters `"Hello world"` |

## Left out

- `Tag.ParseAll` and `Prefix.Parse` are not part of this model. `Messages.Parse` takes them as function parameters. Each one returns an optional field and the rest of the line, or `None` for the exception it throws. Their splitting rules are not modelled.
- `Messages.ParametersAreSuffix` assumes that those two parsers hand back a suffix of their input. That is what a `ref` slice argument allows, but their code is not shown.
- The examples in `MessageExamples` assume parsers that leave untouched a line not starting with their sigil (`@` or `:`).
- Zero-copy views, borrowing and buffer lifetimes are left out: every slice is a value. "Borrowed from the line" appears only as "is a suffix of the line".
- The library internals (`U8String`, `U8Marshal.SliceUnsafe`, `SplitFirst`, `StripSuffix`, `SequenceEqual`) are modelled as plain sequence functions with their evident semantics.
- The `Guard.IsGreaterThan` exception is modelled as `Err(EmptyLine)`.
- Compiler-generated record hashing is left out. Equality is the datatype's structural equality on (key, bytes).
- `Command.Parse` returns `Command?`, but no path returns null, so the model returns a `Command`. The mismatch between `Command?` and the `Command` field of `Message` is a type-level detail with no runtime behaviour.
- So is the difference between `ReadOnlySpan<byte>` and `U8String` at the call site.
- The fast-path mismatch error that the design document describes is absent from the code. It appears only in the corrected `Commands.ParseChecked`, not in `Messages.Parse`.
- The missing-command error that the design document describes is absent from the code, so `ParseError` has no case for it.
- The tags are typed by a type parameter, because `Tag` is not part of this model.

## Findings

| source | as written | input that shows it | evidently intended | confidence | as-written member | corrected member |
|---|---|---|---|---|---|---|
| src/Command.cs:36-40 | the fast path removes only the 7 bytes `PRIVMSG`. It leaves the following space in `source` and accepts any following byte | `"PRIVMSG #channel :Hello world\r\n"` through `Message.Parse`: `ParseChannel` sees `" #channel ..."`, so the channel is null and the parameters are `" #channel :Hello world"` | consume the space after `PRIVMSG` and reject any other byte, so that the channel parser sees `#channel` | medium (the assembler's namespace differs from the classifier's); not executed | `MessageExamples.PrivmsgChannelLost` | `Commands.ParseChecked` |

More on this finding:
- `Commands.FastPathKeepsSeparator` states the as-written remainder for every such line.
- `Commands.ParseChecked` is proved, for every input, to return the remainder that the general path's split returns.
- `Messages.AssembledChecked` is the assembly that uses `ParseChecked`. `MessageExamples.PrivmsgChannelRecovered` shows that it recovers the channel and the parameters.
- `Messages.Parse` itself keeps the as-written classifier, because it models `Message.Parse`.
